/** The CSV export of the admin dashboard (`downloadCSV`): a header line of the twelve
    column names, then one line per survey row in which every field is
    `JSON.stringify`-encoded and the fields are joined by commas; the lines are joined by
    newlines. Next to the encoder sits a decoder for exactly this format (a JSON string
    and integer reader, a comma-separated field reader and a line splitter); the lemmas
    show that decoding the export gives back every row's fields, and that a row is
    determined by its fields up to a null comment reading as an empty one. */
module CsvExport {
  import opened Wrappers
  import opened Text
  import opened AdminAggregates

  /** The column names, in export order; each also names the row property it reads. */
  const Header: seq<string> := [
    "id", "created_at", "user_email", "variant", "prediction",
    "trust_score", "reasoning_confidence_score", "accuracy_score",
    "understanding_score", "repeat_usage_score", "comfort_score", "comment"
  ]

  /** A field value as `JSON.stringify` sees it: a number or a string. */
  datatype Field = Number(n: int) | Str(s: string)

  function VariantName(v: Variant): string {
    match v
    case Baseline => "baseline"
    case Xai => "xai"
  }

  /** `(r as any)[h] ?? ''`: the property named `h`, a missing or null one read as `''`. */
  function FieldNamed(r: SurveyRow, h: string): Field {
    if h == "id" then Number(r.id)
    else if h == "created_at" then Str(r.createdAt)
    else if h == "user_email" then Str(r.userEmail)
    else if h == "variant" then Str(VariantName(r.variant))
    else if h == "prediction" then Str(r.prediction)
    else if h == "trust_score" then Number(r.trustScore)
    else if h == "reasoning_confidence_score" then Number(r.reasoningConfidenceScore)
    else if h == "accuracy_score" then Number(r.accuracyScore)
    else if h == "understanding_score" then Number(r.understandingScore)
    else if h == "repeat_usage_score" then Number(r.repeatUsageScore)
    else if h == "comfort_score" then Number(r.comfortScore)
    else if h == "comment" then Str(r.comment.GetOr(""))
    else Str("")
  }

  /** `header.map(h => (r as any)[h] ?? '')`. */
  function Fields(r: SurveyRow): (fs: seq<Field>)
    ensures |fs| == |Header|
    ensures forall i :: 0 <= i < |Header| ==> fs[i] == FieldNamed(r, Header[i])
  {
    seq(|Header|, i requires 0 <= i < |Header| => FieldNamed(r, Header[i]))
  }

  // ---------------------------------------------------------------- JSON.stringify

  const HexDigits: string := "0123456789abcdef"

  /** One character of a JSON string literal, escaped as `JSON.stringify` does: the two
      quoting characters and the short escapes by a backslash, the other control
      characters as `\u00xx` with lower-case hex digits, everything else as itself. */
  function EscapeChar(c: char): (e: string)
    ensures |e| >= 1
    ensures |e| == 1 <==> e == [c]
  {
    if c == '"' then "\\\""
    else if c == '\\' then "\\\\"
    else if c == '\U{8}' then "\\b"
    else if c == '\U{C}' then "\\f"
    else if c == '\n' then "\\n"
    else if c == '\r' then "\\r"
    else if c == '\t' then "\\t"
    else if c < ' ' then "\\u00" + [HexDigits[(c as int) / 16], HexDigits[(c as int) % 16]]
    else [c]
  }

  function Escape(s: string): string {
    if s == [] then [] else EscapeChar(s[0]) + Escape(s[1..])
  }

  /** `JSON.stringify(v)` for a number or a string. */
  function Stringify(f: Field): string {
    match f
    case Number(n) => IntToString(n)
    case Str(s) => "\"" + Escape(s) + "\""
  }

  function StringifyAll(fs: seq<Field>): (parts: seq<string>)
    ensures |parts| == |fs|
  {
    if fs == [] then [] else [Stringify(fs[0])] + StringifyAll(fs[1..])
  }

  /** One data line: the row's fields, encoded and joined by commas. */
  function RowLine(r: SurveyRow): string {
    Join(StringifyAll(Fields(r)), ",")
  }

  function RowLines(rows: seq<SurveyRow>): (lines: seq<string>)
    ensures |lines| == |rows| && forall i :: 0 <= i < |rows| ==> lines[i] == RowLine(rows[i])
  {
    if rows == [] then [] else [RowLine(rows[0])] + RowLines(rows[1..])
  }

  /** The exported text: the header line, then one line per row, joined by newlines. */
  function Csv(rows: seq<SurveyRow>): string {
    Join([Join(Header, ",")] + RowLines(rows), "\n")
  }

  // ---------------------------------------------------------------- decoding

  function HexValue(c: char): Option<nat> {
    if '0' <= c <= '9' then Some((c as int) - ('0' as int))
    else if 'a' <= c <= 'f' then Some((c as int) - ('a' as int) + 10)
    else if 'A' <= c <= 'F' then Some((c as int) - ('A' as int) + 10)
    else None
  }

  /** The code unit of the four hex digits after `\u`, when it is a character. */
  function Hex4(h: string): Option<char>
    requires |h| == 4
  {
    match (HexValue(h[0]), HexValue(h[1]), HexValue(h[2]), HexValue(h[3]))
    case (Some(a), Some(b), Some(c), Some(d)) =>
      var v := 4096 * a + 256 * b + 16 * c + d;
      if v < 0xD800 || 0xE000 <= v then Some(v as char) else None
    case _ => None
  }

  /** The character a one-letter escape stands for. */
  function ShortEscape(e: char): Option<char> {
    if e == '"' then Some('"')
    else if e == '\\' then Some('\\')
    else if e == '/' then Some('/')
    else if e == 'b' then Some('\U{8}')
    else if e == 'f' then Some('\U{C}')
    else if e == 'n' then Some('\n')
    else if e == 'r' then Some('\r')
    else if e == 't' then Some('\t')
    else None
  }

  function Prepend(c: char, d: Option<(string, string)>): Option<(string, string)> {
    match d
    case None => None
    case Some((s, rest)) => Some(([c] + s, rest))
  }

  /** Reads the body of a JSON string literal up to its closing quote: the decoded
      string and the text after the quote. */
  function DecodeBody(t: string): (d: Option<(string, string)>)
    ensures d.Some? ==> |d.value.1| < |t|
  {
    if t == [] then None
    else if t[0] == '"' then Some(([], t[1..]))
    else if t[0] == '\\' then
      if |t| < 2 then None
      else if ShortEscape(t[1]).Some? then Prepend(ShortEscape(t[1]).value, DecodeBody(t[2..]))
      else if t[1] == 'u' && |t| >= 6 && Hex4(t[2..6]).Some? then Prepend(Hex4(t[2..6]).value, DecodeBody(t[6..]))
      else None
    else if t[0] < ' ' then None
    else Prepend(t[0], DecodeBody(t[1..]))
  }

  /** The length of the run of decimal digits at the start of `t`. */
  function DigitRun(t: string): (k: nat)
    ensures k <= |t| && forall i :: 0 <= i < k ==> IsDigit(t[i])
    ensures k < |t| ==> !IsDigit(t[k])
  {
    if t == [] || !IsDigit(t[0]) then 0 else 1 + DigitRun(t[1..])
  }

  /** Reads an optionally negative decimal integer: its value and the text after it. */
  function DecodeInt(t: string): (d: Option<(int, string)>)
    ensures d.Some? ==> |d.value.1| < |t|
  {
    var neg := t != [] && t[0] == '-';
    var u := if neg then t[1..] else t;
    var k := DigitRun(u);
    if k == 0 then None
    else
      var v: int := DigitsValue(u[..k]);
      Some((if neg then -v else v, u[k..]))
  }

  /** Reads one field: a quoted JSON string or an integer. */
  function DecodeField(t: string): (d: Option<(Field, string)>)
    ensures d.Some? ==> |d.value.1| < |t|
  {
    if t != [] && t[0] == '"' then
      match DecodeBody(t[1..])
      case None => None
      case Some((s, rest)) => Some((Str(s), rest))
    else
      match DecodeInt(t)
      case None => None
      case Some((n, rest)) => Some((Number(n), rest))
  }

  /** Reads a comma-separated list of fields that fills the whole line. */
  function DecodeFields(t: string): Option<seq<Field>>
    decreases |t|
  {
    match DecodeField(t)
    case None => None
    case Some((f, rest)) =>
      if rest == [] then Some([f])
      else if rest[0] == ',' then
        match DecodeFields(rest[1..])
        case None => None
        case Some(fs) => Some([f] + fs)
      else None
  }

  /** Index of the first `sep` in `s`, or `|s|` when there is none. */
  function IndexOf(s: string, sep: char): (i: nat)
    ensures i <= |s| && (i < |s| ==> s[i] == sep)
    ensures forall k :: 0 <= k < i ==> s[k] != sep
  {
    if s == [] then 0 else if s[0] == sep then 0 else 1 + IndexOf(s[1..], sep)
  }

  /** `s.split(sep)`. */
  function Split(s: string, sep: char): (parts: seq<string>)
    ensures |parts| >= 1
    decreases |s|
  {
    var i := IndexOf(s, sep);
    if i == |s| then [s] else [s[..i]] + Split(s[i + 1..], sep)
  }

  function DecodeLines(lines: seq<string>): Option<seq<seq<Field>>> {
    if lines == [] then Some([])
    else
      match (DecodeFields(lines[0]), DecodeLines(lines[1..]))
      case (Some(fs), Some(rest)) => Some([fs] + rest)
      case _ => None
  }

  /** Reads an export back: checks the header line and decodes every data line. */
  function DecodeCsv(csv: string): Option<seq<seq<Field>>> {
    var lines := Split(csv, '\n');
    if lines[0] != Join(Header, ",") then None else DecodeLines(lines[1..])
  }

  function AllFields(rows: seq<SurveyRow>): (fss: seq<seq<Field>>)
    ensures |fss| == |rows| && forall i :: 0 <= i < |rows| ==> fss[i] == Fields(rows[i])
  {
    if rows == [] then [] else [Fields(rows[0])] + AllFields(rows[1..])
  }

  /** The fields determine the row, except that a null comment and an empty one both
      export as `""`. */
  lemma FieldsDetermineRow(r1: SurveyRow, r2: SurveyRow)
    requires Fields(r1) == Fields(r2)
    ensures r1.(comment := None) == r2.(comment := None)
    ensures r1.comment.GetOr("") == r2.comment.GetOr("")
  {
    var f1, f2 := Fields(r1), Fields(r2);
    assert f1[0] == Number(r1.id) && f2[0] == Number(r2.id);
    assert f1[1] == Str(r1.createdAt) && f2[1] == Str(r2.createdAt);
    assert f1[2] == Str(r1.userEmail) && f2[2] == Str(r2.userEmail);
    assert f1[3] == Str(VariantName(r1.variant)) && f2[3] == Str(VariantName(r2.variant));
    assert f1[4] == Str(r1.prediction) && f2[4] == Str(r2.prediction);
    assert f1[5] == Number(r1.trustScore) && f2[5] == Number(r2.trustScore);
    assert f1[6] == Number(r1.reasoningConfidenceScore) && f2[6] == Number(r2.reasoningConfidenceScore);
    assert f1[7] == Number(r1.accuracyScore) && f2[7] == Number(r2.accuracyScore);
    assert f1[8] == Number(r1.understandingScore) && f2[8] == Number(r2.understandingScore);
    assert f1[9] == Number(r1.repeatUsageScore) && f2[9] == Number(r2.repeatUsageScore);
    assert f1[10] == Number(r1.comfortScore) && f2[10] == Number(r2.comfortScore);
    assert f1[11] == Str(r1.comment.GetOr("")) && f2[11] == Str(r2.comment.GetOr(""));
  }

  /** A null comment exports exactly as an empty one. */
  lemma NullCommentAsEmpty(r: SurveyRow)
    ensures RowLine(r.(comment := None)) == RowLine(r.(comment := Some("")))
  {
    assert Fields(r.(comment := None)) == Fields(r.(comment := Some("")));
  }

  // ---------------------------------------------------------------- round trip

  /** The four hex digits of a control character's `\u00xx` escape read back as it. */
  lemma ControlHexDecodes(c: char)
    requires c < ' '
    ensures Hex4(['0', '0', HexDigits[(c as int) / 16], HexDigits[(c as int) % 16]]) == Some(c)
  {
    var v := c as int;
    assert HexValue(HexDigits[v / 16]) == Some(v / 16);
    assert HexValue(HexDigits[v % 16]) == Some(v % 16);
  }

  lemma EscapeCharDecodes(c: char, rest: string)
    ensures DecodeBody(EscapeChar(c) + rest) == Prepend(c, DecodeBody(rest))
  {
    var t := EscapeChar(c) + rest;
    if c == '"' || c == '\\' || c == '\U{8}' || c == '\U{C}' || c == '\n' || c == '\r' || c == '\t' {
      assert t[0] == '\\' && ShortEscape(t[1]) == Some(c);
      assert t[2..] == rest;
    } else if c < ' ' {
      var v := c as int;
      assert t[0] == '\\' && t[1] == 'u' && ShortEscape(t[1]).None?;
      assert t[2..6] == ['0', '0', HexDigits[v / 16], HexDigits[v % 16]];
      ControlHexDecodes(c);
      assert t[6..] == rest;
    } else {
      assert t[0] == c && t[1..] == rest;
    }
  }

  /** The body of an encoded string decodes to the string, whatever follows the quote. */
  lemma {:induction false} EscapeDecodes(s: string, rest: string)
    ensures DecodeBody(Escape(s) + "\"" + rest) == Some((s, rest))
  {
    if s == [] {
      assert Escape(s) + "\"" + rest == "\"" + rest;
    } else {
      EscapeDecodes(s[1..], rest);
      assert Escape(s) + "\"" + rest == EscapeChar(s[0]) + (Escape(s[1..]) + "\"" + rest);
      EscapeCharDecodes(s[0], Escape(s[1..]) + "\"" + rest);
      assert [s[0]] + s[1..] == s;
    }
  }

  lemma {:induction false} DigitRunOf(ds: string, rest: string)
    requires forall i :: 0 <= i < |ds| ==> IsDigit(ds[i])
    requires rest == [] || !IsDigit(rest[0])
    ensures DigitRun(ds + rest) == |ds|
    decreases |ds|
  {
    var t := ds + rest;
    if ds == [] {
      assert t == rest;
    } else {
      assert t[0] == ds[0] && IsDigit(t[0]);
      assert t[1..] == ds[1..] + rest;
      assert forall i :: 0 <= i < |ds[1..]| ==> IsDigit(ds[1..][i]) by {
        forall i | 0 <= i < |ds[1..]| ensures IsDigit(ds[1..][i]) {
          assert ds[1..][i] == ds[i + 1];
        }
      }
      DigitRunOf(ds[1..], rest);
    }
  }

  /** An encoded integer decodes to itself when a comma or the end of the line follows. */
  lemma IntDecodes(n: int, rest: string)
    requires rest == [] || rest[0] == ','
    ensures DecodeInt(IntToString(n) + rest) == Some((n, rest))
  {
    var t := IntToString(n) + rest;
    if n < 0 {
      var ds := IntToString(n)[1..];
      assert t[1..] == ds + rest;
      DigitRunOf(ds, rest);
      assert (ds + rest)[..|ds|] == ds && (ds + rest)[|ds|..] == rest;
    } else {
      var ds := IntToString(n);
      DigitRunOf(ds, rest);
      assert t[..|ds|] == ds && t[|ds|..] == rest;
    }
  }

  lemma FieldDecodes(f: Field, rest: string)
    requires rest == [] || rest[0] == ','
    ensures DecodeField(Stringify(f) + rest) == Some((f, rest))
  {
    var t := Stringify(f) + rest;
    match f
    case Number(n) =>
      IntDecodes(n, rest);
      assert t == IntToString(n) + rest;
      assert t[0] != '"';
    case Str(s) =>
      EscapeDecodes(s, rest);
      assert t == "\"" + (Escape(s) + "\"" + rest);
      assert t[0] == '"' && t[1..] == Escape(s) + "\"" + rest;
  }

  /** The comma-joined encodings of a non-empty list of fields decode to that list. */
  lemma {:induction false} FieldsDecode(fs: seq<Field>)
    requires fs != []
    ensures DecodeFields(Join(StringifyAll(fs), ",")) == Some(fs)
  {
    var parts := StringifyAll(fs);
    if |fs| == 1 {
      FieldDecodes(fs[0], []);
      assert Join(parts, ",") == Stringify(fs[0]) + [];
      assert fs == [fs[0]];
    } else {
      assert parts[1..] == StringifyAll(fs[1..]);
      var tail := Join(parts[1..], ",");
      FieldsDecode(fs[1..]);
      FieldDecodes(fs[0], "," + tail);
      assert Join(parts, ",") == Stringify(fs[0]) + ("," + tail);
      assert ("," + tail)[1..] == tail;
      assert [fs[0]] + fs[1..] == fs;
    }
  }

  /** `JSON.stringify` never emits a raw line feed: escaped text has none. */
  lemma {:induction false} EscapeNoNewline(s: string)
    ensures '\n' !in Escape(s)
  {
    if s != [] {
      EscapeNoNewline(s[1..]);
      var c := s[0];
      assert '\n' !in EscapeChar(c) by {
        if c < ' ' && c != '\U{8}' && c != '\U{C}' && c != '\n' && c != '\r' && c != '\t' {
          var e := EscapeChar(c);
          assert forall k :: 0 <= k < |e| ==> e[k] != '\n' by {
            assert e == ['\\', 'u', '0', '0', HexDigits[(c as int) / 16], HexDigits[(c as int) % 16]];
          }
        }
      }
    }
  }

  lemma StringifyNoNewline(f: Field)
    ensures '\n' !in Stringify(f)
  {
    match f
    case Number(n) =>
      forall k | 0 <= k < |IntToString(n)| ensures IntToString(n)[k] != '\n' {
        assert k == 0 || IsDigit(IntToString(n)[k]);
        assert IntToString(n)[k] == '-' || IsDigit(IntToString(n)[k]);
      }
    case Str(s) =>
      EscapeNoNewline(s);
  }

  lemma {:induction false} JoinAvoids(parts: seq<string>, sep: string, c: char)
    requires forall p :: p in parts ==> c !in p
    requires c !in sep
    ensures c !in Join(parts, sep)
  {
    if |parts| >= 2 {
      JoinAvoids(parts[1..], sep, c);
    }
  }

  lemma {:induction false} StringifyAllNoNewline(fs: seq<Field>)
    ensures forall p :: p in StringifyAll(fs) ==> '\n' !in p
  {
    if fs != [] {
      StringifyNoNewline(fs[0]);
      StringifyAllNoNewline(fs[1..]);
    }
  }

  lemma RowLineNoNewline(r: SurveyRow)
    ensures '\n' !in RowLine(r)
  {
    StringifyAllNoNewline(Fields(r));
    JoinAvoids(StringifyAll(Fields(r)), ",", '\n');
  }

  lemma IndexOfJoined(a: string, sep: char, b: string)
    requires sep !in a
    ensures IndexOf(a + [sep] + b, sep) == |a|
    decreases |a|
  {
    if a != [] {
      assert (a + [sep] + b)[1..] == a[1..] + [sep] + b;
      IndexOfJoined(a[1..], sep, b);
    }
  }

  lemma IndexOfAbsent(a: string, sep: char)
    requires sep !in a
    ensures IndexOf(a, sep) == |a|
    decreases |a|
  {
    if a != [] {
      IndexOfAbsent(a[1..], sep);
    }
  }

  /** Splitting lines that contain no separator, joined by it, gives back the lines. */
  lemma {:induction false} SplitJoin(parts: seq<string>, sep: char)
    requires parts != []
    requires forall p :: p in parts ==> sep !in p
    ensures Split(Join(parts, [sep]), sep) == parts
  {
    if |parts| == 1 {
      IndexOfAbsent(parts[0], sep);
    } else {
      var head, tail := parts[0], Join(parts[1..], [sep]);
      assert forall p :: p in parts[1..] ==> p in parts;
      SplitJoin(parts[1..], sep);
      IndexOfJoined(head, sep, tail);
      var t := head + [sep] + tail;
      assert Join(parts, [sep]) == t;
      assert IndexOf(t, sep) == |head| < |t|;
      assert Split(t, sep) == [t[..|head|]] + Split(t[|head| + 1..], sep);
      assert t[..|head|] == head && t[|head| + 1..] == tail;
      assert [head] + parts[1..] == parts;
    }
  }

  /** The header line holds no line feed. */
  lemma HeaderLineNoNewline()
    ensures '\n' !in Join(Header, ",")
  {
    forall i | 0 <= i < |Header| ensures '\n' !in Header[i] {
      assert forall k :: 0 <= k < |Header[i]| ==> Header[i][k] == '_' || 'a' <= Header[i][k] <= 'z';
    }
    JoinAvoids(Header, ",", '\n');
  }

  lemma {:induction false} LinesDecode(rows: seq<SurveyRow>)
    ensures DecodeLines(RowLines(rows)) == Some(AllFields(rows))
  {
    if rows != [] {
      LinesDecode(rows[1..]);
      FieldsDecode(Fields(rows[0]));
      assert RowLines(rows)[1..] == RowLines(rows[1..]);
    }
  }

  lemma LinesNoNewline(rows: seq<SurveyRow>)
    ensures forall p :: p in [Join(Header, ",")] + RowLines(rows) ==> '\n' !in p
  {
    var lines := [Join(Header, ",")] + RowLines(rows);
    forall p | p in lines ensures '\n' !in p {
      var k :| 0 <= k < |lines| && lines[k] == p;
      if k == 0 {
        HeaderLineNoNewline();
      } else {
        assert p == RowLines(rows)[k - 1] == RowLine(rows[k - 1]);
        RowLineNoNewline(rows[k - 1]);
      }
    }
  }

  /** The export has one line per row after the header line, and decoding it gives back
      the fields of every row, in order. */
  lemma ExportRoundTrip(rows: seq<SurveyRow>)
    ensures |Split(Csv(rows), '\n')| == |rows| + 1
    ensures Split(Csv(rows), '\n')[0] == Join(Header, ",")
    ensures DecodeCsv(Csv(rows)) == Some(AllFields(rows))
  {
    var lines := [Join(Header, ",")] + RowLines(rows);
    LinesNoNewline(rows);
    SplitJoin(lines, '\n');
    assert lines[1..] == RowLines(rows);
    LinesDecode(rows);
  }
}
