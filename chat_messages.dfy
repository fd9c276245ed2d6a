/** The message list of the chat screen (`ChatMessages`): one bubble per message, in
    order and with the message's sender; a message whose text carries one of the three
    section markers of a loan decision is rewritten into HTML by three global `replace`
    calls (bold spans, bullets, line breaks), any other message is shown as it is. */
module ChatMessages {
  import opened Wrappers
  import opened Text

  datatype Sender = User | Bot

  datatype Message = Message(sender: Sender, text: string)

  /** What `MessageBubble` receives. */
  datatype Bubble = Bubble(sender: Sender, html: string, isFormatted: bool)

  /** The three markers that switch formatting on. */
  predicate Formatted(text: string) {
    Contains(text, "**Decision") || Contains(text, "**Main") || Contains(text, "**Conclusion")
  }

  /** The characters `.` does not match in a JavaScript regular expression. */
  predicate IsLineTerminator(c: char) {
    c == '\n' || c == '\r' || c == '\U{2028}' || c == '\U{2029}'
  }

  predicate NoLineTerminator(s: string) {
    forall i :: 0 <= i < |s| ==> !IsLineTerminator(s[i])
  }

  // ---------------------------------------------------------------- **x** -> <b>x</b>

  /** Where the lazy `(.*?)\*\*` closes when the span starts at `t[0]`: the first `**`
      reached before any line terminator, or none. */
  function Close(t: string): (k: Option<nat>)
    ensures k.Some? ==> k.value + 2 <= |t| && t[k.value] == '*' && t[k.value + 1] == '*'
    ensures k.Some? ==> NoLineTerminator(t[..k.value])
    ensures k.Some? ==> forall j :: 0 <= j < k.value ==> !(t[j] == '*' && t[j + 1] == '*')
  {
    if |t| >= 2 && t[0] == '*' && t[1] == '*' then Some(0)
    else if t == [] || IsLineTerminator(t[0]) then None
    else
      match Close(t[1..])
      case None => None
      case Some(k) => Some(k + 1)
  }

  /** No close found means no `**` stands anywhere before the first line terminator. */
  lemma {:induction false} CloseNone(t: string)
    requires Close(t).None?
    ensures forall j :: 0 <= j < |t| - 1 && NoLineTerminator(t[..j]) ==> !(t[j] == '*' && t[j + 1] == '*')
  {
    if t != [] && !IsLineTerminator(t[0]) && !(|t| >= 2 && t[0] == '*' && t[1] == '*') {
      var u := t[1..];
      CloseNone(u);
      forall j | 1 <= j < |t| - 1 && NoLineTerminator(t[..j])
        ensures !(t[j] == '*' && t[j + 1] == '*')
      {
        assert u[..j - 1] == t[1..j];
        assert NoLineTerminator(u[..j - 1]);
        assert u[j - 1] == t[j] && u[j] == t[j + 1];
      }
    }
  }

  // `.replace(/\*\*(.*?)\*\*/g, "<b>$1</b>")`: from left to right, each `**` that has a
  // closing `**` later on its line opens the shortest bold span; the search resumes
  // after the closing `**`.
  function Bold(s: string): string {
    if s == [] then []
    else if |s| >= 2 && s[0] == '*' && s[1] == '*' && Close(s[2..]).Some? then
      var k := Close(s[2..]).value;
      "<b>" + s[2..2 + k] + "</b>" + Bold(s[4 + k..])
    else [s[0]] + Bold(s[1..])
  }

  /** `.replace(/- /g, "• ")`. */
  function Bullets(s: string): string {
    if s == [] then []
    else if |s| >= 2 && s[0] == '-' && s[1] == ' ' then "\U{2022} " + Bullets(s[2..])
    else [s[0]] + Bullets(s[1..])
  }

  /** `.replace(/\n/g, "<br/>")`. */
  function Breaks(s: string): string {
    if s == [] then []
    else (if s[0] == '\n' then "<br/>" else [s[0]]) + Breaks(s[1..])
  }

  /** The HTML of one message. */
  function Html(text: string): string {
    if Formatted(text) then Breaks(Bullets(Bold(text))) else text
  }

  /** `messages.map(...)`: the bubbles of the chat column. */
  function Bubbles(messages: seq<Message>): (bs: seq<Bubble>)
    ensures |bs| == |messages|
    ensures forall i :: 0 <= i < |messages| ==>
      && bs[i].sender == messages[i].sender
      && bs[i].isFormatted == Formatted(messages[i].text)
      && (!bs[i].isFormatted ==> bs[i].html == messages[i].text)
      && (bs[i].isFormatted ==> bs[i].html == Html(messages[i].text))
  {
    if messages == [] then []
    else
      var m := messages[0];
      [Bubble(m.sender, Html(m.text), Formatted(m.text))] + Bubbles(messages[1..])
  }

  // ---------------------------------------------------------------- properties

  /** No two adjacent characters form `- `. */
  predicate NoDashSpace(s: string) {
    forall i :: 0 <= i < |s| - 1 ==> !(s[i] == '-' && s[i + 1] == ' ')
  }

  lemma NoDashSpaceNotContained(s: string)
    requires NoDashSpace(s)
    ensures !Contains(s, "- ")
  {
    forall i | 0 <= i <= |s| - 2 ensures !OccursAt(s, "- ", i) {
      assert !(s[i] == '-' && s[i + 1] == ' ');
    }
  }

  /** After the bullet rewrite no `- ` is left. */
  lemma {:induction false} BulletsNoDashSpace(s: string)
    ensures NoDashSpace(Bullets(s))
    ensures Bullets(s) != [] ==> Bullets(s)[0] == s[0] || (s[0] == '-' && Bullets(s)[0] == '\U{2022}')
    decreases |s|
  {
    if s != [] {
      if |s| >= 2 && s[0] == '-' && s[1] == ' ' {
        BulletsNoDashSpace(s[2..]);
      } else {
        BulletsNoDashSpace(s[1..]);
        var r := Bullets(s);
        var t := Bullets(s[1..]);
        assert r == [s[0]] + t;
        if s[0] == '-' && t != [] {
          assert t[0] != ' ';
        }
      }
    }
  }

  /** The line-break rewrite keeps `- ` out. */
  lemma {:induction false} BreaksKeepNoDashSpace(s: string)
    requires NoDashSpace(s)
    ensures NoDashSpace(Breaks(s))
    ensures Breaks(s) != [] ==> Breaks(s)[0] == (if s[0] == '\n' then '<' else s[0])
    decreases |s|
  {
    if s != [] {
      BreaksKeepNoDashSpace(s[1..]);
      var t := Breaks(s[1..]);
      if s[0] == '-' && t != [] {
        assert s[1] != ' ';
        assert t[0] != ' ';
      }
      assert Breaks(s) == (if s[0] == '\n' then "<br/>" else [s[0]]) + t;
    }
  }

  /** After the line-break rewrite no line feed is left, and each one became five
      characters. */
  lemma {:induction false} BreaksNoNewline(s: string)
    ensures '\n' !in Breaks(s)
    ensures |Breaks(s)| == |s| + 4 * multiset(s)['\n']
  {
    if s != [] {
      BreaksNoNewline(s[1..]);
      assert s == [s[0]] + s[1..];
    }
  }

  /** Text without a line feed is left as it is by the line-break rewrite. */
  lemma {:induction false} BreaksIdentity(s: string)
    requires '\n' !in s
    ensures Breaks(s) == s
  {
    if s != [] {
      BreaksIdentity(s[1..]);
    }
  }

  /** Text without `- ` is left as it is by the bullet rewrite. */
  lemma {:induction false} BulletsIdentity(s: string)
    requires NoDashSpace(s)
    ensures Bullets(s) == s
  {
    if s != [] {
      BulletsIdentity(s[1..]);
    }
  }

  /** Text without `**` is left as it is by the bold rewrite. */
  lemma {:induction false} BoldIdentity(s: string)
    requires forall i :: 0 <= i < |s| - 1 ==> !(s[i] == '*' && s[i + 1] == '*')
    ensures Bold(s) == s
  {
    if s != [] {
      BoldIdentity(s[1..]);
    }
  }

  /** The span between `**` and `**` is the shortest one: it holds no `**` and does not
      end in `*`. */
  predicate ShortestSpan(x: string) {
    forall i :: 0 <= i < |x| && x[i] == '*' ==> i + 1 < |x| && x[i + 1] != '*'
  }

  lemma {:induction false} CloseAfterSpan(x: string, rest: string)
    requires NoLineTerminator(x) && ShortestSpan(x)
    ensures Close(x + "**" + rest) == Some(|x|)
  {
    if x == [] {
      assert x + "**" + rest == "**" + rest;
    } else {
      assert (x + "**" + rest)[1..] == x[1..] + "**" + rest;
      CloseAfterSpan(x[1..], rest);
    }
  }

  /** A leading `**x**` whose span is shortest and on one line becomes `<b>x</b>`, and the
      rewrite carries on after it. */
  lemma BoldSpan(x: string, rest: string)
    requires NoLineTerminator(x) && ShortestSpan(x)
    ensures Bold("**" + x + "**" + rest) == "<b>" + x + "</b>" + Bold(rest)
  {
    var s := "**" + x + "**" + rest;
    assert s[2..] == x + "**" + rest;
    CloseAfterSpan(x, rest);
    assert s[2..2 + |x|] == x;
    assert s[4 + |x|..] == rest;
  }

  /** A formatted message's HTML holds neither a line feed nor `- `. */
  lemma FormattedHtml(text: string)
    requires Formatted(text)
    ensures '\n' !in Html(text)
    ensures !Contains(Html(text), "- ")
  {
    var b := Bullets(Bold(text));
    BulletsNoDashSpace(Bold(text));
    BreaksKeepNoDashSpace(b);
    BreaksNoNewline(b);
    NoDashSpaceNotContained(Breaks(b));
  }

  /** Text without `*` is copied by the bold rewrite, which carries on after it. */
  lemma {:induction false} BoldAfterPlain(p: string, rest: string)
    requires forall i :: 0 <= i < |p| ==> p[i] != '*'
    ensures Bold(p + rest) == p + Bold(rest)
  {
    if p != [] {
      assert (p + rest)[1..] == p[1..] + rest;
      BoldAfterPlain(p[1..], rest);
    } else {
      assert p + rest == rest;
    }
  }

  /** A bold span after a prefix without `*`: the prefix is kept and the span becomes
      `<b>x</b>`. */
  lemma BoldSpanAfter(p: string, x: string, rest: string)
    requires forall i :: 0 <= i < |p| ==> p[i] != '*'
    requires NoLineTerminator(x) && ShortestSpan(x)
    ensures Bold(p + "**" + x + "**" + rest) == p + "<b>" + x + "</b>" + Bold(rest)
  {
    assert p + "**" + x + "**" + rest == p + ("**" + x + "**" + rest);
    BoldAfterPlain(p, "**" + x + "**" + rest);
    BoldSpan(x, rest);
  }

  /** No `*` before the end of the line means no closing `**`. */
  lemma {:induction false} CloseMissing(t: string, n: nat)
    requires n <= |t| && (n == |t| || IsLineTerminator(t[n]))
    requires forall i :: 0 <= i < n ==> t[i] != '*'
    ensures Close(t).None?
  {
    if n > 0 && !IsLineTerminator(t[0]) {
      CloseMissing(t[1..], n - 1);
    }
  }

  /** The first `n` characters of `t`, none of them `*`, are copied by the bold rewrite. */
  lemma {:induction false} BoldKeepsPlain(t: string, n: nat)
    requires n <= |t|
    requires forall i :: 0 <= i < n ==> t[i] != '*'
    ensures Bold(t) == t[..n] + Bold(t[n..])
  {
    if n > 0 {
      assert Bold(t) == [t[0]] + Bold(t[1..]);
      BoldKeepsPlain(t[1..], n - 1);
      assert t[1..][n - 1..] == t[n..];
      PrefixOfOne(t, n, Bold(t[n..]));
    }
  }

  lemma PrefixOfOne(t: string, n: nat, rest: string)
    requires 1 <= n <= |t|
    ensures [t[0]] + (t[1..][..n - 1] + rest) == t[..n] + rest
  {
    assert t[..n] == [t[0]] + t[1..][..n - 1];
  }

  /** With no close from `t[0]`, none is found from any later start on the same line. */
  lemma {:induction false} CloseSuffix(t: string, m: nat)
    requires m <= |t| && Close(t).None? && NoLineTerminator(t[..m])
    ensures Close(t[m..]).None?
  {
    if m > 0 {
      assert !IsLineTerminator(t[0]);
      assert t[1..][..m - 1] == t[1..m];
      CloseSuffix(t[1..], m - 1);
      assert t[1..][m - 1..] == t[m..];
    }
  }

  /** The first `n` characters of `t` are copied when no `**` among them has a close. */
  lemma {:induction false} BoldKeepsLine(t: string, n: nat)
    requires n <= |t|
    requires forall j :: 0 <= j < n && j + 2 <= |t| && t[j] == '*' && t[j + 1] == '*' ==>
      Close(t[j + 2..]).None?
    ensures Bold(t) == t[..n] + Bold(t[n..])
  {
    if n > 0 {
      assert Bold(t) == [t[0]] + Bold(t[1..]);
      forall j | 0 <= j < n - 1 && j + 2 <= |t[1..]| && t[1..][j] == '*' && t[1..][j + 1] == '*'
        ensures Close(t[1..][j + 2..]).None?
      {
        assert t[1..][j + 2..] == t[j + 3..];
      }
      BoldKeepsLine(t[1..], n - 1);
      assert t[1..][n - 1..] == t[n..];
      PrefixOfOne(t, n, Bold(t[n..]));
    }
  }

  /** A `**` that is not closed on its line is kept as written, and so is the rest of that
      line, `n` characters up to the end of the text or the next line terminator. */
  lemma BoldUnclosed(t: string, n: nat)
    requires 2 + n <= |t| && t[0] == '*' && t[1] == '*' && Close(t[2..]).None?
    requires NoLineTerminator(t[2..2 + n])
    requires 2 + n == |t| || IsLineTerminator(t[2 + n])
    ensures Bold(t) == t[..2 + n] + Bold(t[2 + n..])
  {
    var u := t[1..];
    assert Bold(t) == [t[0]] + Bold(u);
    forall j | 0 <= j < n + 1 && j + 2 <= |u| && u[j] == '*' && u[j + 1] == '*'
      ensures Close(u[j + 2..]).None?
    {
      UnclosedLater(t, n, j);
    }
    BoldKeepsLine(u, n + 1);
    assert u[n + 1..] == t[2 + n..];
    PrefixOfOne(t, n + 2, Bold(t[2 + n..]));
  }

  /** Inside the rest of the line of an unclosed `**`, a later `**` is not closed either. */
  lemma UnclosedLater(t: string, n: nat, j: nat)
    requires 2 + n <= |t| && Close(t[2..]).None?
    requires NoLineTerminator(t[2..2 + n])
    requires 2 + n == |t| || IsLineTerminator(t[2 + n])
    requires j < n + 1 && j + 3 <= |t| && t[j + 2] == '*'
    ensures Close(t[j + 3..]).None?
  {
    var line := t[2..2 + n];
    assert j + 1 <= n;
    assert t[2..][..j + 1] == line[..j + 1];
    var pre := line[..j + 1];
    forall i | 0 <= i < |pre| ensures !IsLineTerminator(pre[i]) {
      assert pre[i] == line[i];
    }
    CloseSuffix(t[2..], j + 1);
    assert t[2..][j + 1..] == t[j + 3..];
  }

  /** The bubbles of formatted messages hold neither a line feed nor `- `. */
  lemma FormattedBubbles(messages: seq<Message>)
    ensures forall i :: 0 <= i < |messages| && Bubbles(messages)[i].isFormatted ==>
      '\n' !in Bubbles(messages)[i].html && !Contains(Bubbles(messages)[i].html, "- ")
  {
    var bs := Bubbles(messages);
    forall i | 0 <= i < |messages| && bs[i].isFormatted
      ensures '\n' !in bs[i].html && !Contains(bs[i].html, "- ")
    {
      FormattedHtml(messages[i].text);
    }
  }
}
