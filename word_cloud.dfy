/** The word cloud of the admin dashboard (`topWords`): comments are lower-cased,
    stripped to `[a-z0-9]` and whitespace, split on whitespace runs and filtered; the
    surviving words are counted in a dictionary; the dictionary's entries, in JavaScript
    property order, are stably sorted by descending count, cut to the first 40, and each
    is given a font size. */
module WordCloud {
  import opened Wrappers
  import opened Text
  import opened StableSort
  import AdminAggregates

  type SurveyRow = AdminAggregates.SurveyRow

  /** The stop set of the source, verbatim. */
  const StopWords: set<string> := {
    "the", "and", "for", "with", "from", "that", "this", "your", "have", "was", "were",
    "about", "into", "over", "under", "very", "much", "more", "less", "than", "then",
    "also", "just", "been", "they", "them", "our", "are", "not", "but", "too"
  }

  /** The words kept at most. */
  const Limit: nat := 40

  // ---------------------------------------------------------------- tokenizing

  predicate IsWordChar(c: char) {
    ('a' <= c <= 'z') || IsDigit(c)
  }

  /** `toLowerCase` on the ASCII letters. */
  function LowerChar(c: char): char {
    if 'A' <= c <= 'Z' then ((c as int) + 32) as char else c
  }

  function Lower(s: string): (r: string)
    ensures |r| == |s| && forall i :: 0 <= i < |s| ==> r[i] == LowerChar(s[i])
  {
    seq(|s|, i requires 0 <= i < |s| => LowerChar(s[i]))
  }

  /** `.replace(/[^a-z0-9\s]/g, ' ')`. */
  function Clean(s: string): (r: string)
    ensures |r| == |s|
    ensures forall i :: 0 <= i < |s| ==> IsWordChar(r[i]) || IsJsSpace(r[i])
    ensures forall i :: 0 <= i < |s| ==> (IsWordChar(s[i]) || IsJsSpace(s[i]) ==> r[i] == s[i])
    ensures forall i :: 0 <= i < |s| ==> (!(IsWordChar(s[i]) || IsJsSpace(s[i])) ==> r[i] == ' ')
  {
    seq(|s|, i requires 0 <= i < |s| => if IsWordChar(s[i]) || IsJsSpace(s[i]) then s[i] else ' ')
  }

  /** Index of the first whitespace character, or `|s|` when there is none. */
  function FirstSpace(s: string): (i: nat)
    ensures i <= |s|
    ensures i < |s| ==> IsJsSpace(s[i])
    ensures forall k :: 0 <= k < i ==> !IsJsSpace(s[k])
  {
    if s == [] || IsJsSpace(s[0]) then 0 else 1 + FirstSpace(s[1..])
  }

  /** Index just past the whitespace run starting at `i`. */
  function SpaceRunEnd(s: string, i: nat): (j: nat)
    requires i <= |s|
    ensures i <= j <= |s|
    ensures j < |s| ==> !IsJsSpace(s[j])
    ensures forall k :: i <= k < j ==> IsJsSpace(s[k])
    decreases |s| - i
  {
    if i < |s| && IsJsSpace(s[i]) then SpaceRunEnd(s, i + 1) else i
  }

  /** `s.split(/\s+/)`: the pieces between whitespace runs, including the empty piece
      before a leading run and after a trailing one. */
  function SplitOnSpace(s: string): (parts: seq<string>)
    ensures |parts| >= 1
    ensures forall p, k :: p in parts && 0 <= k < |p| ==> !IsJsSpace(p[k]) && p[k] in s
    decreases |s|
  {
    var i := FirstSpace(s);
    if i == |s| then [s]
    else
      var j := SpaceRunEnd(s, i + 1);
      var rest := SplitOnSpace(s[j..]);
      assert forall p, k :: p in rest && 0 <= k < |p| ==> p[k] in s by {
        forall p, k | p in rest && 0 <= k < |p| ensures p[k] in s {
          var n :| 0 <= n < |s[j..]| && s[j..][n] == p[k];
          assert s[j + n] == p[k];
        }
      }
      [s[..i]] + rest
  }

  /** The text put back together from its pieces and the separating runs. */
  function Interleave(parts: seq<string>, runs: seq<string>): string
    requires |parts| == |runs| + 1
  {
    if runs == [] then parts[0] else parts[0] + runs[0] + Interleave(parts[1..], runs[1..])
  }

  /** The pieces of a split, joined with non-empty whitespace runs, give back the text;
      with the pieces themselves free of whitespace this fixes the split completely. */
  lemma {:induction false} SplitOnSpaceRebuilds(s: string) returns (runs: seq<string>)
    ensures |runs| + 1 == |SplitOnSpace(s)|
    ensures forall r :: r in runs ==> r != [] && AllSpace(r)
    ensures Interleave(SplitOnSpace(s), runs) == s
    decreases |s|
  {
    var i := FirstSpace(s);
    if i == |s| {
      runs := [];
    } else {
      var j := SpaceRunEnd(s, i + 1);
      var rest := SplitOnSpaceRebuilds(s[j..]);
      var run := s[i..j];
      SpaceRun(s, i, j);
      runs := [run] + rest;
      assert forall r :: r in runs ==> r == run || r in rest;
      var tail := SplitOnSpace(s[j..]);
      assert SplitOnSpace(s) == [s[..i]] + tail;
      RebuildStep(s, i, j, tail, rest);
    }
  }

  /** Only the first and the last piece of a split can be empty: two whitespace runs are
      never adjacent, since each run is maximal. */
  lemma {:induction false} SplitOnSpaceInnerPieces(s: string)
    ensures forall k :: 0 < k < |SplitOnSpace(s)| - 1 ==> SplitOnSpace(s)[k] != []
    decreases |s|
  {
    var i := FirstSpace(s);
    if i < |s| {
      var j := SpaceRunEnd(s, i + 1);
      var tail := SplitOnSpace(s[j..]);
      SplitOnSpaceInnerPieces(s[j..]);
      FirstPiece(s[j..]);
      assert SplitOnSpace(s) == [s[..i]] + tail;
      assert forall k :: 0 < k < |SplitOnSpace(s)| ==> SplitOnSpace(s)[k] == tail[k - 1];
    }
  }

  /** The first piece of a split is non-empty when the text starts with a non-space
      character. */
  lemma FirstPiece(s: string)
    ensures s != [] && !IsJsSpace(s[0]) ==> SplitOnSpace(s)[0] != []
  {
  }

  lemma SpaceRun(s: string, i: nat, j: nat)
    requires i < |s| && IsJsSpace(s[i]) && j == SpaceRunEnd(s, i + 1)
    ensures s[i..j] != [] && AllSpace(s[i..j])
  {
    var run := s[i..j];
    forall k | 0 <= k < |run| ensures IsJsSpace(run[k]) {
      assert run[k] == s[i + k];
    }
  }

  lemma RebuildStep(s: string, i: nat, j: nat, tail: seq<string>, rest: seq<string>)
    requires i < j <= |s| && |tail| == |rest| + 1 && Interleave(tail, rest) == s[j..]
    ensures Interleave([s[..i]] + tail, [s[i..j]] + rest) == s
  {
    var parts, runs := [s[..i]] + tail, [s[i..j]] + rest;
    assert parts[1..] == tail && runs[1..] == rest;
    assert s == s[..i] + s[i..j] + s[j..];
  }

  /** The words of one comment that the filter keeps, in order. */
  function KeepWords(parts: seq<string>): (ws: seq<string>)
    ensures forall w :: w in ws ==> w in parts && |w| > 2 && w !in StopWords
  {
    if parts == [] then []
    else
      var init, w := parts[..|parts| - 1], parts[|parts| - 1];
      assert parts == init + [w];
      KeepWords(init) + (if |w| > 2 && w !in StopWords then [w] else [])
  }

  /** The counted words of one comment text. */
  function Words(comment: string): seq<string> {
    KeepWords(SplitOnSpace(Clean(Lower(comment))))
  }

  /** A word the cloud may show: longer than two characters, only `[a-z0-9]`, not a stop word. */
  predicate ValidWord(w: string) {
    |w| > 2 && (forall k :: 0 <= k < |w| ==> IsWordChar(w[k])) && w !in StopWords
  }

  lemma WordsValid(comment: string)
    ensures forall w :: w in Words(comment) ==> ValidWord(w)
  {
    var cleaned := Clean(Lower(comment));
    forall w | w in Words(comment) ensures ValidWord(w) {
      forall k | 0 <= k < |w| ensures IsWordChar(w[k]) {
        assert w[k] in cleaned && !IsJsSpace(w[k]);
      }
    }
  }

  /** `if (!r.comment) return`: a null and an empty comment both contribute nothing. */
  function RowWords(r: SurveyRow): seq<string> {
    if r.comment.None? || r.comment.value == "" then [] else Words(r.comment.value)
  }

  /** Every counted word of the snapshot, in the order the loop meets them. */
  function AllWords(rows: seq<SurveyRow>): seq<string> {
    if rows == [] then [] else AllWords(rows[..|rows| - 1]) + RowWords(rows[|rows| - 1])
  }

  lemma {:induction false} AllWordsValid(rows: seq<SurveyRow>)
    ensures forall w :: w in AllWords(rows) ==> ValidWord(w)
  {
    if rows != [] {
      AllWordsValid(rows[..|rows| - 1]);
      var r := rows[|rows| - 1];
      if r.comment.Some? && r.comment.value != "" {
        WordsValid(r.comment.value);
      }
    }
  }

  // ---------------------------------------------------------------- counting

  /** How often `w` occurs in `ws`. */
  function Occurrences(ws: seq<string>, w: string): nat {
    if ws == [] then 0
    else Occurrences(ws[..|ws| - 1], w) + (if ws[|ws| - 1] == w then 1 else 0)
  }

  /** The dictionary after counting `ws` with `freq[w] = (freq[w] || 0) + 1`. */
  function Freq(ws: seq<string>): map<string, nat> {
    if ws == [] then map[]
    else
      var f := Freq(ws[..|ws| - 1]);
      var w := ws[|ws| - 1];
      f[w := (if w in f then f[w] else 0) + 1]
  }

  /** The dictionary's keys in the order they were first assigned. */
  function FirstOccurrences(ws: seq<string>): seq<string> {
    if ws == [] then []
    else
      var d := FirstOccurrences(ws[..|ws| - 1]);
      var w := ws[|ws| - 1];
      if w in d then d else d + [w]
  }

  predicate Distinct<T(==)>(xs: seq<T>) {
    forall i, j :: 0 <= i < j < |xs| ==> xs[i] != xs[j]
  }

  /** The dictionary holds exactly the counted words, each with its number of occurrences. */
  lemma {:induction false} FreqCounts(ws: seq<string>)
    ensures forall w :: w in Freq(ws) <==> w in ws
    ensures forall w :: w in Freq(ws) ==> Freq(ws)[w] == Occurrences(ws, w) >= 1
    ensures forall w :: w !in ws ==> Occurrences(ws, w) == 0
  {
    if ws != [] {
      var init := ws[..|ws| - 1];
      FreqCounts(init);
      assert ws == init + [ws[|ws| - 1]];
    }
  }

  /** The insertion order lists every counted word exactly once. */
  lemma {:induction false} FirstOccurrencesDistinct(ws: seq<string>)
    ensures forall w :: w in FirstOccurrences(ws) <==> w in ws
    ensures Distinct(FirstOccurrences(ws))
  {
    if ws != [] {
      var init := ws[..|ws| - 1];
      FirstOccurrencesDistinct(init);
      assert ws == init + [ws[|ws| - 1]];
    }
  }

  /** Every key in insertion order is a key of the dictionary, with a positive count. */
  lemma KeysCounted(ws: seq<string>)
    ensures forall w :: w in FirstOccurrences(ws) ==> w in Freq(ws) && Freq(ws)[w] >= 1
  {
    FreqCounts(ws);
    FirstOccurrencesDistinct(ws);
  }

  /** One step of the counting loop: the word `w` is met after the words `ws`. */
  lemma CountStep(ws: seq<string>, w: string)
    ensures Freq(ws + [w]) == Freq(ws)[w := (if w in Freq(ws) then Freq(ws)[w] else 0) + 1]
    ensures FirstOccurrences(ws + [w])
         == if w in Freq(ws) then FirstOccurrences(ws) else FirstOccurrences(ws) + [w]
  {
    assert (ws + [w])[..|ws|] == ws;
    FreqCounts(ws);
    FirstOccurrencesDistinct(ws);
  }

  // ---------------------------------------------------------------- property order

  /** An array index (a canonical decimal below 2^32 - 1): `Object.entries` lists such
      keys first, in ascending numeric order, before all other keys. */
  predicate IsArrayIndex(w: string) {
    && |w| >= 1
    && (forall k :: 0 <= k < |w| ==> IsDigit(w[k]))
    && (|w| == 1 || w[0] != '0')
    && DigitsValue(w) < 0xFFFF_FFFF
  }

  /** The sort key that puts array indices in ascending numeric order. */
  function NegIndexValue(w: string): int {
    if forall k :: 0 <= k < |w| ==> IsDigit(w[k]) then 0 - (DigitsValue(w) as int) else 0
  }

  function IndexKeys(keys: seq<string>): (r: seq<string>)
    ensures forall w :: w in r ==> IsArrayIndex(w)
  {
    if keys == [] then []
    else (if IsArrayIndex(keys[0]) then [keys[0]] else []) + IndexKeys(keys[1..])
  }

  function OtherKeys(keys: seq<string>): (r: seq<string>)
    ensures forall w :: w in r ==> !IsArrayIndex(w)
  {
    if keys == [] then []
    else (if IsArrayIndex(keys[0]) then [] else [keys[0]]) + OtherKeys(keys[1..])
  }

  /** The key order of `Object.entries(freq)` for keys inserted in the order `keys`. */
  function PropertyOrder(keys: seq<string>): seq<string> {
    SortByKeyDesc(IndexKeys(keys), NegIndexValue) + OtherKeys(keys)
  }

  lemma {:induction false} IndexOtherSplit(keys: seq<string>)
    ensures multiset(IndexKeys(keys)) + multiset(OtherKeys(keys)) == multiset(keys)
  {
    if keys != [] {
      IndexOtherSplit(keys[1..]);
      assert keys == [keys[0]] + keys[1..];
    }
  }

  /** Property order rearranges the keys: array indices first, in ascending value. */
  lemma PropertyOrderPermutation(keys: seq<string>)
    ensures multiset(PropertyOrder(keys)) == multiset(keys)
    ensures forall i, j :: 0 <= i < j < |PropertyOrder(keys)| && IsArrayIndex(PropertyOrder(keys)[j]) ==>
      (IsArrayIndex(PropertyOrder(keys)[i]) && DigitsValue(PropertyOrder(keys)[i]) <= DigitsValue(PropertyOrder(keys)[j]))
  {
    var idx := IndexKeys(keys);
    var sorted := SortByKeyDesc(idx, NegIndexValue);
    var others := OtherKeys(keys);
    SortPermutation(idx, NegIndexValue);
    SortSorted(idx, NegIndexValue);
    IndexOtherSplit(keys);
    var order := PropertyOrder(keys);
    SortedIndexKeys(keys);
    forall i, j | 0 <= i < j < |order| && IsArrayIndex(order[j])
      ensures IsArrayIndex(order[i]) && DigitsValue(order[i]) <= DigitsValue(order[j])
    {
      assert j < |sorted|;
      assert order[i] == sorted[i] && order[j] == sorted[j];
    }
  }

  lemma SortedIndexKeys(keys: seq<string>)
    ensures forall w :: w in SortByKeyDesc(IndexKeys(keys), NegIndexValue) ==> IsArrayIndex(w)
  {
    var idx := IndexKeys(keys);
    SortPermutation(idx, NegIndexValue);
    forall w | w in SortByKeyDesc(idx, NegIndexValue) ensures IsArrayIndex(w) {
      assert w in multiset(SortByKeyDesc(idx, NegIndexValue));
    }
  }

  /** After the array indices, property order lists exactly the other keys. */
  lemma PropertyOrderOthers(keys: seq<string>)
    ensures |IndexKeys(keys)| <= |PropertyOrder(keys)|
    ensures PropertyOrder(keys)[|IndexKeys(keys)|..] == OtherKeys(keys)
  {
    var idx := IndexKeys(keys);
    var sorted := SortByKeyDesc(idx, NegIndexValue);
    SortPermutation(idx, NegIndexValue);
    assert |sorted| == |multiset(sorted)| == |multiset(idx)| == |idx|;
    assert (sorted + OtherKeys(keys))[|sorted|..] == OtherKeys(keys);
  }

  /** The other keys are exactly the keys that are not array indices. */
  lemma {:induction false} OtherKeysMembers(keys: seq<string>)
    ensures forall w :: w in OtherKeys(keys) <==> w in keys && !IsArrayIndex(w)
  {
    if keys != [] {
      OtherKeysMembers(keys[1..]);
      assert keys == [keys[0]] + keys[1..];
    }
  }

  /** `pos` lists, in increasing order, positions in `keys` holding the entries of
      `others`, and covers every key that is not an array index. */
  predicate InsertionPositions(keys: seq<string>, others: seq<string>, pos: seq<nat>) {
    && |pos| == |others|
    && (forall i :: 0 <= i < |pos| ==> pos[i] < |keys| && keys[pos[i]] == others[i])
    && (forall i, j :: 0 <= i < j < |pos| ==> pos[i] < pos[j])
    && (forall p :: 0 <= p < |keys| && !IsArrayIndex(keys[p]) ==> p in pos)
  }

  /** The other keys keep their insertion order: each entry of `OtherKeys(keys)` sits at
      an increasing position of `keys`, and no non-index key is skipped. */
  lemma {:induction false} OtherKeysInOrder(keys: seq<string>) returns (pos: seq<nat>)
    ensures forall w :: w in OtherKeys(keys) <==> w in keys && !IsArrayIndex(w)
    ensures InsertionPositions(keys, OtherKeys(keys), pos)
  {
    OtherKeysMembers(keys);
    if keys == [] {
      pos := [];
    } else {
      var rest := OtherKeysInOrder(keys[1..]);
      pos := OtherKeysStep(keys, rest);
    }
  }

  /** One key in front: shift the positions of the rest by one and add position 0 when
      the first key is not an array index. */
  lemma OtherKeysStep(keys: seq<string>, rest: seq<nat>) returns (pos: seq<nat>)
    requires keys != []
    requires InsertionPositions(keys[1..], OtherKeys(keys[1..]), rest)
    ensures InsertionPositions(keys, OtherKeys(keys), pos)
  {
    var shifted := Shifted(keys, OtherKeys(keys[1..]), rest);
    if IsArrayIndex(keys[0]) {
      pos := shifted;
      assert OtherKeys(keys) == OtherKeys(keys[1..]);
      SkipPositions(keys, OtherKeys(keys[1..]), shifted);
    } else {
      pos := [0] + shifted;
      assert OtherKeys(keys) == [keys[0]] + OtherKeys(keys[1..]);
      FrontPositions(keys, OtherKeys(keys[1..]), shifted);
    }
  }

  /** The first key is an array index: the shifted positions are all there is. */
  lemma SkipPositions(keys: seq<string>, tail: seq<string>, shifted: seq<nat>)
    requires keys != [] && IsArrayIndex(keys[0])
    requires |shifted| == |tail|
    requires forall i :: 0 <= i < |shifted| ==> 0 < shifted[i] < |keys| && keys[shifted[i]] == tail[i]
    requires forall i, j :: 0 <= i < j < |shifted| ==> shifted[i] < shifted[j]
    requires forall p :: 0 < p < |keys| && !IsArrayIndex(keys[p]) ==> p in shifted
    ensures InsertionPositions(keys, tail, shifted)
  {
  }

  /** The first key is not an array index: position 0 goes in front. */
  lemma FrontPositions(keys: seq<string>, tail: seq<string>, shifted: seq<nat>)
    requires keys != [] && !IsArrayIndex(keys[0])
    requires |shifted| == |tail|
    requires forall i :: 0 <= i < |shifted| ==> 0 < shifted[i] < |keys| && keys[shifted[i]] == tail[i]
    requires forall i, j :: 0 <= i < j < |shifted| ==> shifted[i] < shifted[j]
    requires forall p :: 0 < p < |keys| && !IsArrayIndex(keys[p]) ==> p in shifted
    ensures InsertionPositions(keys, [keys[0]] + tail, [0] + shifted)
  {
    var pos := [0] + shifted;
    var others := [keys[0]] + tail;
    forall i | 0 <= i < |pos| ensures pos[i] < |keys| && keys[pos[i]] == others[i] {
      if i > 0 {
        assert pos[i] == shifted[i - 1] && others[i] == tail[i - 1];
      }
    }
    forall i, j | 0 <= i < j < |pos| ensures pos[i] < pos[j] {
      assert pos[j] == shifted[j - 1];
      if i > 0 {
        assert pos[i] == shifted[i - 1];
      }
    }
    forall p | 0 <= p < |keys| && !IsArrayIndex(keys[p]) ensures p in pos {
      if p > 0 {
        var i :| 0 <= i < |shifted| && shifted[i] == p;
        assert pos[i + 1] == p;
      }
    }
  }

  /** The positions of the rest, moved one place right, are positions in `keys`. */
  lemma Shifted(keys: seq<string>, tail: seq<string>, rest: seq<nat>) returns (shifted: seq<nat>)
    requires keys != []
    requires InsertionPositions(keys[1..], tail, rest)
    ensures |shifted| == |tail|
    ensures forall i :: 0 <= i < |shifted| ==> 0 < shifted[i] < |keys| && keys[shifted[i]] == tail[i]
    ensures forall i, j :: 0 <= i < j < |shifted| ==> shifted[i] < shifted[j]
    ensures forall p :: 0 < p < |keys| && !IsArrayIndex(keys[p]) ==> p in shifted
  {
    shifted := seq(|rest|, i requires 0 <= i < |rest| => rest[i] + 1);
    var later := keys[1..];
    forall i | 0 <= i < |shifted| ensures 0 < shifted[i] < |keys| && keys[shifted[i]] == tail[i] {
      assert later[rest[i]] == keys[shifted[i]];
    }
    forall p | 0 < p < |keys| && !IsArrayIndex(keys[p]) ensures p in shifted {
      assert later[p - 1] == keys[p];
      var i :| 0 <= i < |rest| && rest[i] == p - 1;
      assert shifted[i] == p;
    }
  }

  lemma PropertyOrderSubset(keys: seq<string>)
    ensures forall w :: w in PropertyOrder(keys) ==> w in keys
  {
    PropertyOrderPermutation(keys);
    forall w | w in PropertyOrder(keys) ensures w in keys {
      assert w in multiset(PropertyOrder(keys));
    }
  }

  lemma PropertyOrderKeys(keys: seq<string>)
    requires Distinct(keys)
    ensures forall w :: w in PropertyOrder(keys) <==> w in keys
    ensures Distinct(PropertyOrder(keys))
  {
    PropertyOrderPermutation(keys);
    forall w ensures w in PropertyOrder(keys) <==> w in keys {
      assert w in PropertyOrder(keys) <==> w in multiset(PropertyOrder(keys));
    }
    DistinctPermutation(keys, PropertyOrder(keys));
  }

  /** A rearrangement of a sequence without repeats has no repeats. */
  lemma DistinctPermutation<T>(a: seq<T>, b: seq<T>)
    requires multiset(a) == multiset(b) && Distinct(a)
    ensures Distinct(b)
  {
    forall x ensures multiset(b)[x] <= 1 {
      CountAtMostOne(a, x);
    }
    forall i, j | 0 <= i < j < |b| ensures b[i] != b[j] {
      TwoPositions(b, i, j);
    }
  }

  lemma TwoPositions<T>(b: seq<T>, i: int, j: int)
    requires 0 <= i < j < |b|
    ensures b[i] == b[j] ==> multiset(b)[b[i]] >= 2
  {
    assert b == b[..i] + [b[i]] + b[i + 1..j] + [b[j]] + b[j + 1..];
  }

  lemma {:induction false} CountAtMostOne<T>(a: seq<T>, x: T)
    requires Distinct(a)
    ensures multiset(a)[x] <= 1
  {
    if a != [] {
      CountAtMostOne(a[1..], x);
      assert a == [a[0]] + a[1..];
      if a[0] == x {
        assert x !in a[1..];
      }
    }
  }

  // ---------------------------------------------------------------- ranking

  /** One `[word, count]` pair of `Object.entries(freq)`. */
  datatype Entry = Entry(word: string, count: nat)

  function EntryCount(e: Entry): int {
    e.count
  }

  /** `Object.entries(freq)` listed in the key order `order`. */
  function Entries(freq: map<string, nat>, order: seq<string>): (es: seq<Entry>)
    requires forall w :: w in order ==> w in freq
    ensures |es| == |order|
    ensures forall i :: 0 <= i < |order| ==> es[i] == Entry(order[i], freq[order[i]])
  {
    seq(|order|, i requires 0 <= i < |order| => Entry(order[i], freq[order[i]]))
  }

  /** `Object.entries(freq).sort((a, b) => b[1] - a[1])`, for a dictionary whose keys
      were inserted in the order `keys`. */
  function RankEntries(freq: map<string, nat>, keys: seq<string>): (r: seq<Entry>)
    requires forall w :: w in keys ==> w in freq && freq[w] >= 1
    ensures forall i :: 0 <= i < |r| ==> r[i].count >= 1
  {
    PropertyOrderSubset(keys);
    var es := Entries(freq, PropertyOrder(keys));
    assert forall e :: e in es ==> e.count >= 1;
    SortKeepsMembers(es, EntryCount);
    SortByKeyDesc(es, EntryCount)
  }

  /** The entries listed by `Object.entries` for the dictionary built from the words `ws`. */
  function EntriesOf(ws: seq<string>): (es: seq<Entry>)
    ensures forall e :: e in es <==> e.word in ws && e.count == Occurrences(ws, e.word)
    ensures Distinct(es)
  {
    FreqCounts(ws);
    FirstOccurrencesDistinct(ws);
    PropertyOrderKeys(FirstOccurrences(ws));
    var order := PropertyOrder(FirstOccurrences(ws));
    var es := Entries(Freq(ws), order);
    assert forall e :: e in es <==> e.word in ws && e.count == Occurrences(ws, e.word) by {
      forall e ensures e in es <==> e.word in ws && e.count == Occurrences(ws, e.word) {
        if e.word in ws && e.count == Occurrences(ws, e.word) {
          var i :| 0 <= i < |order| && order[i] == e.word;
          assert es[i] == e;
        }
      }
    }
    es
  }

  /** The ranking of the dictionary built from the words `ws`. */
  function Ranked(ws: seq<string>): seq<Entry> {
    KeysCounted(ws);
    RankEntries(Freq(ws), FirstOccurrences(ws))
  }

  /** The ranking lists every counted word once, with its full count, by non-increasing
      count; among equal counts it keeps the order of `Object.entries`. */
  lemma RankedEntries(ws: seq<string>)
    ensures forall e :: e in Ranked(ws) <==> e.word in ws && e.count == Occurrences(ws, e.word)
    ensures forall i, j :: 0 <= i < j < |Ranked(ws)| ==> Ranked(ws)[i].word != Ranked(ws)[j].word
    ensures SortedDesc(Ranked(ws), EntryCount)
    ensures forall c :: WithKey(Ranked(ws), EntryCount, c) == WithKey(EntriesOf(ws), EntryCount, c)
  {
    var es, r := EntriesOf(ws), Ranked(ws);
    SortPermutation(es, EntryCount);
    SortSorted(es, EntryCount);
    forall c ensures WithKey(r, EntryCount, c) == WithKey(es, EntryCount, c) {
      SortStable(es, EntryCount, c);
    }
    forall e ensures e in r <==> e in es {
      assert e in r <==> e in multiset(r);
    }
    DistinctPermutation(es, r);
    forall i, j | 0 <= i < j < |r| ensures r[i].word != r[j].word {
      assert r[i] in r && r[j] in r;
    }
  }

  /** `.slice(0, 40)`. */
  function Take(es: seq<Entry>, n: nat): (r: seq<Entry>)
    ensures |r| <= n && |r| <= |es| && r == es[..|r|]
    ensures |es| <= n ==> r == es
    ensures |es| > n ==> |r| == n
  {
    if |es| <= n then es else es[..n]
  }

  /** A word of the cloud with its count and font size. */
  datatype WordWeight = WordWeight(word: string, count: nat, size: int)

  /** `12 + Math.round((count / max) * 22)` in integers: rounding half up is
      `floor((44 * count + max) / (2 * max))`. */
  function FontSize(count: nat, max: nat): int
    requires max >= 1
  {
    12 + (44 * count + max) / (2 * max)
  }

  lemma FontSizeBounds(count: nat, max: nat)
    requires 1 <= count <= max
    ensures 12 <= FontSize(count, max) <= 34
    ensures count == max ==> FontSize(count, max) == 34
  {
    var n, d := 44 * count + max, 2 * max;
    assert n < 23 * d;
    DivBelow(n, d, 23);
    if count == max {
      assert n == 22 * d + max;
      DivExact(n, d, 22);
    }
  }

  lemma DivBelow(n: nat, d: nat, k: nat)
    requires d > 0 && n < k * d
    ensures n / d < k
  {
    var q := n / d;
    assert q * d <= n;
    FactorLess(q, k, d);
  }

  lemma DivExact(n: nat, d: nat, q: nat)
    requires d > 0 && q * d <= n < q * d + d
    ensures n / d == q
  {
    var r := n / d;
    assert r * d <= n < r * d + d;
    assert r * d + d == (r + 1) * d && q * d + d == (q + 1) * d;
    FactorLess(r, q + 1, d);
    FactorLess(q, r + 1, d);
  }

  /** Multiplying by a positive number keeps a strict order. */
  lemma FactorLess(a: int, b: int, d: int)
    requires d > 0 && a * d < b * d
    ensures a < b
  {
    assert (b - a) * d == b * d - a * d;
  }

  /** `entries.map(...)` with `max = entries[0]?.[1] ?? 1`. */
  function Weigh(top: seq<Entry>): (cloud: seq<WordWeight>)
    requires forall i :: 0 <= i < |top| ==> top[i].count >= 1
    ensures |cloud| == |top|
    ensures forall i :: 0 <= i < |top| ==> cloud[i].word == top[i].word && cloud[i].count == top[i].count
    ensures SortedDesc(top, EntryCount) ==> forall i :: 0 <= i < |top| ==> 12 <= cloud[i].size <= 34
    ensures top != [] ==> cloud[0].size == 34
  {
    var max := if top == [] then 1 else top[0].count;
    var cloud := seq(|top|, i requires 0 <= i < |top| => WordWeight(top[i].word, top[i].count, FontSize(top[i].count, max)));
    assert top != [] ==> cloud[0].size == 34 by {
      if top != [] {
        FontSizeBounds(max, max);
      }
    }
    assert SortedDesc(top, EntryCount) ==> forall i :: 0 <= i < |top| ==> 12 <= cloud[i].size <= 34 by {
      if SortedDesc(top, EntryCount) {
        forall i | 0 <= i < |top| ensures 12 <= cloud[i].size <= 34 {
          assert EntryCount(top[0]) >= EntryCount(top[i]);
          FontSizeBounds(top[i].count, max);
        }
      }
    }
    cloud
  }

  // ---------------------------------------------------------------- topWords

  /** The cloud drawn from a dictionary whose keys were inserted in the order `keys`. */
  function Cloud(freq: map<string, nat>, keys: seq<string>): seq<WordWeight>
    requires forall w :: w in keys ==> w in freq && freq[w] >= 1
  {
    Weigh(Take(RankEntries(freq, keys), Limit))
  }

  /** The word cloud of a snapshot, as a function. */
  function TopWordsOf(rows: seq<SurveyRow>): (cloud: seq<WordWeight>) {
    KeysCounted(AllWords(rows));
    Cloud(Freq(AllWords(rows)), FirstOccurrences(AllWords(rows)))
  }

  /** What `topWords` shows: at most 40 distinct valid words of the comments, each with
      its number of occurrences, by non-increasing count, sized between 12 and 34 with
      the first at 34; a word left out means 40 words were shown, none of them less
      frequent than it; the cloud is empty exactly when no comment has a counted word. */
  lemma TopWordsProperties(rows: seq<SurveyRow>)
    ensures var cloud, ws := TopWordsOf(rows), AllWords(rows);
      && |cloud| <= Limit
      && (forall i :: 0 <= i < |cloud| ==>
            && ValidWord(cloud[i].word) && cloud[i].word in ws
            && cloud[i].count == Occurrences(ws, cloud[i].word)
            && 12 <= cloud[i].size <= 34)
      && (forall i, j :: 0 <= i < j < |cloud| ==>
            cloud[i].word != cloud[j].word && cloud[i].count >= cloud[j].count)
      && (cloud != [] ==> cloud[0].size == 34)
      && (cloud == [] <==> ws == [])
  {
    TopWordsSized(rows);
    TopWordsCounted(rows);
    TopWordsOrdered(rows);
    TopWordsEmpty(rows);
  }

  /** The first `Limit` ranked entries, the entries the cloud is drawn from. */
  function Top(rows: seq<SurveyRow>): seq<Entry> {
    KeysCounted(AllWords(rows));
    Take(Ranked(AllWords(rows)), Limit)
  }

  lemma TopWordsSized(rows: seq<SurveyRow>)
    ensures |TopWordsOf(rows)| <= Limit
    ensures forall i :: 0 <= i < |TopWordsOf(rows)| ==> 12 <= TopWordsOf(rows)[i].size <= 34
    ensures TopWordsOf(rows) != [] ==> TopWordsOf(rows)[0].size == 34
  {
    var top := Top(rows);
    assert TopWordsOf(rows) == Weigh(top);
    TopSorted(rows);
  }

  lemma TopSorted(rows: seq<SurveyRow>)
    ensures SortedDesc(Top(rows), EntryCount)
  {
    var ranked, top := Ranked(AllWords(rows)), Top(rows);
    RankedEntries(AllWords(rows));
    forall i, j | 0 <= i < j < |top| ensures EntryCount(top[i]) >= EntryCount(top[j]) {
      assert top[i] == ranked[i] && top[j] == ranked[j];
    }
  }

  lemma TopWordsCounted(rows: seq<SurveyRow>)
    ensures var cloud, ws := TopWordsOf(rows), AllWords(rows);
      forall i :: 0 <= i < |cloud| ==>
        && ValidWord(cloud[i].word) && cloud[i].word in ws
        && cloud[i].count == Occurrences(ws, cloud[i].word)
  {
    var ws := AllWords(rows);
    var ranked, top, cloud := Ranked(ws), Top(rows), TopWordsOf(rows);
    assert TopWordsOf(rows) == Weigh(top);
    RankedEntries(ws);
    AllWordsValid(rows);
    forall i | 0 <= i < |cloud|
      ensures ValidWord(cloud[i].word) && cloud[i].word in ws && cloud[i].count == Occurrences(ws, cloud[i].word)
    {
      assert top[i] == ranked[i] && ranked[i] in ranked;
    }
  }

  lemma TopWordsOrdered(rows: seq<SurveyRow>)
    ensures var cloud := TopWordsOf(rows);
      forall i, j :: 0 <= i < j < |cloud| ==>
        cloud[i].word != cloud[j].word && cloud[i].count >= cloud[j].count
  {
    var ranked, top, cloud := Ranked(AllWords(rows)), Top(rows), TopWordsOf(rows);
    assert TopWordsOf(rows) == Weigh(top);
    RankedEntries(AllWords(rows));
    forall i, j | 0 <= i < j < |cloud| ensures cloud[i].word != cloud[j].word && cloud[i].count >= cloud[j].count {
      assert top[i] == ranked[i] && top[j] == ranked[j];
      assert EntryCount(top[i]) >= EntryCount(top[j]);
    }
  }

  lemma TopWordsEmpty(rows: seq<SurveyRow>)
    ensures TopWordsOf(rows) == [] <==> AllWords(rows) == []
  {
    var ws := AllWords(rows);
    if ws != [] {
      var w := ws[0];
      RankedEntries(ws);
      FreqCounts(ws);
      assert Entry(w, Occurrences(ws, w)) in Ranked(ws);
      assert |Top(rows)| > 0;
      assert TopWordsOf(rows) == Weigh(Top(rows));
    }
  }

  /** Rows whose comment is null or empty count no word, so they alone give an empty cloud. */
  lemma {:induction false} NoCommentsNoWords(rows: seq<SurveyRow>)
    requires forall i :: 0 <= i < |rows| ==> rows[i].comment.None? || rows[i].comment.value == ""
    ensures AllWords(rows) == []
    ensures TopWordsOf(rows) == []
  {
    if rows != [] {
      NoCommentsNoWords(rows[..|rows| - 1]);
    }
    TopWordsProperties(rows);
  }

  /** A counted word missing from the cloud lost its place: the cloud is full and every
      word shown occurs at least as often. */
  lemma TopWordsComplete(rows: seq<SurveyRow>, w: string)
    requires w in AllWords(rows)
    requires forall i :: 0 <= i < |TopWordsOf(rows)| ==> TopWordsOf(rows)[i].word != w
    ensures |TopWordsOf(rows)| == Limit
    ensures forall i :: 0 <= i < Limit ==> TopWordsOf(rows)[i].count >= Occurrences(AllWords(rows), w)
  {
    var ws := AllWords(rows);
    var ranked := Ranked(ws);
    RankedEntries(ws);
    FreqCounts(ws);
    var top := Take(ranked, Limit);
    var cloud := TopWordsOf(rows);
    assert cloud == Weigh(top);
    var e := Entry(w, Occurrences(ws, w));
    assert e in ranked;
    var p :| 0 <= p < |ranked| && ranked[p] == e;
    assert forall i :: 0 <= i < |top| ==> cloud[i].word == ranked[i].word;
    assert p >= |top|;
    assert |top| == Limit;
    forall i | 0 <= i < Limit ensures cloud[i].count >= e.count {
      assert top[i] == ranked[i];
      assert EntryCount(ranked[i]) >= EntryCount(ranked[p]);
    }
  }

  // ---------------------------------------------------------------- the plain-object dictionary

  /** The values `freq[w]` can take in JavaScript: a number, a string, or the function
      `Object` that `{}` inherits as its `constructor` property. */
  datatype JsValue = Num(n: int) | Str(s: string) | ObjectFunction

  /** The only property of `Object.prototype` whose name is a possible word (all other
      names contain upper-case letters or underscores). */
  function Inherited(w: string): Option<JsValue> {
    if w == "constructor" then Some(ObjectFunction) else None
  }

  /** `freq[w]`: an own property, else the inherited one, else `undefined` (`None`). */
  function Lookup(obj: map<string, JsValue>, w: string): Option<JsValue> {
    if w in obj then Some(obj[w]) else Inherited(w)
  }

  /** `(freq[w] || 0) + 1` with JavaScript's `||` and `+`. */
  function IncrementAsWritten(v: Option<JsValue>): JsValue {
    match v
    case None => Num(1)
    case Some(Num(n)) => if n == 0 then Num(1) else Num(n + 1)
    case Some(Str(s)) => if s == "" then Num(1) else Str(s + "1")
    case Some(ObjectFunction) => Str("function Object() { [native code] }1")
  }

  /** The dictionary as the source builds it: a plain object `{}`. */
  function JsFreq(ws: seq<string>): map<string, JsValue> {
    if ws == [] then map[]
    else
      var obj := JsFreq(ws[..|ws| - 1]);
      var w := ws[|ws| - 1];
      obj[w := IncrementAsWritten(Lookup(obj, w))]
  }

  /** Without the word `constructor`, the plain object counts exactly as `Freq` does. */
  lemma {:induction false} JsFreqAgrees(ws: seq<string>)
    requires "constructor" !in ws
    ensures forall w :: w in JsFreq(ws) <==> w in Freq(ws)
    ensures forall w :: w in JsFreq(ws) ==> JsFreq(ws)[w] == Num(Freq(ws)[w])
  {
    if ws != [] {
      var init := ws[..|ws| - 1];
      assert "constructor" !in init by {
        forall k | 0 <= k < |init| ensures init[k] != "constructor" {
          assert init[k] == ws[k];
        }
      }
      JsFreqAgrees(init);
      FreqCounts(init);
    }
  }

  /** A run of word characters is one word of its comment, when the filter keeps it. */
  lemma SingleWord(c: string)
    requires ValidWord(c)
    ensures Words(c) == [c]
  {
    assert Lower(c) == c by {
      forall k | 0 <= k < |c| ensures Lower(c)[k] == c[k] {
        assert IsWordChar(c[k]);
      }
    }
    assert Clean(c) == c;
    assert FirstSpace(c) == |c| by {
      forall k | 0 <= k < |c| ensures !IsJsSpace(c[k]) {
        assert IsWordChar(c[k]);
      }
    }
    assert KeepWords([c]) == KeepWords([]) + [c];
  }

  /** The word `constructor` is counted as a string: the first occurrence reads the
      inherited function `Object`, and `+ 1` concatenates. Its entry then compares as
      `NaN` in the sort and gets a `NaN` font size. */
  lemma ConstructorCountedAsString()
    ensures JsFreq(["constructor"])["constructor"] == Str("function Object() { [native code] }1")
    ensures JsFreq(["constructor", "constructor"])["constructor"] == Str("function Object() { [native code] }11")
    ensures Freq(["constructor", "constructor"])["constructor"] == 2
  {
    assert ["constructor", "constructor"][..1] == ["constructor"];
  }

  /** The comment `constructor` yields the word `constructor`. */
  lemma ConstructorIsAWord()
    ensures Words("constructor") == ["constructor"]
  {
    assert ValidWord("constructor");
    SingleWord("constructor");
  }

  lemma SeenOneMore(seen: seq<string>, words: seq<string>, k: nat)
    requires k < |words|
    ensures seen + words[..k + 1] == (seen + words[..k]) + [words[k]]
  {
    assert words[..k + 1] == words[..k] + [words[k]];
  }

  /** The inner `forEach` of `topWords`: counts the words of one comment into the
      dictionary `freq`, whose keys were inserted in the order `keys`. */
  method CountWords(freq0: map<string, nat>, keys0: seq<string>, ghost seen: seq<string>, words: seq<string>)
    returns (freq: map<string, nat>, keys: seq<string>)
    requires freq0 == Freq(seen) && keys0 == FirstOccurrences(seen)
    ensures freq == Freq(seen + words) && keys == FirstOccurrences(seen + words)
  {
    freq, keys := freq0, keys0;
    var k := 0;
    assert seen + words[..k] == seen;
    while k < |words|
      invariant 0 <= k <= |words|
      invariant freq == Freq(seen + words[..k])
      invariant keys == FirstOccurrences(seen + words[..k])
    {
      var w := words[k];
      CountStep(seen + words[..k], w);
      SeenOneMore(seen, words, k);
      if w !in freq {
        keys := keys + [w];
      }
      freq := freq[w := (if w in freq then freq[w] else 0) + 1];
      k := k + 1;
    }
    assert words[..k] == words;
  }

  lemma AllWordsStep(rows: seq<SurveyRow>, i: nat)
    requires i < |rows|
    ensures AllWords(rows[..i + 1]) == AllWords(rows[..i]) + RowWords(rows[i])
  {
    assert rows[..i + 1][..i] == rows[..i];
  }

  /** `topWords`: counts the words of every non-empty comment into a dictionary, then
      ranks and weighs its entries. */
  method TopWords(rows: seq<SurveyRow>) returns (cloud: seq<WordWeight>)
    ensures cloud == TopWordsOf(rows)
  {
    var freq: map<string, nat> := map[];
    var keys: seq<string> := [];
    var i := 0;
    while i < |rows|
      invariant 0 <= i <= |rows|
      invariant freq == Freq(AllWords(rows[..i]))
      invariant keys == FirstOccurrences(AllWords(rows[..i]))
    {
      var r := rows[i];
      AllWordsStep(rows, i);
      if r.comment.Some? && r.comment.value != "" {
        freq, keys := CountWords(freq, keys, AllWords(rows[..i]), Words(r.comment.value));
      } else {
        assert AllWords(rows[..i]) + RowWords(r) == AllWords(rows[..i]);
      }
      i := i + 1;
    }
    assert rows[..i] == rows;
    KeysCounted(AllWords(rows));
    cloud := Cloud(freq, keys);
  }
}
