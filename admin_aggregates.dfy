/** The survey aggregates of the admin analytics dashboard: rows filtered by experiment
    arm, the `mean` helper, the sample overview, the six dimension means, the 1..5
    trust-score distribution and the admin-only gate. Everything here is a pure function
    of one in-memory snapshot of survey rows; the snapshot is never changed. */
module AdminAggregates {
  import opened Wrappers

  /** The experiment arm a respondent saw. */
  datatype Variant = Baseline | Xai

  /** One row of the `loan_trust_survey` table, as the dashboard reads it. */
  datatype SurveyRow = SurveyRow(
    id: int,
    createdAt: string,
    userEmail: string,
    variant: Variant,
    prediction: string,
    trustScore: int,
    reasoningConfidenceScore: int,
    accuracyScore: int,
    understandingScore: int,
    repeatUsageScore: int,
    comfortScore: int,
    comment: Option<string>)

  // ---------------------------------------------------------------- byVariant

  /** `rows.filter(r => r.variant === v)`. */
  function ByVariant(rows: seq<SurveyRow>, v: Variant): (r: seq<SurveyRow>)
    ensures |r| <= |rows|
    ensures forall x :: x in r <==> x in rows && x.variant == v
    ensures rows == [] ==> r == []
  {
    if rows == [] then []
    else (if rows[0].variant == v then [rows[0]] else []) + ByVariant(rows[1..], v)
  }

  /** Filtering distributes over concatenation, so the kept rows appear in their
      original order. */
  lemma {:induction false} ByVariantAppend(a: seq<SurveyRow>, b: seq<SurveyRow>, v: Variant)
    ensures ByVariant(a + b, v) == ByVariant(a, v) + ByVariant(b, v)
  {
    if a == [] {
      assert a + b == b;
    } else {
      assert (a + b)[1..] == a[1..] + b;
      ByVariantAppend(a[1..], b, v);
    }
  }

  /** Every row of the chosen arm is kept as often as it occurs; no other row is kept. */
  lemma {:induction false} ByVariantMultiplicity(rows: seq<SurveyRow>, v: Variant, x: SurveyRow)
    ensures multiset(ByVariant(rows, v))[x] == if x.variant == v then multiset(rows)[x] else 0
  {
    if rows != [] {
      assert rows == [rows[0]] + rows[1..];
      ByVariantMultiplicity(rows[1..], v, x);
    }
  }

  /** The two arms partition the rows: `baselineN + xaiN == total`. */
  lemma {:induction false} VariantsPartition(rows: seq<SurveyRow>)
    ensures |ByVariant(rows, Baseline)| + |ByVariant(rows, Xai)| == |rows|
  {
    if rows != [] {
      VariantsPartition(rows[1..]);
    }
  }

  // ---------------------------------------------------------------- mean

  /** `arr.reduce((a, b) => a + b, 0)`, a left fold. */
  function Sum(xs: seq<int>): int {
    if xs == [] then 0 else Sum(xs[..|xs| - 1]) + xs[|xs| - 1]
  }

  /** `arr.length ? sum / arr.length : 0`, over exact reals. */
  function Mean(xs: seq<int>): (m: real)
    ensures xs == [] ==> m == 0.0
    ensures xs != [] ==> m * (|xs| as real) == Sum(xs) as real
  {
    if |xs| == 0 then 0.0 else (Sum(xs) as real) / (|xs| as real)
  }

  lemma {:induction false} SumAppend(a: seq<int>, b: seq<int>)
    ensures Sum(a + b) == Sum(a) + Sum(b)
    decreases |b|
  {
    if b == [] {
      assert a + b == a;
    } else {
      assert (a + b)[..|a + b| - 1] == a + b[..|b| - 1];
      SumAppend(a, b[..|b| - 1]);
    }
  }

  /** The sum does not depend on the order of the values. */
  lemma {:induction false} SumPermutation(a: seq<int>, b: seq<int>)
    requires multiset(a) == multiset(b)
    ensures Sum(a) == Sum(b)
    decreases |a|
  {
    if a == [] {
      assert |b| == |multiset(b)| == 0;
    } else {
      var x := a[|a| - 1];
      var a' := a[..|a| - 1];
      assert a == a' + [x];
      assert x in multiset(b);
      var i :| 0 <= i < |b| && b[i] == x;
      var b' := b[..i] + b[i + 1..];
      assert b == b[..i] + [x] + b[i + 1..];
      assert multiset(b') == multiset(b) - multiset{x};
      SumPermutation(a', b');
      SumAppend(b[..i] + [x], b[i + 1..]);
      SumAppend(b[..i], [x]);
      SumAppend(b[..i], b[i + 1..]);
    }
  }

  /** `mean` is invariant under reordering of its input. */
  lemma MeanPermutation(a: seq<int>, b: seq<int>)
    requires multiset(a) == multiset(b)
    ensures Mean(a) == Mean(b)
  {
    assert |a| == |multiset(a)| == |multiset(b)| == |b|;
    SumPermutation(a, b);
  }

  lemma {:induction false} SumBounds(xs: seq<int>, lo: int, hi: int)
    requires forall i :: 0 <= i < |xs| ==> lo <= xs[i] <= hi
    ensures lo * |xs| <= Sum(xs) <= hi * |xs|
  {
    if xs != [] {
      SumBounds(xs[..|xs| - 1], lo, hi);
    }
  }

  /** Multiplying by a positive real keeps a strict order. */
  lemma ScaleKeepsOrder(a: real, b: real, n: real)
    requires n > 0.0 && a < b
    ensures a * n < b * n
  {
    assert b * n - a * n == (b - a) * n;
  }

  lemma CastProduct(a: int, b: int)
    ensures (a * b) as real == (a as real) * (b as real)
  {
  }

  /** A quotient of a sum bounded by `lo * n` and `hi * n` lies in [lo, hi]. */
  lemma QuotientBetween(m: real, n: real, total: real, lo: real, hi: real)
    requires n > 0.0 && m * n == total
    requires lo * n <= total <= hi * n
    ensures lo <= m <= hi
  {
    if m < lo {
      ScaleKeepsOrder(m, lo, n);
    }
    if hi < m {
      ScaleKeepsOrder(hi, m, n);
    }
  }

  /** The mean of a non-empty list lies between its bounds; `mean([a]) == a`. */
  lemma MeanBounds(xs: seq<int>, lo: int, hi: int)
    requires xs != []
    requires forall i :: 0 <= i < |xs| ==> lo <= xs[i] <= hi
    ensures lo as real <= Mean(xs) <= hi as real
    ensures |xs| == 1 ==> Mean(xs) == xs[0] as real
  {
    SumBounds(xs, lo, hi);
    var n := |xs| as real;
    CastProduct(lo, |xs|);
    CastProduct(hi, |xs|);
    QuotientBetween(Mean(xs), n, Sum(xs) as real, lo as real, hi as real);
    if |xs| == 1 {
      assert xs[..0] == [];
    }
  }

  // ---------------------------------------------------------------- sample overview

  /** The distinct respondent e-mails: `new Set(rows.map(r => r.user_email))`. */
  function Emails(rows: seq<SurveyRow>): (r: set<string>)
    ensures forall e :: e in r <==> exists x :: x in rows && x.userEmail == e
  {
    set r | r in rows :: r.userEmail
  }

  lemma {:induction false} EmailsAtMostRows(rows: seq<SurveyRow>)
    ensures |Emails(rows)| <= |rows|
    ensures rows != [] ==> |Emails(rows)| >= 1
  {
    if rows != [] {
      var last := rows[|rows| - 1];
      var init := rows[..|rows| - 1];
      assert rows == init + [last];
      assert Emails(rows) == Emails(init) + {last.userEmail};
      EmailsAtMostRows(init);
    }
  }

  /** The four figures of the "Sample Overview" section. */
  datatype Overview = Overview(total: nat, uniqueUsers: nat, baselineN: nat, xaiN: nat)

  function SampleOverview(rows: seq<SurveyRow>): (o: Overview)
    ensures o.total == |rows|
    ensures o.baselineN + o.xaiN == o.total
    ensures o.uniqueUsers <= o.total
    ensures o.total > 0 ==> o.uniqueUsers >= 1
    ensures o.baselineN == |ByVariant(rows, Baseline)| && o.xaiN == |ByVariant(rows, Xai)|
    ensures o.uniqueUsers == |Emails(rows)|
  {
    VariantsPartition(rows);
    EmailsAtMostRows(rows);
    Overview(|rows|, |Emails(rows)|, |ByVariant(rows, Baseline)|, |ByVariant(rows, Xai)|)
  }

  // ---------------------------------------------------------------- dimension means

  /** The six rated dimensions, in the dashboard's fixed order. */
  datatype Dimension = Trust | ReasoningConfidence | Accuracy | Understanding | RepeatUsage | Comfort

  const Dimensions: seq<Dimension> :=
    [Trust, ReasoningConfidence, Accuracy, Understanding, RepeatUsage, Comfort]

  /** `r[d.key]`. */
  function Score(r: SurveyRow, d: Dimension): int {
    match d
    case Trust => r.trustScore
    case ReasoningConfidence => r.reasoningConfidenceScore
    case Accuracy => r.accuracyScore
    case Understanding => r.understandingScore
    case RepeatUsage => r.repeatUsageScore
    case Comfort => r.comfortScore
  }

  /** `rows.map(r => r[d.key])`. */
  function Column(rows: seq<SurveyRow>, d: Dimension): (c: seq<int>)
    ensures |c| == |rows|
    ensures forall i :: 0 <= i < |rows| ==> c[i] == Score(rows[i], d)
  {
    seq(|rows|, i requires 0 <= i < |rows| => Score(rows[i], d))
  }

  /** The "Mean Trust" bar of one arm: `mean(byVariant(v).map(r => r.trust_score))`. */
  function MeanTrust(rows: seq<SurveyRow>, v: Variant): real {
    Mean(Column(ByVariant(rows, v), Trust))
  }

  /** `dims.map(d => mean(byVariant(v).map(r => r[d.key])))`. */
  function DimensionMeans(rows: seq<SurveyRow>, v: Variant): (m: seq<real>)
    ensures |m| == |Dimensions| == 6
    ensures forall i :: 0 <= i < 6 ==> m[i] == Mean(Column(ByVariant(rows, v), Dimensions[i]))
    ensures m[0] == MeanTrust(rows, v)
  {
    seq(6, i requires 0 <= i < 6 => Mean(Column(ByVariant(rows, v), Dimensions[i])))
  }

  /** Every score of a well-formed row lies in 1..5. */
  predicate ScoresInRange(r: SurveyRow) {
    forall d :: 1 <= Score(r, d) <= 5
  }

  /** With well-formed rows each dimension mean of an arm with responses lies in
      [1, 5]; an arm without responses shows six zeros. */
  lemma DimensionMeansInRange(rows: seq<SurveyRow>, v: Variant)
    requires forall r :: r in rows ==> ScoresInRange(r)
    ensures ByVariant(rows, v) == [] ==> DimensionMeans(rows, v) == [0.0, 0.0, 0.0, 0.0, 0.0, 0.0]
    ensures ByVariant(rows, v) != [] ==>
      forall i :: 0 <= i < 6 ==> 1.0 <= DimensionMeans(rows, v)[i] <= 5.0
  {
    var vs := ByVariant(rows, v);
    var m := DimensionMeans(rows, v);
    if vs != [] {
      forall i | 0 <= i < 6 ensures 1.0 <= m[i] <= 5.0 {
        var c := Column(vs, Dimensions[i]);
        forall k | 0 <= k < |c| ensures 1 <= c[k] <= 5 {
          assert vs[k] in rows;
        }
        MeanBounds(c, 1, 5);
      }
    }
  }

  lemma ColumnAppend(a: seq<SurveyRow>, b: seq<SurveyRow>, d: Dimension)
    ensures Column(a + b, d) == Column(a, d) + Column(b, d)
  {
  }

  lemma {:induction false} ColumnPermutation(a: seq<SurveyRow>, b: seq<SurveyRow>, d: Dimension)
    requires multiset(a) == multiset(b)
    ensures multiset(Column(a, d)) == multiset(Column(b, d))
    decreases |a|
  {
    if a == [] {
      assert |b| == |multiset(b)| == 0;
    } else {
      var x := a[|a| - 1];
      var a' := a[..|a| - 1];
      assert a == a' + [x];
      assert x in multiset(b);
      var i :| 0 <= i < |b| && b[i] == x;
      var b' := b[..i] + b[i + 1..];
      assert b == b[..i] + [x] + b[i + 1..];
      assert multiset(b') == multiset(b) - multiset{x};
      ColumnPermutation(a', b', d);
      ColumnAppend(a', [x], d);
      ColumnAppend(b[..i] + [x], b[i + 1..], d);
      ColumnAppend(b[..i], [x], d);
      ColumnAppend(b[..i], b[i + 1..], d);
    }
  }

  /** The dimension means do not depend on the order in which rows are fetched. */
  lemma DimensionMeansOrderFree(a: seq<SurveyRow>, b: seq<SurveyRow>, v: Variant)
    requires multiset(a) == multiset(b)
    ensures DimensionMeans(a, v) == DimensionMeans(b, v)
  {
    var va, vb := ByVariant(a, v), ByVariant(b, v);
    forall x ensures multiset(va)[x] == multiset(vb)[x] {
      ByVariantMultiplicity(a, v, x);
      ByVariantMultiplicity(b, v, x);
    }
    assert multiset(va) == multiset(vb);
    forall i | 0 <= i < 6 ensures DimensionMeans(a, v)[i] == DimensionMeans(b, v)[i] {
      ColumnPermutation(va, vb, Dimensions[i]);
      MeanPermutation(Column(va, Dimensions[i]), Column(vb, Dimensions[i]));
    }
  }

  // ---------------------------------------------------------------- distribution

  /** `rows.filter(r => r.trust_score === n).length`. */
  function CountTrust(rows: seq<SurveyRow>, n: int): nat {
    if rows == [] then 0
    else (if rows[0].trustScore == n then 1 else 0) + CountTrust(rows[1..], n)
  }

  /** `buckets.map(n => byVariant(v).filter(r => r.trust_score === n).length)` for buckets 1..5. */
  function Distribution(rows: seq<SurveyRow>, v: Variant): (d: seq<nat>)
    ensures |d| == 5
    ensures forall i :: 0 <= i < 5 ==> d[i] == CountTrust(ByVariant(rows, v), i + 1)
  {
    var vs := ByVariant(rows, v);
    [CountTrust(vs, 1), CountTrust(vs, 2), CountTrust(vs, 3), CountTrust(vs, 4), CountTrust(vs, 5)]
  }

  predicate TrustInRange(r: SurveyRow) {
    1 <= r.trustScore <= 5
  }

  /** How many rows the five buckets count together. */
  function BucketTotal(rows: seq<SurveyRow>): nat {
    CountTrust(rows, 1) + CountTrust(rows, 2) + CountTrust(rows, 3) + CountTrust(rows, 4) + CountTrust(rows, 5)
  }

  lemma {:induction false} BucketTotalBound(rows: seq<SurveyRow>)
    ensures BucketTotal(rows) <= |rows|
    ensures BucketTotal(rows) == |rows| <==> (forall r :: r in rows ==> TrustInRange(r))
  {
    if rows != [] {
      BucketTotalBound(rows[1..]);
      assert BucketTotal(rows) == (if TrustInRange(rows[0]) then 1 else 0) + BucketTotal(rows[1..]);
      assert forall r :: r in rows <==> r == rows[0] || r in rows[1..];
    }
  }

  /** The five buckets never count more rows than the arm has, and they count all of
      them exactly when every trust score of the arm lies in 1..5. */
  lemma DistributionTotal(rows: seq<SurveyRow>, v: Variant)
    ensures var d := Distribution(rows, v);
      d[0] + d[1] + d[2] + d[3] + d[4] <= |ByVariant(rows, v)|
    ensures var d := Distribution(rows, v);
      (d[0] + d[1] + d[2] + d[3] + d[4] == |ByVariant(rows, v)|)
        <==> (forall r :: r in rows && r.variant == v ==> TrustInRange(r))
  {
    BucketTotalBound(ByVariant(rows, v));
  }

  // ---------------------------------------------------------------- admin gate

  /** `email && ADMIN_EMAILS.includes(email)`: a non-empty e-mail on the admin list. */
  predicate IsAdmin(email: Option<string>, admins: seq<string>) {
    email.Some? && email.value != "" && email.value in admins
  }

  /** The gate effect sends the visitor to the chat once the session is known and is not
      an admin session. */
  predicate RedirectsToChat(loading: bool, email: Option<string>, admins: seq<string>) {
    !loading && !IsAdmin(email, admins)
  }

  /** What the page renders, in the order the render checks it. */
  datatype Screen = CheckingPermissions | AccessDenied | FetchingAnalytics | Dashboard

  function RenderedScreen(loading: bool, email: Option<string>, admins: seq<string>, loadingData: bool): (s: Screen)
    ensures s == Dashboard ==> IsAdmin(email, admins)
    ensures s == Dashboard <==> !loading && IsAdmin(email, admins) && !loadingData
    ensures s == AccessDenied <==> RedirectsToChat(loading, email, admins)
  {
    if loading then CheckingPermissions
    else if email.None? || email.value == "" || email.value !in admins then AccessDenied
    else if loadingData then FetchingAnalytics
    else Dashboard
  }
}
