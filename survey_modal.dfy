/** The trust survey dialog (`SurveyModal`): five 1..5 scores, each unanswered at first
    and set by its row of radio buttons; the Submit button is enabled only when all five
    are answered and nothing is being submitted; the payload carries the scores and the
    trimmed comment, left out when it is blank. */
module SurveyModal {
  import opened Wrappers
  import opened Text

  datatype ScoreKey = TrustScore | AccuracyScore | ClarityScore | ConfidenceScore | RepeatUsageScore

  datatype Scores = Scores(
    trust: Option<int>,
    accuracy: Option<int>,
    clarity: Option<int>,
    confidence: Option<int>,
    repeatUsage: Option<int>)

  const Unanswered: Scores := Scores(None, None, None, None, None)

  /** The values a row offers: `[1, 2, 3, 4, 5]`. */
  const RowChoices: seq<int> := [1, 2, 3, 4, 5]

  function Get(s: Scores, k: ScoreKey): Option<int> {
    match k
    case TrustScore => s.trust
    case AccuracyScore => s.accuracy
    case ClarityScore => s.clarity
    case ConfidenceScore => s.confidence
    case RepeatUsageScore => s.repeatUsage
  }

  /** `{ ...s, [k]: v }`: the score `k` becomes `v`, the other four are kept. */
  function SetVal(s: Scores, k: ScoreKey, v: int): (t: Scores)
    ensures Get(t, k) == Some(v)
    ensures forall j :: j != k ==> Get(t, j) == Get(s, j)
  {
    match k
    case TrustScore => s.(trust := Some(v))
    case AccuracyScore => s.(accuracy := Some(v))
    case ClarityScore => s.(clarity := Some(v))
    case ConfidenceScore => s.(confidence := Some(v))
    case RepeatUsageScore => s.(repeatUsage := Some(v))
  }

  /** `Object.values(scores).every(v => typeof v === 'number')`. */
  predicate AllAnswered(s: Scores) {
    s.trust.Some? && s.accuracy.Some? && s.clarity.Some? && s.confidence.Some? && s.repeatUsage.Some?
  }

  lemma AllAnsweredIffEveryKey(s: Scores)
    ensures AllAnswered(s) <==> forall k :: Get(s, k).Some?
    ensures !AllAnswered(Unanswered)
  {
    if !AllAnswered(s) {
      if s.trust.None? { assert Get(s, TrustScore).None?; }
      else if s.accuracy.None? { assert Get(s, AccuracyScore).None?; }
      else if s.clarity.None? { assert Get(s, ClarityScore).None?; }
      else if s.confidence.None? { assert Get(s, ConfidenceScore).None?; }
      else { assert Get(s, RepeatUsageScore).None?; }
    }
  }

  /** Answering every row answers the survey. */
  lemma AnsweringAllRows(s: Scores, a: int, b: int, c: int, d: int, e: int)
    ensures AllAnswered(SetVal(SetVal(SetVal(SetVal(SetVal(s, TrustScore, a), AccuracyScore, b),
              ClarityScore, c), ConfidenceScore, d), RepeatUsageScore, e))
  {
  }

  /** Every answered score is one a row offers. */
  predicate ScoresFromRows(s: Scores) {
    forall k :: Get(s, k).Some? ==> Get(s, k).value in RowChoices
  }

  /** Choosing through a row keeps every answered score in 1..5. */
  lemma RowChoiceKeepsRange(s: Scores, k: ScoreKey, i: int)
    requires ScoresFromRows(s) && 0 <= i < |RowChoices|
    ensures ScoresFromRows(SetVal(s, k, RowChoices[i]))
    ensures forall j :: Get(SetVal(s, k, RowChoices[i]), j).Some? ==> 1 <= Get(SetVal(s, k, RowChoices[i]), j).value <= 5
  {
    var t := SetVal(s, k, RowChoices[i]);
    forall j | Get(t, j).Some? ensures Get(t, j).value in RowChoices && 1 <= Get(t, j).value <= 5 {
      if j != k {
        assert Get(t, j) == Get(s, j);
      }
    }
  }

  /** `disabled={!allAnswered || !!loading}`. */
  function SubmitDisabled(s: Scores, loading: Option<bool>): (disabled: bool)
    ensures !disabled <==> AllAnswered(s) && loading != Some(true)
  {
    !AllAnswered(s) || loading == Some(true)
  }

  /** What `onSubmit` receives; `feedback` is `comment.trim() || undefined`. */
  datatype SurveyPayload = SurveyPayload(trust: Scores, feedback: Option<string>)

  class SurveyDialog {
    var scores: Scores
    var comment: string

    constructor ()
      ensures scores == Unanswered && comment == ""
    {
      scores, comment := Unanswered, "";
    }

    /** `setVal(k, v)`. */
    method SetScore(k: ScoreKey, v: int)
      modifies this`scores
      ensures scores == SetVal(old(scores), k, v)
    {
      scores := SetVal(scores, k, v);
    }

    method SetComment(v: string)
      modifies this`comment
      ensures comment == v
    {
      comment := v;
    }

    /** The payload the Submit button hands over; `None` while the button is disabled. */
    method Submit(loading: Option<bool>) returns (payload: Option<SurveyPayload>)
      ensures payload.None? <==> SubmitDisabled(scores, loading)
      ensures payload.Some? ==> payload.value == SurveyPayload(scores, NonBlank(comment))
    {
      if SubmitDisabled(scores, loading) {
        return None;
      }
      payload := Some(SurveyPayload(scores, NonBlank(comment)));
    }
  }
}
