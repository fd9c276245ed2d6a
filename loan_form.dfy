/** The loan application form (`LoanFormPage`). Every field is read through `Number(...)`
    before use, so the model keeps each field as that number (an untouched field, `''`,
    reads as 0). `handleChange` replaces one field. `handleSubmit` runs three range
    checks in order, the first failing one decides the alert, and only a form that
    passes all three is posted to the prediction service; the `await` splits it into
    `BeginSubmit` and `FinishSubmit`. */
module LoanForm {
  import opened Wrappers

  datatype FieldName = Education | SelfEmployed | IncomeAnnum | LoanAmount | LoanTerm | CibilScore

  datatype Form = Form(
    education: int,
    selfEmployed: int,
    incomeAnnum: int,
    loanAmount: int,
    loanTerm: int,
    cibilScore: int)

  const EmptyForm: Form := Form(0, 0, 0, 0, 0, 0)

  const AmountsMessage: string := "Income and loan amount must be 0 or greater."
  const TermMessage: string := "Repayment duration must be between 1 and 12 months."
  const ScoreMessage: string := "Credit Score must be between 300 and 900."
  const PredictionFailed: string := "Something went wrong while getting prediction."
  const BackendUnreachable: string := "Error connecting to the backend API."

  function Get(f: Form, name: FieldName): int {
    match name
    case Education => f.education
    case SelfEmployed => f.selfEmployed
    case IncomeAnnum => f.incomeAnnum
    case LoanAmount => f.loanAmount
    case LoanTerm => f.loanTerm
    case CibilScore => f.cibilScore
  }

  /** `{ ...prev, [name]: value }`: the named field takes the new value, the other five
      keep theirs. */
  function With(f: Form, name: FieldName, value: int): (g: Form)
    ensures Get(g, name) == value
    ensures forall n :: n != name ==> Get(g, n) == Get(f, n)
  {
    match name
    case Education => f.(education := value)
    case SelfEmployed => f.(selfEmployed := value)
    case IncomeAnnum => f.(incomeAnnum := value)
    case LoanAmount => f.(loanAmount := value)
    case LoanTerm => f.(loanTerm := value)
    case CibilScore => f.(cibilScore := value)
  }

  predicate AmountsOk(f: Form) {
    f.incomeAnnum >= 0 && f.loanAmount >= 0
  }

  predicate TermOk(f: Form) {
    1 <= f.loanTerm <= 12
  }

  predicate ScoreOk(f: Form) {
    300 <= f.cibilScore <= 900
  }

  /** The alert of the first failing check, or `None` when the form passes. */
  function Validate(f: Form): (alert: Option<string>)
    ensures alert.None? <==> AmountsOk(f) && TermOk(f) && ScoreOk(f)
    ensures alert == Some(AmountsMessage) <==> !AmountsOk(f)
    ensures alert == Some(TermMessage) <==> AmountsOk(f) && !TermOk(f)
    ensures alert == Some(ScoreMessage) <==> AmountsOk(f) && TermOk(f) && !ScoreOk(f)
  {
    if f.incomeAnnum < 0 || f.loanAmount < 0 then Some(AmountsMessage)
    else if f.loanTerm < 1 || f.loanTerm > 12 then Some(TermMessage)
    else if f.cibilScore < 300 || f.cibilScore > 900 then Some(ScoreMessage)
    else None
  }

  /** The body posted to `/predict`. */
  datatype Payload = Payload(
    education: int,
    selfEmployed: int,
    incomeAnnum: int,
    loanAmount: int,
    loanTerm: int,
    cibilScore: int)

  function PayloadOf(f: Form): (p: Payload)
    ensures p.education == Get(f, Education) && p.selfEmployed == Get(f, SelfEmployed)
    ensures p.incomeAnnum == Get(f, IncomeAnnum) && p.loanAmount == Get(f, LoanAmount)
    ensures p.loanTerm == Get(f, LoanTerm) && p.cibilScore == Get(f, CibilScore)
  {
    Payload(f.education, f.selfEmployed, f.incomeAnnum, f.loanAmount, f.loanTerm, f.cibilScore)
  }

  /** A posted payload satisfies all three range checks. */
  lemma PostedPayloadInRange(f: Form)
    requires Validate(f).None?
    ensures var p := PayloadOf(f);
      p.incomeAnnum >= 0 && p.loanAmount >= 0 && 1 <= p.loanTerm <= 12 && 300 <= p.cibilScore <= 900
  {
  }

  /** The untouched form is refused for its repayment duration. */
  lemma EmptyFormRefused()
    ensures Validate(EmptyForm) == Some(TermMessage)
  {
  }

  /** What the prediction request gave: a JSON body with or without a `prediction`, or
      a failure (no connection, or a body that is not JSON). */
  datatype PredictResponse = Body(prediction: Option<string>) | RequestError

  /** What the user sees after a submit. */
  datatype Outcome = Alert(message: string) | Posted(payload: Payload) | GoToChat

  class LoanFormPage {
    var form: Form
    var loading: bool
    /** `localStorage["loan_result"]`: the prediction kept for the chat screen. */
    var savedPrediction: Option<string>

    constructor ()
      ensures form == EmptyForm && !loading && savedPrediction == None
    {
      form, loading, savedPrediction := EmptyForm, false, None;
    }

    /** `handleChange`. */
    method HandleChange(name: FieldName, value: int)
      modifies this`form
      ensures form == With(old(form), name, value)
    {
      form := With(form, name, value);
    }

    /** `handleSubmit` up to the request: a form that fails a check raises that check's
        alert and nothing else happens; otherwise `loading` is set and the payload is
        posted. */
    method BeginSubmit() returns (outcome: Outcome)
      modifies this`loading
      ensures Validate(form).Some? ==> outcome == Alert(Validate(form).value) && loading == old(loading)
      ensures Validate(form).None? ==> outcome == Posted(PayloadOf(form)) && loading
    {
      var income, loan, term, score := form.incomeAnnum, form.loanAmount, form.loanTerm, form.cibilScore;
      if income < 0 || loan < 0 {
        return Alert(AmountsMessage);
      }
      if term < 1 || term > 12 {
        return Alert(TermMessage);
      }
      if score < 300 || score > 900 {
        return Alert(ScoreMessage);
      }
      loading := true;
      outcome := Posted(Payload(form.education, form.selfEmployed, income, loan, term, score));
    }

    /** `handleSubmit` after the request: `loading` is cleared on every path; a truthy
        prediction is saved and leads to the chat screen, anything else raises an alert. */
    method FinishSubmit(response: PredictResponse) returns (outcome: Outcome)
      modifies this`loading, this`savedPrediction
      ensures !loading
      ensures response.Body? && response.prediction.Some? && response.prediction.value != "" ==>
        outcome == GoToChat && savedPrediction == response.prediction
      ensures response.Body? && (response.prediction.None? || response.prediction.value == "") ==>
        outcome == Alert(PredictionFailed) && savedPrediction == old(savedPrediction)
      ensures response.RequestError? ==>
        outcome == Alert(BackendUnreachable) && savedPrediction == old(savedPrediction)
    {
      match response {
        case Body(prediction) =>
          if prediction.Some? && prediction.value != "" {
            savedPrediction := prediction;
            outcome := GoToChat;
          } else {
            outcome := Alert(PredictionFailed);
          }
        case RequestError =>
          outcome := Alert(BackendUnreachable);
      }
      loading := false;
    }
  }
}
