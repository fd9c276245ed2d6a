/** The chat screen (`ChatPage`) as a state machine. Its React state becomes the fields
    of the class `ChatPage`; each handler becomes a method. A handler that awaits the
    backend or the database is split at the `await`: a `Begin` method runs the part
    before it and returns the request it would send, a `Finish` method runs the part
    after it and takes the answer as a parameter. Writes to the chat history, which the
    source does not wait for, are not part of this model. */
module ChatScreen {
  import opened Wrappers
  import opened Text
  import opened ChatMessages

  /** What the last bot answer was about: nothing yet, a loan decision or an FAQ. */
  datatype Context = NoContext | Loan | Faq

  /** The answer of the FAQ endpoint: a reply whose `answer` may be missing or empty,
      or a failed request. */
  datatype FaqReply = Reply(answer: Option<string>) | RequestFailed

  /** The row `handleRating` inserts into `trust_ratings` (prediction, explanation and
      comment are always null there). */
  datatype RatingInsert = RatingInsert(userEmail: string, variant: string, trustScore: int)

  const GreetingHello: string := "Hello! I\U{2019}m TrustAI \U{2014} your personal AI loan advisor."
  const GreetingHelp: string := "You can check your loan eligibility or ask me financial FAQs."
  const NoAnswer: string := "Sorry, I couldn\U{2019}t find an answer for that question."
  const BackendError: string := "Error contacting backend service."
  const AskExplain: string := "Would you like to explain your rating?"
  const ThankFeedback: string := "Thank you for your feedback!"
  const Skipped: string := "Feedback skipped."

  function Greeting(): (g: seq<Message>)
    ensures |g| == 2 && forall i :: 0 <= i < 2 ==> g[i].sender == Bot
  {
    [Message(Bot, GreetingHello), Message(Bot, GreetingHelp)]
  }

  /** A JavaScript string is truthy when it is present and not empty. */
  predicate Truthy(s: Option<string>) {
    s.Some? && s.value != ""
  }

  /** `mode === "xai" ? "baseline" : "xai"`. */
  function Toggled(mode: string): (m: string)
    ensures m == "xai" || m == "baseline"
    ensures m != mode || (mode != "xai" && mode != "baseline")
  {
    if mode == "xai" then "baseline" else "xai"
  }

  /** Toggling twice restores either of the two modes; any other stored value becomes
      `xai` after one toggle. */
  lemma ToggleTwice(mode: string)
    ensures (mode == "xai" || mode == "baseline") ==> Toggled(Toggled(mode)) == mode
    ensures (mode != "xai" && mode != "baseline") ==> Toggled(mode) == "xai"
  {
  }

  /** The mode read at start-up: the stored `chat_mode` when it is truthy, else `xai`. */
  function InitialMode(stored: Option<string>): (m: string)
    ensures m != ""
    ensures Truthy(stored) ==> m == stored.value
    ensures !Truthy(stored) ==> m == "xai"
  {
    if Truthy(stored) then stored.value else "xai"
  }

  /** The variant recorded with a rating: the mode after a loan decision, else `faq`. */
  function RatingVariant(context: Context, mode: string): (v: string)
    ensures context == Loan ==> v == mode
    ensures context != Loan ==> v == "faq"
  {
    if context == Loan then mode else "faq"
  }

  const ThanksOpen: string := "Thanks! Your trust rating ("
  const ThanksClose: string := "/5) was recorded."

  /** `Thanks! Your trust rating (${score}/5) was recorded.`: the score's decimal text
      sits between the fixed opening and closing. */
  function RatingThanks(score: int): (t: string)
    ensures |t| == |ThanksOpen| + |IntToString(score)| + |ThanksClose|
    ensures t[..|ThanksOpen|] == ThanksOpen
    ensures t[|ThanksOpen|..|t| - |ThanksClose|] == IntToString(score)
    ensures t[|t| - |ThanksClose|..] == ThanksClose
  {
    var t := ThanksOpen + IntToString(score) + ThanksClose;
    assert t[|ThanksOpen|..|t| - |ThanksClose|] == IntToString(score);
    t
  }

  /** Different scores give different messages: the message reports the score. */
  lemma RatingThanksReportsScore(a: int, b: int)
    requires RatingThanks(a) == RatingThanks(b)
    ensures a == b
  {
    IntToStringInjective(a, b);
  }

  /** The bot message that answers a question: the answer when it is truthy, else one of
      the two fixed messages. */
  function ReplyText(reply: FaqReply): (t: string)
    ensures t != []
    ensures reply.Reply? && Truthy(reply.answer) ==> t == reply.answer.value
    ensures reply.Reply? && !Truthy(reply.answer) ==> t == NoAnswer
    ensures reply.RequestFailed? ==> t == BackendError
  {
    match reply
    case Reply(answer) => if Truthy(answer) then answer.value else NoAnswer
    case RequestFailed => BackendError
  }

  /** The messages after the history is restored: the greeting, then the history. */
  function Restored(greeting: seq<Message>, past: Option<seq<Message>>): (ms: seq<Message>)
    ensures |ms| >= |greeting| && ms[..|greeting|] == greeting
    ensures past.Some? ==> ms[|greeting|..] == past.value
    ensures past.None? ==> ms == greeting
  {
    if past.None? || past.value == [] then greeting else greeting + past.value
  }

  /** The history ends with a loan decision, so its rating is still owed. */
  predicate EndsWithLoanDecision(past: Option<seq<Message>>) {
    past.Some? && past.value != [] && StartsWith(past.value[|past.value| - 1].text, "Loan Decision")
  }

  class ChatPage {
    const email: Option<string>
    /** `initialGreeting`. */
    const greeting: seq<Message>
    var messages: seq<Message>
    var input: string
    var thinking: bool
    var context: Context
    var ratingPending: bool
    var ratingSubmitting: bool
    var ratingGiven: Option<int>
    var feedbackPending: bool
    var feedbackSubmitting: bool
    var feedback: string
    var mode: string
    var userRole: string
    /** `localStorage["chat_mode"]`. */
    var storedMode: Option<string>

    /** The conversation always opens with the two greeting messages. */
    predicate Valid()
      reads this
    {
      |greeting| == 2 && |messages| >= 2 && messages[..2] == greeting
    }

    /** The first render, for the signed-in `email` and the stored mode. */
    constructor (email: Option<string>, stored: Option<string>)
      ensures Valid() && this.email == email && greeting == Greeting()
      ensures messages == Greeting() && input == "" && !thinking && context == NoContext
      ensures !ratingPending && !ratingSubmitting && ratingGiven == None
      ensures !feedbackPending && !feedbackSubmitting && feedback == ""
      ensures mode == InitialMode(stored) && userRole == "user" && storedMode == stored
    {
      this.email := email;
      greeting := Greeting();
      messages := greeting;
      input, thinking, context := "", false, NoContext;
      ratingPending, ratingSubmitting, ratingGiven := false, false, None;
      feedbackPending, feedbackSubmitting, feedback := false, false, "";
      mode, userRole, storedMode := InitialMode(stored), "user", stored;
    }

    /** Typing into the chat input. */
    method SetInput(v: string)
      modifies this`input
      ensures input == v
    {
      input := v;
    }

    /** Typing into the feedback box. */
    method SetFeedback(v: string)
      modifies this`feedback
      ensures feedback == v
    {
      feedback := v;
    }

    /** `toggleMode`: switches between the two modes and stores the new one. */
    method ToggleMode()
      modifies this`mode, this`storedMode
      ensures mode == Toggled(old(mode)) && storedMode == Some(mode)
    {
      mode := if mode == "xai" then "baseline" else "xai";
      storedMode := Some(mode);
    }

    /** `sendMessage` up to the request: a blank input is ignored; otherwise the trimmed
        text is shown as the user's message, the input is cleared and the bot is
        thinking. Returns the query sent, if any. */
    method BeginSend() returns (query: Option<string>)
      requires Valid()
      modifies this`messages, this`input, this`thinking
      ensures Valid()
      ensures query == NonBlank(old(input))
      ensures query.None? ==> messages == old(messages) && input == old(input) && thinking == old(thinking)
      ensures query.Some? ==> messages == old(messages) + [Message(User, query.value)] && input == "" && thinking
    {
      query := NonBlank(input);
      if query.None? {
        return;
      }
      var sent := [Message(User, query.value)];
      assert (messages + sent)[..2] == messages[..2];
      messages := messages + sent;
      input := "";
      thinking := true;
    }

    /** `sendMessage` after the request: the bot stops thinking on every path and
        answers; a truthy answer also opens an FAQ rating. */
    method FinishSend(reply: FaqReply)
      requires Valid()
      modifies this`messages, this`thinking, this`context, this`ratingPending
      ensures Valid()
      ensures !thinking
      ensures messages == old(messages) + [Message(Bot, ReplyText(reply))]
      ensures reply.Reply? && Truthy(reply.answer) ==> context == Faq && ratingPending
      ensures !(reply.Reply? && Truthy(reply.answer)) ==>
        context == old(context) && ratingPending == old(ratingPending)
    {
      thinking := false;
      match reply {
        case Reply(answer) =>
          if answer.Some? && answer.value != "" {
            messages := messages + [Message(Bot, answer.value)];
            context := Faq;
            ratingPending := true;
          } else {
            messages := messages + [Message(Bot, NoAnswer)];
          }
        case RequestFailed =>
          messages := messages + [Message(Bot, BackendError)];
      }
    }

    /** `handleRating` up to the insert: ignored without a signed-in user or while a
        rating is being submitted; otherwise marks the rating as submitting and returns
        the row to insert. */
    method BeginRating(score: int) returns (insert: Option<RatingInsert>)
      modifies this`ratingSubmitting
      ensures insert.None? <==> !Truthy(email) || old(ratingSubmitting)
      ensures insert.None? ==> ratingSubmitting == old(ratingSubmitting)
      ensures insert.Some? ==>
        ratingSubmitting && insert.value == RatingInsert(email.value, RatingVariant(context, mode), score)
    {
      if email.None? || email.value == "" || ratingSubmitting {
        return None;
      }
      ratingSubmitting := true;
      var variant := if context == Loan then mode else "faq";
      insert := Some(RatingInsert(email.value, variant, score));
    }

    /** `handleRating` after the insert: submitting ends on every path; a failed insert
        changes nothing else; a stored rating closes the rating prompt, opens the
        feedback prompt and adds the two bot messages. */
    method FinishRating(score: int, stored: bool)
      requires Valid()
      modifies this`ratingSubmitting, this`ratingGiven, this`ratingPending, this`feedbackPending, this`messages
      ensures Valid()
      ensures !ratingSubmitting
      ensures !stored ==>
        && ratingGiven == old(ratingGiven) && ratingPending == old(ratingPending)
        && feedbackPending == old(feedbackPending) && messages == old(messages)
      ensures stored ==>
        && ratingGiven == Some(score) && !ratingPending && feedbackPending
        && messages == old(messages) + [Message(Bot, RatingThanks(score)), Message(Bot, AskExplain)]
    {
      ratingSubmitting := false;
      if !stored {
        return;
      }
      ratingGiven := Some(score);
      ratingPending := false;
      feedbackPending := true;
      messages := messages + [Message(Bot, RatingThanks(score)), Message(Bot, AskExplain)];
    }

    /** `submitFeedback` up to the lookup of the latest rating: blank feedback is
        ignored; otherwise marks the feedback as submitting and returns the text the
        handler holds on to. */
    method BeginFeedback() returns (text: Option<string>)
      modifies this`feedbackSubmitting
      ensures AllSpace(feedback) <==> text.None?
      ensures text.None? ==> feedbackSubmitting == old(feedbackSubmitting)
      ensures text.Some? ==> text.value == feedback && feedbackSubmitting
    {
      TrimEmptyIffBlank(feedback);
      if Trim(feedback) == "" {
        return None;
      }
      feedbackSubmitting := true;
      text := Some(feedback);
    }

    /** `submitFeedback` after the lookup, as written: when no latest rating is found it
        returns with the feedback still marked as submitting. */
    method FinishFeedbackAsWritten(text: string, found: bool)
      requires Valid()
      modifies this`feedbackSubmitting, this`feedbackPending, this`messages, this`feedback
      ensures Valid()
      ensures !found ==>
        && feedbackSubmitting == old(feedbackSubmitting) && feedbackPending == old(feedbackPending)
        && messages == old(messages) && feedback == old(feedback)
      ensures found ==>
        && !feedbackSubmitting && !feedbackPending && feedback == ""
        && messages == old(messages) + [Message(User, text), Message(Bot, ThankFeedback)]
    {
      if !found {
        return;
      }
      feedbackSubmitting := false;
      feedbackPending := false;
      messages := messages + [Message(User, text), Message(Bot, ThankFeedback)];
      feedback := "";
    }

    /** `submitFeedback` after the lookup, with the submitting mark cleared on the early
        return too, so that the Submit button is enabled again. */
    method FinishFeedback(text: string, found: bool)
      requires Valid()
      modifies this`feedbackSubmitting, this`feedbackPending, this`messages, this`feedback
      ensures Valid()
      ensures !feedbackSubmitting
      ensures !found ==>
        feedbackPending == old(feedbackPending) && messages == old(messages) && feedback == old(feedback)
      ensures found ==>
        && !feedbackPending && feedback == ""
        && messages == old(messages) + [Message(User, text), Message(Bot, ThankFeedback)]
    {
      feedbackSubmitting := false;
      if !found {
        return;
      }
      feedbackPending := false;
      messages := messages + [Message(User, text), Message(Bot, ThankFeedback)];
      feedback := "";
    }

    /** `skipFeedback`: closes the feedback prompt with one bot message. */
    method SkipFeedback()
      requires Valid()
      modifies this`feedbackPending, this`messages
      ensures Valid()
      ensures !feedbackPending && messages == old(messages) + [Message(Bot, Skipped)]
    {
      feedbackPending := false;
      messages := messages + [Message(Bot, Skipped)];
    }

    /** `load`, given the stored history of a signed-in user (`None` when the query gave
        no data): the greeting followed by the history; a history that ends with a loan
        decision reopens the loan rating. Without a signed-in user nothing happens. */
    method RestoreHistory(past: Option<seq<Message>>)
      requires Valid()
      modifies this`messages, this`context, this`ratingPending
      ensures Valid()
      ensures !Truthy(email) ==>
        messages == old(messages) && context == old(context) && ratingPending == old(ratingPending)
      ensures Truthy(email) ==> messages == Restored(greeting, past)
      ensures Truthy(email) && EndsWithLoanDecision(past) ==> context == Loan && ratingPending
      ensures Truthy(email) && !EndsWithLoanDecision(past) ==>
        context == old(context) && ratingPending == old(ratingPending)
    {
      if email.None? || email.value == "" {
        return;
      }
      if past.None? || past.value == [] {
        messages := greeting;
        return;
      }
      messages := greeting + past.value;
      var last := past.value[|past.value| - 1];
      if StartsWith(last.text, "Loan Decision") {
        context := Loan;
        ratingPending := true;
      }
    }

    /** `fetchMode`, given the reply's `mode` and `role` (both `None` when the request
        failed): a truthy mode is adopted and stored, a truthy role is adopted. */
    method ApplyModeReply(newMode: Option<string>, role: Option<string>)
      modifies this`mode, this`storedMode, this`userRole
      ensures Truthy(email) && Truthy(newMode) ==> mode == newMode.value && storedMode == newMode
      ensures !(Truthy(email) && Truthy(newMode)) ==> mode == old(mode) && storedMode == old(storedMode)
      ensures Truthy(email) && Truthy(role) ==> userRole == role.value
      ensures !(Truthy(email) && Truthy(role)) ==> userRole == old(userRole)
    {
      if email.None? || email.value == "" {
        return;
      }
      if newMode.Some? && newMode.value != "" {
        mode := newMode.value;
        storedMode := newMode;
      }
      if role.Some? && role.value != "" {
        userRole := role.value;
      }
    }
  }

  /** A rating whose insert succeeds, followed by feedback whose rating lookup finds no
      row: with the handler as written the feedback stays marked as submitting while
      its prompt stays open, so its Submit button stays disabled; with the corrected
      handler it does not. */
  method FeedbackLookupMiss() returns (asWritten: ChatPage, corrected: ChatPage)
    ensures asWritten.feedbackPending && asWritten.feedbackSubmitting
    ensures corrected.feedbackPending && !corrected.feedbackSubmitting
  {
    asWritten := new ChatPage(Some("user@example.com"), None);
    var _ := asWritten.BeginRating(4);
    asWritten.FinishRating(4, true);
    asWritten.SetFeedback("clear enough");
    assert !IsJsSpace(asWritten.feedback[0]);
    var text := asWritten.BeginFeedback();
    asWritten.FinishFeedbackAsWritten("clear enough", false);

    corrected := new ChatPage(Some("user@example.com"), None);
    var _ := corrected.BeginRating(4);
    corrected.FinishRating(4, true);
    corrected.SetFeedback("clear enough");
    assert !IsJsSpace(corrected.feedback[0]);
    text := corrected.BeginFeedback();
    corrected.FinishFeedback("clear enough", false);
  }
}
