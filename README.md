# TrustAI loan advisor: verified model of the analytics, chat and form logic

This project is a Dafny model of the logic of the TrustAI web front end. TrustAI is a
loan-eligibility chatbot with an admin dashboard that analyses a trust survey. The
model covers five parts:

- **Admin analytics** (`src/app/admin/page.tsx`), in three modules:
  - `AdminAggregates`: the per-variant filter, the mean, the overview counts, the
    six-dimension mean vectors, the 1–5 trust distribution and the admin gate.
  - `WordCloud`: the top-40 word list. The counting loop is an imperative method
    proved against specification functions. A stable sort by descending count
    (`StableSort`) keeps ties in JavaScript property order.
  - `CsvExport`: the CSV export. It comes with a decoder for exactly that format, so
    the export can be shown to lose nothing.
- **Chat screen** (`src/app/chat/page.tsx`): the class `ChatScreen.ChatPage`, whose
  fields are the React state. Each handler is a method. A handler that awaits the
  backend or the database is split at the `await` into a `Begin…` method and a
  `Finish…` method, and the answer it awaited is a parameter of the second.
- **Message formatter** (`src/components/chat/ChatMessages.tsx`): the marker test and
  the three `replace` rewrites, as pure functions (`ChatMessages`).
- **Loan form** (`src/app/loan-form/page.tsx`): the single-field update, the ordered
  range checks and the posted payload. `LoanForm.LoanFormPage` holds the form state.
- **Survey dialog** (`src/components/survey/SurveyModal.tsx`): the score record, the
  all-answered test, the submit rule and the payload (`SurveyModal`).

Shared pieces:
- `Text` holds JavaScript's `trim`, with its whitespace set, and the number
  formatting.
- `Wrappers` holds the `Option` type.

Every numeric field of the source is modelled as an integer, and the mean as a real.

## Model

| member | source | states |
|---|---|---|
| AdminAggregates.ByVariant | src/app/admin/page.tsx:87 | the result holds exactly the rows of the given variant and is no longer than the input; no rows give none |
| AdminAggregates.ByVariantAppend | src/app/admin/page.tsx:87 | filtering distributes over concatenation, so the rows keep their original order |
| AdminAggregates.ByVariantMultiplicity | src/app/admin/page.tsx:87 | each row of the variant appears as often as in the input, and other rows not at all |
| AdminAggregates.Sum | src/app/admin/page.tsx:89 | the `reduce((a, b) => a + b, 0)` total; its meaning is stated by SumAppend, SumPermutation and SumBounds |
| AdminAggregates.SumAppend | src/app/admin/page.tsx:89 | the total of two lists placed end to end is the sum of their totals |
| AdminAggregates.SumPermutation | src/app/admin/page.tsx:89 | reordering the values does not change the total |
| AdminAggregates.SumBounds | src/app/admin/page.tsx:89 | n values in [lo, hi] total between lo·n and hi·n |
| AdminAggregates.VariantsPartition | src/app/admin/page.tsx:36-95 | the two variants partition the rows: baseline count plus xai count is the total |
| AdminAggregates.Mean | src/app/admin/page.tsx:88-89 | the mean of no values is 0; otherwise the mean times the length is the sum |
| AdminAggregates.MeanPermutation | src/app/admin/page.tsx:88-89 | reordering the values does not change the mean |
| AdminAggregates.MeanBounds | src/app/admin/page.tsx:88-89 | the mean of values in [lo, hi] lies in [lo, hi]; one value is its own mean |
| AdminAggregates.Emails | src/app/admin/page.tsx:91 | an email is in the set exactly when some row carries it; its size is the unique-user count, bounded by EmailsAtMostRows |
| AdminAggregates.EmailsAtMostRows | src/app/admin/page.tsx:91 | there are at most as many distinct users as rows, and at least one when there are rows |
| AdminAggregates.SampleOverview | src/app/admin/page.tsx:91-95 | the total is the row count, `baselineN` and `xaiN` are the sizes of the baseline and xai filters and add up to it, the unique users are the number of distinct emails, at most the total and at least 1 when there is a row |
| AdminAggregates.MeanTrust | src/app/admin/page.tsx:98-99 | the mean trust score of one variant's rows; DimensionMeans states that it is the first of the six means |
| AdminAggregates.Column | src/app/admin/page.tsx:124-134 | one score per row, in row order, read from the named dimension |
| AdminAggregates.DimensionMeans | src/app/admin/page.tsx:98-134 | exactly six means in the order trust, reasoning, accuracy, understanding, repeat usage, comfort; entry i is the mean of dimension i over the variant's rows; the first is the mean trust |
| AdminAggregates.DimensionMeansInRange | src/app/admin/page.tsx:124-134 | with no rows of the variant every mean is 0, otherwise every mean of 1–5 scores lies in [1, 5] |
| AdminAggregates.ColumnPermutation | src/app/admin/page.tsx:124-134 | reordering the rows permutes each column |
| AdminAggregates.DimensionMeansOrderFree | src/app/admin/page.tsx:124-134 | the six means do not depend on the order of the rows |
| AdminAggregates.CountTrust | src/app/admin/page.tsx:165-171 | the number of rows with the given trust score; Distribution states that bucket i is this count for i + 1 over the variant's rows |
| AdminAggregates.Distribution | src/app/admin/page.tsx:165-171 | five buckets; bucket i counts the variant's rows whose trust score is i + 1 |
| AdminAggregates.BucketTotalBound | src/app/admin/page.tsx:165-171 | the buckets hold at most all rows, and all of them exactly when every trust score is in 1..5 |
| AdminAggregates.DistributionTotal | src/app/admin/page.tsx:165-171 | the five buckets add up to at most the variant's row count, with equality exactly when all its trust scores are in 1..5 |
| AdminAggregates.IsAdmin | src/app/admin/page.tsx:62 | a session email that is non-empty and on the admin list; RenderedScreen states which screen follows from it |
| AdminAggregates.RenderedScreen | src/app/admin/page.tsx:60-65 | the dashboard shows only for a signed-in admin once permissions and data are loaded; "Access denied" shows exactly when the gate redirects to the chat |
| WordCloud.Lower | src/app/admin/page.tsx:213 | same length, every character mapped by the A–Z lower-casing |
| WordCloud.Clean | src/app/admin/page.tsx:214 | same length; a–z, 0–9 and whitespace are kept and every other character becomes a space, so only those characters remain |
| WordCloud.SplitOnSpace | src/app/admin/page.tsx:215 | at least one piece, and no piece holds whitespace |
| WordCloud.SplitOnSpaceRebuilds | src/app/admin/page.tsx:215 | the pieces, joined by non-empty whitespace runs (one fewer than the pieces), give back the text; with the pieces free of whitespace and SplitOnSpaceInnerPieces, the pieces are exactly those between maximal whitespace runs, with an empty piece only at a leading or trailing run |
| WordCloud.SplitOnSpaceInnerPieces | src/app/admin/page.tsx:215 | every piece but the first and the last is non-empty |
| WordCloud.Words | src/app/admin/page.tsx:213-216 | the lower-cased, cleaned, split and filtered words of one comment, in order; WordsValid states what they are |
| WordCloud.WordsValid | src/app/admin/page.tsx:212-216 | every word of a comment is longer than 2, made of a–z and 0–9, and not a stop word |
| WordCloud.RowWords | src/app/admin/page.tsx:211-216 | a null or empty comment gives no word, any other comment its words; NoCommentsNoWords states the consequence |
| WordCloud.AllWords | src/app/admin/page.tsx:210-216 | the words of every row, in the order the loop meets them; AllWordsValid and NoCommentsNoWords state what they are |
| WordCloud.AllWordsValid | src/app/admin/page.tsx:210-216 | the same holds for the words of all comments |
| WordCloud.NoCommentsNoWords | src/app/admin/page.tsx:211 | rows whose comments are all null or empty count no word and give an empty cloud |
| WordCloud.Freq | src/app/admin/page.tsx:203-217 | the corrected counting, every word counted from 0 (the corrected half of the `constructor` finding); it equals JsFreq, the counting as written, when no word is `constructor` (JsFreqAgrees); FreqCounts states what it holds |
| WordCloud.FirstOccurrences | src/app/admin/page.tsx:217 | the dictionary's key insertion order; FirstOccurrencesDistinct states what it is |
| WordCloud.FirstOccurrencesDistinct | src/app/admin/page.tsx:217 | the insertion order lists exactly the words seen, each once |
| WordCloud.FreqCounts | src/app/admin/page.tsx:203-217 | the counted words are exactly the words seen, and each count is the word's number of occurrences |
| WordCloud.CountWords | src/app/admin/page.tsx:217 | the in-place counting loop, with the corrected count from 0, leaves the counts and the key insertion order of the words seen so far followed by the new words |
| WordCloud.TopWords | src/app/admin/page.tsx:202-229 | the imperative top-words computation, with the corrected count from 0, yields exactly the specified cloud |
| WordCloud.PropertyOrder | src/app/admin/page.tsx:220 | `Object.entries` key order: array-index keys in ascending value, then the other keys in insertion order; PropertyOrderPermutation states the first half, PropertyOrderOthers and OtherKeysInOrder the second |
| WordCloud.PropertyOrderPermutation | src/app/admin/page.tsx:220 | property order is a rearrangement of the keys in which array-index keys come first, in ascending value |
| WordCloud.PropertyOrderKeys | src/app/admin/page.tsx:220 | for distinct keys, property order holds each key exactly once |
| WordCloud.PropertyOrderOthers | src/app/admin/page.tsx:220 | after the array-index keys, property order lists exactly the other keys |
| WordCloud.OtherKeysInOrder | src/app/admin/page.tsx:220 | the other keys are exactly the keys that are not array indices, each at an increasing position of the insertion order, every such key included |
| WordCloud.RankEntries | src/app/admin/page.tsx:220 | the entries in property order, stably sorted by descending count; every ranked count is at least 1, and RankedEntries states the order |
| WordCloud.RankedEntries | src/app/admin/page.tsx:220 | the ranked entries are exactly (word, occurrences) for the words seen, each word once, counts non-increasing, and words of equal count keep their property order |
| WordCloud.Take | src/app/admin/page.tsx:220 | `.slice(0, 40)`: a prefix of the entries, all of them when there are at most 40, else exactly 40 |
| WordCloud.FontSize | src/app/admin/page.tsx:226 | `12 + Math.round((count / max) * 22)` with round-half-up in integers; FontSizeBounds states its range |
| WordCloud.FontSizeBounds | src/app/admin/page.tsx:226 | a size lies in [12, 34] and the maximal count gets 34 |
| WordCloud.Weigh | src/app/admin/page.tsx:221-228 | one weighted word per entry, with the entry's word and count; sizes in [12, 34] for entries by descending count, and 34 for the first |
| WordCloud.TopWordsOf | src/app/admin/page.tsx:202-229 | the cloud of a snapshot; TopWordsProperties and TopWordsComplete state what it is |
| WordCloud.TopWordsSized | src/app/admin/page.tsx:220-226 | at most 40 words, each sized in [12, 34], the first at 34 |
| WordCloud.TopWordsCounted | src/app/admin/page.tsx:210-220 | every word shown is a valid word of the comments, with its number of occurrences |
| WordCloud.TopWordsOrdered | src/app/admin/page.tsx:220 | the words shown are distinct and their counts non-increasing |
| WordCloud.TopWordsEmpty | src/app/admin/page.tsx:202-229 | the cloud is empty exactly when no comment has a counted word |
| WordCloud.TopWordsProperties | src/app/admin/page.tsx:220-228 | at most 40 entries; every entry is a valid word of the comments with its true count and a size in [12, 34]; words are distinct and counts non-increasing; the first size is 34; the list is empty only without words |
| WordCloud.TopWordsComplete | src/app/admin/page.tsx:220 | a word left out of the list means the list is full and every listed word is at least as frequent |
| WordCloud.JsFreq | src/app/admin/page.tsx:203-217 | the counting loop over a plain JavaScript object, where `freq[w]` can read an inherited property; JsFreqAgrees and ConstructorCountedAsString state what it gives |
| WordCloud.JsFreqAgrees | src/app/admin/page.tsx:203-217 | without the word `constructor` the JavaScript object counts agree with the word counts |
| WordCloud.ConstructorCountedAsString | src/app/admin/page.tsx:203-217 | the word `constructor` is counted as a string built from the inherited `Object` function, not as a number |
| WordCloud.ConstructorIsAWord | src/app/admin/page.tsx:212-216 | the comment `constructor` yields that word |
| StableSort.SortPermutation | src/app/admin/page.tsx:220 | sorting is a permutation |
| StableSort.SortSorted | src/app/admin/page.tsx:220 | the result has non-increasing counts |
| StableSort.SortStable | src/app/admin/page.tsx:220 | the entries with any one count keep their relative order |
| CsvExport.FieldNamed | src/app/admin/page.tsx:241 | the row property with the given header name, a null comment read as `''`; Fields and NullCommentAsEmpty state it |
| CsvExport.Fields | src/app/admin/page.tsx:233-241 | each row gives twelve fields, one per header name, in header order |
| CsvExport.FieldsDetermineRow | src/app/admin/page.tsx:241 | two rows with equal fields are equal, except that a null comment and an empty one look alike |
| CsvExport.NullCommentAsEmpty | src/app/admin/page.tsx:241 | a null comment is exported as `""`, the same as an empty one |
| CsvExport.EscapeChar | src/app/admin/page.tsx:241 | one character as `JSON.stringify` escapes it: never empty, and a single character exactly when it is the character itself; EscapeCharDecodes states that it reads back |
| CsvExport.EscapeCharDecodes | src/app/admin/page.tsx:241 | decoding the escape of one character followed by any text gives that character in front of what the text decodes to |
| CsvExport.Escape | src/app/admin/page.tsx:241 | the body of a JSON string literal; EscapeDecodes and EscapeNoNewline state what it is |
| CsvExport.Stringify | src/app/admin/page.tsx:241 | `JSON.stringify` of a number or a string; FieldDecodes and StringifyNoNewline state what it is |
| CsvExport.FieldDecodes | src/app/admin/page.tsx:241 | decoding a stringified field followed by a comma or the end of the line gives back the field |
| CsvExport.IntDecodes | src/app/admin/page.tsx:241 | the decimal text of any integer, followed by a comma or the end of the line, reads back as that integer |
| CsvExport.EscapeDecodes | src/app/admin/page.tsx:241 | unescaping a `JSON.stringify`-escaped string body gives back the original string and the rest of the text |
| CsvExport.FieldsDecode | src/app/admin/page.tsx:241 | decoding a comma-joined line of encoded fields gives back the fields |
| CsvExport.RowLineNoNewline | src/app/admin/page.tsx:241 | a data line holds no raw newline |
| CsvExport.SplitJoin | src/app/admin/page.tsx:239-242 | splitting newline-joined lines that hold no newline gives back the lines |
| CsvExport.Csv | src/app/admin/page.tsx:232-242 | the exported text: the header line, then one line per row, joined by newlines; ExportRoundTrip states what it holds |
| CsvExport.ExportRoundTrip | src/app/admin/page.tsx:232-242 | the export has exactly one line more than there are rows, its first line is the twelve header names joined by commas, and decoding it gives back every row's fields |
| ChatMessages.Formatted | src/components/chat/ChatMessages.tsx:33-36 | the text contains `**Decision`, `**Main` or `**Conclusion` |
| ChatMessages.Close | src/components/chat/ChatMessages.tsx:40 | a found close is a `**` with no line terminator and no earlier `**` before it |
| ChatMessages.CloseNone | src/components/chat/ChatMessages.tsx:40 | when no close is found, no `**` starts before the first line terminator |
| ChatMessages.Bold | src/components/chat/ChatMessages.tsx:40 | the bold rewrite; BoldSpan, BoldSpanAfter, BoldUnclosed and BoldIdentity state what it does |
| ChatMessages.Bullets | src/components/chat/ChatMessages.tsx:41 | the bullet rewrite; BulletsNoDashSpace and BulletsIdentity state what it does |
| ChatMessages.Breaks | src/components/chat/ChatMessages.tsx:42 | the line-break rewrite; BreaksNoNewline and BreaksIdentity state what it does |
| ChatMessages.Html | src/components/chat/ChatMessages.tsx:38-43 | the three rewrites for a formatted text, the text itself otherwise; FormattedHtml states what it gives |
| ChatMessages.Bubbles | src/components/chat/ChatMessages.tsx:32-52 | one bubble per message, in order, with the message's sender; formatted exactly when the text holds one of the three markers; a formatted message shows its rewritten HTML and any other its text unchanged |
| ChatMessages.FormattedBubbles | src/components/chat/ChatMessages.tsx:32-52 | no formatted bubble holds a line feed or `- ` |
| ChatMessages.BoldSpan | src/components/chat/ChatMessages.tsx:40 | a leading `**x**`, with x the shortest span on one line, becomes `<b>x</b>` and the rewrite continues after it |
| ChatMessages.BoldKeepsPlain | src/components/chat/ChatMessages.tsx:40 | leading text without `*` is copied and the rewrite carries on after it |
| ChatMessages.BoldAfterPlain | src/components/chat/ChatMessages.tsx:40 | text without `*` placed before any text is copied, and the rest is rewritten as on its own |
| ChatMessages.BoldSpanAfter | src/components/chat/ChatMessages.tsx:40 | a `**x**` span after text without `*` becomes `<b>x</b>` after that text |
| ChatMessages.CloseMissing | src/components/chat/ChatMessages.tsx:40 | text without `*` up to the end or a line terminator holds no close |
| ChatMessages.BoldUnclosed | src/components/chat/ChatMessages.tsx:40 | a `**` with no close on its line is kept as written, together with the rest of that line up to the end of the text or the next line terminator, and the rewrite goes on from there |
| ChatMessages.CloseSuffix | src/components/chat/ChatMessages.tsx:40 | with no close from a position, none is found from any later position on the same line |
| ChatMessages.BoldKeepsLine | src/components/chat/ChatMessages.tsx:40 | leading characters in which no `**` has a close are copied, and the rewrite carries on after them |
| ChatMessages.BulletsNoDashSpace | src/components/chat/ChatMessages.tsx:41 | no `- ` is left after the bullet rewrite |
| ChatMessages.BreaksNoNewline | src/components/chat/ChatMessages.tsx:42 | no line feed is left after the break rewrite, and each one became five characters |
| ChatMessages.BreaksIdentity | src/components/chat/ChatMessages.tsx:42 | text without a line feed is unchanged by the break rewrite |
| ChatMessages.BulletsIdentity | src/components/chat/ChatMessages.tsx:41 | text without `- ` is unchanged by the bullet rewrite |
| ChatMessages.BoldIdentity | src/components/chat/ChatMessages.tsx:40 | text without `**` is unchanged by the bold rewrite |
| ChatMessages.FormattedHtml | src/components/chat/ChatMessages.tsx:38-43 | a formatted message's HTML holds neither a line feed nor `- ` |
| Text.Trim | src/app/chat/page.tsx:145 | JavaScript `trim`; TrimSlice and TrimEmptyIffBlank state what it gives |
| Text.TrimStartDrops | src/app/chat/page.tsx:145 | removing leading whitespace drops only whitespace and stops at a non-space character |
| Text.TrimEndDrops | src/app/chat/page.tsx:145 | removing trailing whitespace drops only whitespace and stops at a non-space character |
| Text.TrimEmptyIffBlank | src/app/chat/page.tsx:221 | the trimmed text is empty exactly when the text is all whitespace |
| Text.TrimSlice | src/app/chat/page.tsx:145 | the trimmed text is a slice of the input with only whitespace before and after it, and it neither starts nor ends with whitespace |
| Text.NonBlank | src/app/chat/page.tsx:145-146 | the trimmed text, or nothing when it is empty; NonBlankRefusesBlank states it |
| Text.NonBlankRefusesBlank | src/app/chat/page.tsx:145-146 | blank text gives nothing, any other text its trimmed form, which neither starts nor ends with whitespace |
| Text.IntToString | src/app/chat/page.tsx:211 | the decimal text of an integer: digits whose value is the number, after a `-` for a negative one |
| Text.NatToStringValue | src/app/chat/page.tsx:211 | the digits of a natural number read back as that number |
| Text.IntToStringInjective | src/app/chat/page.tsx:211 | different integers have different decimal texts |
| ChatScreen.Greeting | src/app/chat/page.tsx:30-33 | the conversation opens with two bot messages |
| ChatScreen.InitialMode | src/app/chat/page.tsx:50-53 | the start-up mode is the stored mode when it is non-empty, else `xai` |
| ChatScreen.Toggled | src/app/chat/page.tsx:59 | the new mode is `xai` or `baseline` and differs from a valid old one |
| ChatScreen.ToggleTwice | src/app/chat/page.tsx:58-62 | toggling twice restores either mode; any other stored value becomes `xai` |
| ChatScreen.RatingVariant | src/app/chat/page.tsx:188 | the rating's variant is the mode after a loan decision and `faq` otherwise |
| ChatScreen.RatingThanks | src/app/chat/page.tsx:211 | the thank-you message is `Thanks! Your trust rating (`, the score's decimal text, then `/5) was recorded.` |
| ChatScreen.RatingThanksReportsScore | src/app/chat/page.tsx:211 | two scores with the same thank-you message are equal, so the message tells the score |
| ChatScreen.ReplyText | src/app/chat/page.tsx:160-179 | the bot answers with a non-empty answer, else with the no-answer message, or with the backend-error message when the request failed |
| ChatScreen.Restored | src/app/chat/page.tsx:85-95 | restored messages are the greeting followed by the stored history, and only the greeting when there is none |
| ChatScreen.ChatPage.constructor | src/app/chat/page.tsx:30-55 | the initial state: the two-message greeting kept as the page's `initialGreeting`, empty input, no flag set, the stored or default mode, role `user` |
| ChatScreen.ChatPage.SetInput | src/app/chat/page.tsx:36 | typing sets the input to the typed text and changes nothing else |
| ChatScreen.ChatPage.SetFeedback | src/app/chat/page.tsx:48 | typing sets the feedback text and changes nothing else |
| ChatScreen.ChatPage.ToggleMode | src/app/chat/page.tsx:58-62 | switches the mode and stores the new one |
| ChatScreen.ChatPage.BeginSend | src/app/chat/page.tsx:144-151 | blank input changes nothing; otherwise the trimmed text is appended as the user's message, the input is cleared and the bot is thinking; the greeting is kept |
| ChatScreen.ChatPage.FinishSend | src/app/chat/page.tsx:153-179 | thinking ends on every path and one bot message is appended; only a non-empty answer sets the FAQ context and opens a rating |
| ChatScreen.ChatPage.BeginRating | src/app/chat/page.tsx:183-201 | without a user or while submitting nothing happens; otherwise submitting is set and the insert carries the user, the variant and the score |
| ChatScreen.ChatPage.FinishRating | src/app/chat/page.tsx:203-216 | submitting ends on every path; a failed insert changes nothing else; a stored one records the score, closes the rating, opens feedback and appends exactly two bot messages |
| ChatScreen.ChatPage.BeginFeedback | src/app/chat/page.tsx:220-222 | blank feedback is ignored; otherwise the feedback is marked as submitting |
| ChatScreen.ChatPage.FinishFeedbackAsWritten | src/app/chat/page.tsx:224-248 | with no rating found nothing changes, so feedback stays marked as submitting; otherwise the prompt closes, the feedback and a thank-you are appended and the box is cleared |
| ChatScreen.ChatPage.FinishFeedback | src/app/chat/page.tsx:224-248 | as above, except that submitting ends on every path |
| ChatScreen.ChatPage.SkipFeedback | src/app/chat/page.tsx:250-255 | closes the feedback prompt and appends exactly the one bot message "Feedback skipped." |
| ChatScreen.ChatPage.RestoreHistory | src/app/chat/page.tsx:76-101 | without a user nothing happens; otherwise the messages become the greeting plus the history, and only a history ending in "Loan Decision…" sets the loan context and opens a rating |
| ChatScreen.ChatPage.ApplyModeReply | src/app/chat/page.tsx:109-128 | with a user, a non-empty mode is adopted and stored and a non-empty role adopted; anything else is kept |
| ChatScreen.FeedbackLookupMiss | src/app/chat/page.tsx:220-248 | after a stored rating and a feedback whose lookup finds no rating, the handler as written leaves the prompt open and submitting set; the corrected one clears submitting |
| LoanForm.With | src/app/loan-form/page.tsx:20-26 | the named field takes the value, the other five are kept |
| LoanForm.LoanFormPage.HandleChange | src/app/loan-form/page.tsx:20-26 | the form becomes the old form with the one field replaced |
| LoanForm.Validate | src/app/loan-form/page.tsx:37-50 | the checks run in order and the first failing one picks the alert; the amounts alert exactly for a negative amount, the term alert exactly for valid amounts and a term outside 1..12, the score alert exactly when only the score is outside 300..900; no alert exactly when all pass |
| LoanForm.PayloadOf | src/app/loan-form/page.tsx:58-65 | the payload carries exactly the six form fields |
| LoanForm.PostedPayloadInRange | src/app/loan-form/page.tsx:37-65 | a form that passes the checks posts amounts ≥ 0, a term in 1..12 and a score in 300..900 |
| LoanForm.EmptyFormRefused | src/app/loan-form/page.tsx:9-45 | the untouched form is refused for its repayment duration |
| LoanForm.LoanFormPage.BeginSubmit | src/app/loan-form/page.tsx:28-65 | a failing check raises its alert and leaves loading as it was; a passing form sets loading and posts its payload |
| LoanForm.LoanFormPage.FinishSubmit | src/app/loan-form/page.tsx:68-83 | loading ends on every path; a non-empty prediction is saved and leads to the chat; a reply without one, or a failed request, raises its alert and saves nothing |
| SurveyModal.SetVal | src/components/survey/SurveyModal.tsx:36-37 | the named score takes the value, the other four are kept |
| SurveyModal.SurveyDialog.SetScore | src/components/survey/SurveyModal.tsx:36-37 | the dialog's scores become the old ones with the one score set |
| SurveyModal.AllAnswered | src/components/survey/SurveyModal.tsx:39 | all five scores are set; AllAnsweredIffEveryKey states it |
| SurveyModal.AllAnsweredIffEveryKey | src/components/survey/SurveyModal.tsx:27-39 | the survey is answered exactly when every score is set; the initial scores are not |
| SurveyModal.AnsweringAllRows | src/components/survey/SurveyModal.tsx:36-39 | setting all five scores answers the survey |
| SurveyModal.RowChoiceKeepsRange | src/components/survey/SurveyModal.tsx:106-108 | scores chosen through the rows stay in 1..5 |
| SurveyModal.SurveyDialog.SetComment | src/components/survey/SurveyModal.tsx:34 | typing sets the comment and changes nothing else |
| SurveyModal.SubmitDisabled | src/components/survey/SurveyModal.tsx:83 | Submit is enabled exactly when all scores are set and nothing is loading |
| SurveyModal.SurveyDialog.Submit | src/components/survey/SurveyModal.tsx:80-83 | a disabled button submits nothing; otherwise the payload holds the scores and the trimmed comment, or no feedback when the comment is blank |

## Left out

- I/O is not modelled. This covers:
  - the Supabase queries and inserts, and the fire-and-forget `saveMessage`;
  - the FAQ, mode and `/predict` HTTP requests;
  - `localStorage` (except the stored mode and the saved prediction);
  - `alert`, router navigation and the Blob download of the CSV.
  
  Their results enter the model as parameters: `FaqReply`, the `stored` and `found`
  flags, `PredictResponse`, the history, and the mode and role replies.
- Rendering, charts, colours, scrolling and the word `opacity` are not modelled. They
  are presentation, not state.
- The session hook and the sign-out are not part of this model. The signed-in email
  is a constant of `ChatPage` and a parameter of the admin gate.
- Concurrency is not modelled. The `Begin…`/`Finish…` pairs are taken to run without
  another handler in between, and React's batching of updates is not modelled.
- `lastResult` on the chat page is never set. The rating insert therefore always
  carries null prediction and explanation, and `RatingInsert` omits them.
- The chat page hands its input a `sendMessage` property, while `ChatInput` calls
  `onSend` (src/app/chat/page.tsx:292). The model takes `BeginSend` as what a send
  does; it does not model the property wiring.
- Integers are unbounded. JavaScript numbers are doubles: integers beyond 2^53 are
  already rounded in the source, and from 10^21 up `String` and `JSON.stringify` write
  them in exponent form. The model's decimal rendering (`Text.IntToString`) and the
  export's number fields agree with the source only for magnitudes below 2^53.
- AdminAggregates.Mean: computed over exact reals, not IEEE doubles, so rounding of
  the float division is not modelled.
- WordCloud.FontSize: uses the integer round-half-up formula `12 + (44·count + max) /
  (2·max)` in place of `Math.round` on a float, which agrees except for
  floating-point error at exact halves.
- WordCloud.Lower: lower-cases only A–Z. The Unicode case mapping of `toLowerCase` is
  not modelled. Everything outside a–z and 0–9 becomes a space afterwards, so only
  characters whose lower case contains an ASCII letter or digit can differ. For
  example U+0130 'İ' lower-cases to "i" followed by a combining dot, so "abİ" gives
  the word "abi" in the source and "ab" (then dropped) in the model.
- Text.IsJsSpace: covers the JavaScript whitespace and line-terminator set. Lone
  surrogate code units are not modelled, because Dafny characters are Unicode scalar
  values; the same holds for `JSON.stringify`'s escaping of lone surrogates.
- LoanForm.Form: the fields are the integers `Number(...)` would give. Fractional
  values, and the `NaN` of non-numeric text (which passes every range check), are not
  modelled.
- LoanForm.LoanFormPage.FinishSubmit: saves the prediction itself, where the source
  stores the JSON text of the whole reply under `loan_result`.
- CsvExport.Field: every row property is present and has its declared type, so
  `?? ''` only affects the null comment.

## Findings

| source | as written | input that shows it | evidently intended | confidence | as-written member | corrected member |
|---|---|---|---|---|---|---|
| src/app/admin/page.tsx:203-217 | `freq` is a plain object, so `freq[w] \|\| 0` reads the inherited `Object.prototype.constructor` for the word `constructor`, and `+ 1` concatenates | a comment `constructor` gives the count `"function Object() { [native code] }1"`, a string, in the word cloud (and a `NaN` size) | every word counted from 0, so `constructor` gets the number 1 | high, not executed | WordCloud.ConstructorCountedAsString | WordCloud.JsFreqAgrees |
| src/app/chat/page.tsx:222-239 | `submitFeedback` sets `feedbackSubmitting` and returns early when no latest rating is found, without clearing it | a stored rating, then feedback "clear enough" whose rating lookup finds no row: the prompt stays open with submitting set, so its Submit button stays disabled | the submitting mark cleared on every path | medium, not executed | ChatScreen.ChatPage.FinishFeedbackAsWritten | ChatScreen.ChatPage.FinishFeedback |
