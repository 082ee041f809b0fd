# Quiz cursor and chat log of the Ciberabogados front end

This project models the two pieces of the front end that make decisions. Everything else in it is markup.

- **QuizBase** is the paginated quiz engine. It keeps a cursor into an ordered list of questions, a map of answers keyed by question id, and a validation message. Its handlers are the reset effect, `handleAnswerChange`, `handleNext` and `handlePrevious`. `handleNext` refuses to leave a required question whose answer is falsy in JavaScript (`undefined`, `''` or `false`). Otherwise it moves forward or, on the last question, hands the whole answer map to `onSubmit`.
- **ChatModal** is the LexIA chat window. It keeps a log of `{sender, text}` messages, the input text and the "LexIA is typing" flag. Its events are the open/close effect, typing into the input, `handleSendMessage`, and the firing of the timer that `fetchLexiaResponse` starts.

Both are imperative, so each is a class whose fields its handler methods update in place (`Quiz.QuizBase`, `Chat.ChatModal`). Each handler is proved against a pure function on a state value (`Quiz.Next`, `Chat.OnSend`, ...). Those functions' contracts state what the component promises. Lemmas over sequences of events (`Quiz.Run`, `Chat.Run`) state what holds across many events.

`onSubmit` is modelled as a record: each call appends the map it receives to the `submitted` field. The module `JsText` models the two JavaScript string operations involved: `String.prototype.trim`, with ECMAScript's set of white-space and line-terminator characters, and the text React renders for a non-negative integer placed in JSX, as in the progress label. JavaScript prints such a number as its plain decimal digits below 10^21 (in exponent form from there on); every cursor position and list length is far below that bound, so the model uses plain digits.

## How the reply timer is modelled

Each call of `fetchLexiaResponse` raises the typing flag and starts a 1500 ms timer that carries the user's text. All timers have the same delay, so they fire in the order they were started. The model keeps the texts of the running timers as a queue, `pending`. The firing of the oldest timer is an event of its own (`OnReply`, `ChatModal.ReplyArrives`) that may happen at any time. When it fires, an answer quoting that text is appended to the log as it is at that moment, and the typing flag is cleared.

Closing the modal does not cancel the timers, and the component stays mounted while closed. The model therefore allows the following, and proves it:

- A reply can land in the emptied log of a closed modal (`Chat.ReplyAfterCloseLands`).
- A reply from an earlier session can arrive after the modal is reopened. It then answers the first question of the new session and quotes the old one (`Chat.StaleReplyAnswersNextQuestion`).

Within a session that starts with no timer running, every user message is answered by the very next message, which quotes it, and the one reply still outstanding is for the last message (`Chat.SessionStaysOrderly`).

## Behaviour of the code that the model keeps

- ChatModal never cancels its timer when the modal closes or the component unmounts. The model keeps every running timer (see above).
- `handleAnswerChange` stores the value under whatever `name` the changed input has, so the answer keys need not be question ids. The model does the same. The quiz's guarantees are proved for the inputs `renderInput` actually draws, which are named after the current question's id (`Quiz.FromRenderedInput`).
- With an empty question list the cursor stays at 0, which is not inside the list. The invariant is therefore `index == 0 || index < |questions|` (`Quiz.Inv`).
- Nothing stops a second click of "Ver resultados". Every click on the last question with a valid answer calls `onSubmit` again, and the model records each call.
- The answers live in a plain object, so `answers[id]` for an id never answered but named like a member of `Object.prototype` (`constructor`, `toString`, `__proto__`, ...) reads that inherited member, which is truthy. The guard in `handleNext` then lets a required question with such an id pass unanswered. The model reads the answers the same way (`Quiz.Lookup`), so for such ids "answered" means "passes the guard" and the map handed to `onSubmit` may lack them.

## Model

| member | source | states |
|---|---|---|
| `JsText.TrimStart` | src/src/src/config/src/components/icons/src/components/layout/src/components/layout/src/components/ui/src/components/ui/ChatModal.js:78 | drops leading white space and never lengthens the input; what exactly it keeps is stated by `JsText.TrimStartSpec` |
| `JsText.TrimEnd` | src/src/src/config/src/components/icons/src/components/layout/src/components/layout/src/components/ui/src/components/ui/ChatModal.js:78 | drops trailing white space and never lengthens the input; what exactly it keeps is stated by `JsText.TrimEndSpec` |
| `JsText.Trim` | src/src/src/config/src/components/icons/src/components/layout/src/components/layout/src/components/ui/src/components/ui/ChatModal.js:78 | `input.trim()` is no longer than the input; `JsText.TrimIsSlice` pins down exactly what it keeps, `JsText.TrimEmptyIff` when it is empty, `JsText.TrimIdempotent` that it is idempotent |
| `JsText.TrimStartSpec` | src/src/src/config/src/components/icons/src/components/layout/src/components/layout/src/components/ui/src/components/ui/ChatModal.js:78 | the start-trimmed text is a suffix of the input, preceded only by white space, and does not start with white space |
| `JsText.TrimEndSpec` | src/src/src/config/src/components/icons/src/components/layout/src/components/layout/src/components/ui/src/components/ui/ChatModal.js:78 | the end-trimmed text is a prefix of the input, followed only by white space, and does not end with white space |
| `JsText.TrimIsSlice` | src/src/src/config/src/components/icons/src/components/layout/src/components/layout/src/components/ui/src/components/ui/ChatModal.js:78 | `trim` keeps one slice of the input, with only white space dropped on either side and no white space at either end of what is kept |
| `JsText.TrimEmptyIff` | src/src/src/config/src/components/icons/src/components/layout/src/components/layout/src/components/ui/src/components/ui/ChatModal.js:78-79 | the trimmed input is empty exactly when the input is all white space |
| `JsText.TrimIdempotent` | src/src/src/config/src/components/icons/src/components/layout/src/components/layout/src/components/ui/src/components/ui/ChatModal.js:78 | trimming a trimmed text changes nothing |
| `JsText.DigitChar` | src/src/src/config/src/components/icons/src/components/layout/src/components/layout/src/components/ui/src/components/ui/src/components/ui/QuizBase.js:117 | the digit printed for d is the character whose code is '0' + d |
| `JsText.Decimal` | src/src/src/config/src/components/icons/src/components/layout/src/components/layout/src/components/ui/src/components/ui/src/components/ui/QuizBase.js:117 | a number prints as a non-empty string of digits without leading zeros |
| `JsText.DecimalRoundTrip` | src/src/src/config/src/components/icons/src/components/layout/src/components/layout/src/components/ui/src/components/ui/src/components/ui/QuizBase.js:117 | reading the printed digits back gives the number |
| `JsText.DecimalInjective` | src/src/src/config/src/components/icons/src/components/layout/src/components/layout/src/components/ui/src/components/ui/src/components/ui/QuizBase.js:117 | different numbers print differently |
| `Quiz.Lookup` | src/src/src/config/src/components/icons/src/components/layout/src/components/layout/src/components/ui/src/components/ui/src/components/ui/QuizBase.js:43 | `answers[id]` reads the stored answer when there is one, else the inherited member when the id names one of `Object.prototype`, else `undefined` |
| `Quiz.Truthy` | src/src/src/config/src/components/icons/src/components/layout/src/components/layout/src/components/ui/src/components/ui/src/components/ui/QuizBase.js:43 | of the values the lookup can read, exactly `undefined`, `''` and `false` are falsy; an inherited member is truthy |
| `Quiz.Blocks` | src/src/src/config/src/components/icons/src/components/layout/src/components/layout/src/components/ui/src/components/ui/src/components/ui/QuizBase.js:43 | the validation guard holds exactly when the question is required and not answered: its stored answer is `''` or `false`, or it has none and its id names no inherited member |
| `Quiz.CurrentQuestion` | src/src/src/config/src/components/icons/src/components/layout/src/components/layout/src/components/ui/src/components/ui/src/components/ui/QuizBase.js:22 | there is a current question exactly when the cursor is inside the list, and it is the question under the cursor |
| `Quiz.Reset` | src/src/src/config/src/components/icons/src/components/layout/src/components/layout/src/components/ui/src/components/ui/src/components/ui/QuizBase.js:15-19 | whatever the prior state: cursor 0, no answers, no message, new list, and earlier submissions untouched |
| `Quiz.AnswerChange` | src/src/src/config/src/components/icons/src/components/layout/src/components/layout/src/components/ui/src/components/ui/src/components/ui/QuizBase.js:25-33 | the input's name maps to its value, or to its checked flag for a checkbox; every other key keeps its answer; the message is cleared; cursor, list and submissions unchanged |
| `Quiz.Next` | src/src/src/config/src/components/icons/src/components/layout/src/components/layout/src/components/ui/src/components/ui/src/components/ui/QuizBase.js:36-55 | no current question: nothing changes. Blocked: message set, cursor and submissions unchanged. The cursor moves (by exactly 1, staying inside the list) iff the question is not last and passes. A submission of the whole unchanged map is made (cursor unchanged) iff the question is last and passes. Answers never change. Keeps `Inv` |
| `Quiz.Previous` | src/src/src/config/src/components/icons/src/components/layout/src/components/layout/src/components/ui/src/components/ui/src/components/ui/QuizBase.js:58-63 | clears the message; moves back by one only from a positive index, so it never goes below 0; answers and submissions unchanged; keeps `Inv` |
| `Quiz.AnswerChangeKeepsInv` | src/src/src/config/src/components/icons/src/components/layout/src/components/layout/src/components/ui/src/components/ui/src/components/ui/QuizBase.js:25-33 | an answer change keeps the cursor in bounds and the message truthful |
| `Quiz.RunKeepsInv` | src/src/src/config/src/components/icons/src/components/layout/src/components/layout/src/components/ui/src/components/ui/src/components/ui/QuizBase.js:15-63 | after any sequence of events the cursor is in bounds and a message is shown only while the current question is required and unanswered |
| `Quiz.NavigationKeepsAnswers` | src/src/src/config/src/components/icons/src/components/layout/src/components/layout/src/components/ui/src/components/ui/src/components/ui/QuizBase.js:36-63 | any sequence of Next and Previous clicks leaves the answers intact, and whatever it submits is that unchanged map |
| `Quiz.StepKeepsPassedAnswered` | src/src/src/config/src/components/icons/src/components/layout/src/components/layout/src/components/ui/src/components/ui/src/components/ui/QuizBase.js:36-55 | with distinct ids, every event keeps the required questions before the cursor answered, and a submission it makes answers every required question |
| `Quiz.OnlyCompleteSubmissions` | src/src/src/config/src/components/icons/src/components/layout/src/components/layout/src/components/ui/src/components/ui/src/components/ui/QuizBase.js:43-53 | the quiz never submits partially: in one run over distinct ids that starts with the questions before the cursor answered, every map handed to `onSubmit` answers every required question, and earlier submissions stay as they were |
| `Quiz.FreshQuizSubmitsComplete` | src/src/src/config/src/components/icons/src/components/layout/src/components/layout/src/components/ui/src/components/ui/src/components/ui/QuizBase.js:14-55 | from any state, after the reset effect for a list with distinct ids, every map handed to `onSubmit` in the run that follows answers every required question of that list, and the earlier submissions are kept; mounting is the reset of a state with nothing submitted |
| `Quiz.ForwardLabel` | src/src/src/config/src/components/icons/src/components/layout/src/components/layout/src/components/ui/src/components/ui/src/components/ui/QuizBase.js:148 | the forward button reads "Siguiente" exactly when a question follows the current one, and "Ver resultados" otherwise |
| `Quiz.ForwardLabelMatchesNext` | src/src/src/config/src/components/icons/src/components/layout/src/components/layout/src/components/ui/src/components/ui/src/components/ui/QuizBase.js:148 | once validation passes, the label is "Siguiente" exactly when Next moves the cursor, and "Ver resultados" exactly when it submits |
| `Quiz.ProgressLabel` | src/src/src/config/src/components/icons/src/components/layout/src/components/layout/src/components/ui/src/components/ui/src/components/ui/QuizBase.js:117 | the label is "Pregunta ", the decimal digits of the 1-based position, " de ", and the decimal digits of the list length; each group of digits reads back as its number |
| `Quiz.LabelLayout` | src/src/src/config/src/components/icons/src/components/layout/src/components/layout/src/components/ui/src/components/ui/src/components/ui/QuizBase.js:117 | in "Pregunta x de y" the digits of x start at position 9 and a space follows them |
| `Quiz.LabelSplitUnique` | src/src/src/config/src/components/icons/src/components/layout/src/components/layout/src/components/ui/src/components/ui/src/components/ui/QuizBase.js:117 | a progress label splits into its two numbers in only one way |
| `Quiz.ProgressLabelDetermines` | src/src/src/config/src/components/icons/src/components/layout/src/components/layout/src/components/ui/src/components/ui/src/components/ui/QuizBase.js:117 | the label "Pregunta index+1 de length" determines both the position and the length |
| `Quiz.PreviousEnabled` | src/src/src/config/src/components/icons/src/components/layout/src/components/layout/src/components/ui/src/components/ui/src/components/ui/QuizBase.js:138 | "Anterior" is disabled exactly where handlePrevious would only clear the message, and enabled exactly where it moves the cursor back by one |
| `Quiz.QuizBase.constructor` | src/src/src/config/src/components/icons/src/components/layout/src/components/layout/src/components/ui/src/components/ui/src/components/ui/QuizBase.js:10-12 | mounting starts at cursor 0 with no answers, no message and nothing submitted |
| `Quiz.QuizBase.Current` | src/src/src/config/src/components/icons/src/components/layout/src/components/layout/src/components/ui/src/components/ui/src/components/ui/QuizBase.js:22 | the current question exists exactly while the cursor is inside the list |
| `Quiz.QuizBase.ChangeQuestions` | src/src/src/config/src/components/icons/src/components/layout/src/components/layout/src/components/ui/src/components/ui/src/components/ui/QuizBase.js:15-19 | the fields are reset as `Quiz.Reset` says |
| `Quiz.QuizBase.HandleAnswerChange` | src/src/src/config/src/components/icons/src/components/layout/src/components/layout/src/components/ui/src/components/ui/src/components/ui/QuizBase.js:25-33 | `answers` is overwritten at one key, `error` is cleared, the cursor is unchanged; matches `Quiz.AnswerChange` |
| `Quiz.QuizBase.HandleNext` | src/src/src/config/src/components/icons/src/components/layout/src/components/layout/src/components/ui/src/components/ui/src/components/ui/QuizBase.js:36-55 | the four outcomes of `Quiz.Next` on the fields, with the submission appended to `submitted` |
| `Quiz.QuizBase.HandlePrevious` | src/src/src/config/src/components/icons/src/components/layout/src/components/layout/src/components/ui/src/components/ui/src/components/ui/QuizBase.js:58-63 | clears `error` and moves back unless at 0; matches `Quiz.Previous` |
| `Chat.SimulatedReply` | src/src/src/config/src/components/icons/src/components/layout/src/components/layout/src/components/ui/src/components/ui/ChatModal.js:49 | every simulated answer is recognisable as one and quotes exactly the text it answers |
| `Chat.OnOpen` | src/src/src/config/src/components/icons/src/components/layout/src/components/layout/src/components/ui/src/components/ui/ChatModal.js:17-26 | with an initial message, the log is exactly that user message, typing is raised and a reply is requested; without one, the log is exactly the welcome message; the input is untouched |
| `Chat.OnClose` | src/src/src/config/src/components/icons/src/components/layout/src/components/layout/src/components/ui/src/components/ui/ChatModal.js:27-32 | empty log, empty input, typing lowered; the running timers are kept |
| `Chat.OnInput` | src/src/src/config/src/components/icons/src/components/layout/src/components/layout/src/components/ui/src/components/ui/ChatModal.js:127-135 | the input's onChange sets the input and nothing else |
| `Chat.OnSend` | src/src/src/config/src/components/icons/src/components/layout/src/components/layout/src/components/ui/src/components/ui/ChatModal.js:76-85 | nothing changes when the trimmed input is empty or LexIA is typing; otherwise exactly one user message with the trimmed text is appended after the old log, the input is cleared, typing is raised and a reply is requested |
| `Chat.SendRefusedIff` | src/src/src/config/src/components/icons/src/components/layout/src/components/layout/src/components/ui/src/components/ui/ChatModal.js:78-79 | a send is refused exactly when the input is all white space or LexIA is typing, and a sent text is non-empty and already trimmed |
| `Chat.OnReply` | src/src/src/config/src/components/icons/src/components/layout/src/components/layout/src/components/ui/src/components/ui/ChatModal.js:48-52 | exactly one LexIA answer quoting the oldest pending text is appended after the current log; typing is lowered; that timer leaves the queue |
| `Chat.StepAppends` | src/src/src/config/src/components/icons/src/components/layout/src/components/layout/src/components/ui/src/components/ui/ChatModal.js:48-85 | any event other than open/close keeps the log as a prefix and adds at most one trimmed user message or answer |
| `Chat.LogOnlyGrows` | src/src/src/config/src/components/icons/src/components/layout/src/components/layout/src/components/ui/src/components/ui/ChatModal.js:41-85 | apart from open and close, no sequence of events removes or reorders messages: the old log stays a prefix and grows by at most one message per event |
| `Chat.OpenIsOrderly` | src/src/src/config/src/components/icons/src/components/layout/src/components/layout/src/components/ui/src/components/ui/ChatModal.js:17-26 | opening with no timer running starts an orderly conversation |
| `Chat.SendKeepsOrderly` | src/src/src/config/src/components/icons/src/components/layout/src/components/layout/src/components/ui/src/components/ui/ChatModal.js:79-84 | the typing guard stops a second question while an answer is outstanding |
| `Chat.ReplyKeepsOrderly` | src/src/src/config/src/components/icons/src/components/layout/src/components/layout/src/components/ui/src/components/ui/ChatModal.js:48-51 | in an orderly conversation the answer that arrives follows, and quotes, the user's last message |
| `Chat.StepKeepsOrderly` | src/src/src/config/src/components/icons/src/components/layout/src/components/layout/src/components/ui/src/components/ui/ChatModal.js:41-85 | every in-session event keeps the conversation orderly |
| `Chat.SessionStaysOrderly` | src/src/src/config/src/components/icons/src/components/layout/src/components/layout/src/components/ui/src/components/ui/ChatModal.js:41-85 | within a session that starts orderly, at most one reply is outstanding and it is for the last message, which is the user's exactly while typing is shown; every earlier user message is followed by the answer quoting it |
| `Chat.ReplyAfterCloseLands` | src/src/src/config/src/components/icons/src/components/layout/src/components/layout/src/components/ui/src/components/ui/ChatModal.js:27-31 | a reply pending at close is appended to the emptied log of the closed modal |
| `Chat.StaleReplyAnswersNextQuestion` | src/src/src/config/src/components/icons/src/components/layout/src/components/layout/src/components/ui/src/components/ui/ChatModal.js:17-52 | after close and reopen, a reply from the earlier session is shown as the answer to the new session's first question |
| `Chat.ChatModal.constructor` | src/src/src/config/src/components/icons/src/components/layout/src/components/layout/src/components/ui/src/components/ui/ChatModal.js:11-13 | mounting starts with an empty log, an empty input, typing lowered and no timer |
| `Chat.ChatModal.FetchLexiaResponse` | src/src/src/config/src/components/icons/src/components/layout/src/components/layout/src/components/ui/src/components/ui/ChatModal.js:41-52 | on an open modal, raises typing and starts one reply timer for the given text; the log and input are not touched; keeps the invariant |
| `Chat.ChatModal.Open` | src/src/src/config/src/components/icons/src/components/layout/src/components/layout/src/components/ui/src/components/ui/ChatModal.js:17-26 | the fields change as `Chat.OnOpen` says |
| `Chat.ChatModal.Close` | src/src/src/config/src/components/icons/src/components/layout/src/components/layout/src/components/ui/src/components/ui/ChatModal.js:27-32 | log, input and typing cleared; timers kept; matches `Chat.OnClose` |
| `Chat.ChatModal.HandleInputChange` | src/src/src/config/src/components/icons/src/components/layout/src/components/layout/src/components/ui/src/components/ui/ChatModal.js:127-135 | only `input` changes |
| `Chat.ChatModal.HandleSendMessage` | src/src/src/config/src/components/icons/src/components/layout/src/components/layout/src/components/ui/src/components/ui/ChatModal.js:76-85 | unchanged when the trimmed input is empty or typing; otherwise the trimmed text is appended, the input cleared and a reply requested |
| `Chat.ChatModal.ReplyArrives` | src/src/src/config/src/components/icons/src/components/layout/src/components/layout/src/components/ui/src/components/ui/ChatModal.js:48-52 | the answer to the oldest pending text is appended and typing is lowered |

## Left out

- Rendering: JSX, CSS classes, the `renderInput` switch with its console error for unsupported types, the "Cargando pregunta..." placeholder and the scroll-to-bottom effect. These are presentation only.
- JsText.Decimal: prints plain digits for every non-negative integer, whereas JavaScript prints numbers of 10^21 and above in exponent form; cursor positions and list lengths never reach that bound.
- The progress bar's width. It is a floating-point percentage and only cosmetic.
- Real time: the 1500 ms delay is not modelled. A reply is an event that may fire at any moment, in the order the timers were started.
- `console.log`, the commented-out `fetch` to a backend (dead code and network I/O), and `e.preventDefault()`.
- React scheduling: each handler is one atomic event on the current state. The render that can come between a change of the `questions` prop and its reset effect is not modelled. In that render the old cursor may point past the new list.
- Answer values are the strings and booleans that inputs report. The `questions &&` null check is not modelled, because a list is always present.
- An absent `initialMessage` (`undefined`, `null` or `''`) is modelled as `""`. Mounting with the modal already open is the constructor followed by `Open`.
- Typing and sending need an open modal (the form is rendered only while `isOpen`), and typing needs the typing flag down (the input is disabled while it is up). These are preconditions, not modelled error paths.
- AgentConfig.js, Footer.js, Navbar.js, MessageBox.js, the section and view files and the Tailwind configuration. They hold static markup, constants and build settings, with no decision logic. The area classifier, the view-flow controller and the registration and handover screens are not part of this model: their source is not among the files modelled.
