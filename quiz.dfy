/**
 The quiz cursor engine of QuizBase.js: a cursor into an ordered list of
 questions, a map of answers keyed by question id, and a validation message.

 The pure functions Reset, AnswerChange, Next and Previous give the effect of
 each event on a QuizState; the class QuizBase holds the same state in mutable
 fields, and each of its handlers is proved to change them exactly as the
 matching function says. The callback `onSubmit` is recorded: every call
 appends the map it receives to `submitted`.
 */
module Quiz {
  import JsText

  datatype Option<T> = None | Some(value: T)

  /** An answer as the changed input element reports it: its `value` string,
      or its `checked` flag when the input is a checkbox. */
  datatype Answer = Text(value: string) | Checked(on: bool)

  type Answers = map<string, Answer>

  /** A question of the list; `kind` is the input type ('text', 'radio', ...),
      which only selects the input element that is rendered. */
  datatype Question = Question(id: string, text: string, kind: string, required: bool)

  /** The fields handleAnswerChange reads from the event target. */
  datatype InputEvent = InputEvent(name: string, value: string, inputType: string, checked: bool)

  const ValidationMessage: string := "Por favor, responde esta pregunta para continuar."

  /** The names every plain object inherits from `Object.prototype`. Reading
      one of them on an object without an own property of that name gives a
      method, or the prototype itself for `__proto__`. */
  predicate Inherited(id: string) {
    id in {"constructor", "hasOwnProperty", "isPrototypeOf", "propertyIsEnumerable",
           "toLocaleString", "toString", "valueOf", "__proto__",
           "__defineGetter__", "__defineSetter__", "__lookupGetter__", "__lookupSetter__"}
  }

  /** What `answers[id]` reads on the plain object the answers live in: the
      answer stored under `id`, else the inherited member of that name, else
      `undefined`. */
  datatype Found = Missing | Own(answer: Answer) | FromPrototype

  function Lookup(answers: Answers, id: string): (r: Found)
    ensures r.Own? <==> id in answers
    ensures r.Own? ==> r.answer == answers[id]
    ensures r.FromPrototype? <==> id !in answers && Inherited(id)
  {
    if id in answers then Own(answers[id])
    else if Inherited(id) then FromPrototype
    else Missing
  }

  /** JavaScript truthiness of what the lookup reads: of the values it can
      meet, exactly `undefined`, `''` and `false` are falsy; an inherited
      member is a function or an object, so it is truthy. */
  predicate Truthy(v: Found): (b: bool)
    ensures !b <==> v == Missing || v == Own(Text("")) || v == Own(Checked(false))
  {
    match v
    case Missing => false
    case Own(Text(t)) => t != ""
    case Own(Checked(on)) => on
    case FromPrototype => true
  }

  /** The answer for `id` counts as given: a stored answer that is neither
      `''` nor `false`, or, for an id never answered, an inherited member of
      that name. */
  predicate Answered(answers: Answers, id: string) {
    if id in answers then answers[id] != Text("") && answers[id] != Checked(false) else Inherited(id)
  }

  /** The validation guard of handleNext, as the source writes it: the
      question is required and its answer is falsy or the empty string. */
  predicate Blocks(q: Question, answers: Answers): (b: bool)
    ensures b <==> q.required && !Answered(answers, q.id)
  {
    q.required && (!Truthy(Lookup(answers, q.id)) || Lookup(answers, q.id) == Own(Text("")))
  }

  /** The `currentQuestion` derivation: the question under the cursor, or
      none when the cursor is past the end of the list. */
  function CurrentQuestion(questions: seq<Question>, index: nat): (r: Option<Question>)
    ensures r.Some? <==> index < |questions|
    ensures r.Some? ==> r.value == questions[index]
  {
    if |questions| > index then Some(questions[index]) else None
  }

  /** Everything QuizBase holds: its `questions` prop, its three state fields
      and the maps handed to `onSubmit` so far. */
  datatype QuizState = QuizState(
    questions: seq<Question>,
    index: nat,
    answers: Answers,
    error: string,
    submitted: seq<Answers>)

  /** The state a freshly mounted QuizBase starts in. */
  function Initial(questions: seq<Question>): QuizState {
    QuizState(questions, 0, map[], "", [])
  }

  /** The cursor is inside the list, or at 0 when the list is empty, and the
      validation message is shown only while the question under the cursor is
      required and unanswered. */
  ghost predicate Inv(s: QuizState) {
    && (s.index == 0 || s.index < |s.questions|)
    && (s.error != "" ==>
          s.error == ValidationMessage && s.index < |s.questions| && Blocks(s.questions[s.index], s.answers))
  }

  /** The reset effect, run when the `questions` prop changes. */
  function Reset(s: QuizState, questions: seq<Question>): (r: QuizState)
    ensures r.questions == questions
    ensures r.index == 0 && r.answers == map[] && r.error == ""
    ensures r.submitted == s.submitted
    ensures Inv(r)
  {
    QuizState(questions, 0, map[], "", s.submitted)
  }

  /** handleAnswerChange: store the input's value (its checked flag for a
      checkbox) under the input's name and clear the validation message. */
  function AnswerChange(s: QuizState, e: InputEvent): (r: QuizState)
    ensures r.answers.Keys == s.answers.Keys + {e.name}
    ensures e.inputType == "checkbox" ==> r.answers[e.name] == Checked(e.checked)
    ensures e.inputType != "checkbox" ==> r.answers[e.name] == Text(e.value)
    ensures forall k :: k in s.answers && k != e.name ==> r.answers[k] == s.answers[k]
    ensures r.error == ""
    ensures r.questions == s.questions && r.index == s.index && r.submitted == s.submitted
  {
    s.(error := "", answers := s.answers[e.name := if e.inputType == "checkbox" then Checked(e.checked) else Text(e.value)])
  }

  /** handleNext: with no current question, nothing; on a required question
      without an answer, the validation message; otherwise the cursor moves
      forward, or on the last question the whole answer map is submitted. */
  function Next(s: QuizState): (r: QuizState)
    ensures r.questions == s.questions && r.answers == s.answers
    ensures s.index >= |s.questions| ==> r == s
    ensures s.index < |s.questions| && Blocks(s.questions[s.index], s.answers) ==>
              r.error == ValidationMessage && r.index == s.index && r.submitted == s.submitted
    ensures r.index != s.index <==>
              s.index + 1 < |s.questions| && !Blocks(s.questions[s.index], s.answers)
    ensures r.index != s.index ==> r.index == s.index + 1 && r.submitted == s.submitted && r.error == s.error
    ensures r.submitted != s.submitted <==>
              s.index + 1 == |s.questions| && !Blocks(s.questions[s.index], s.answers)
    ensures r.submitted != s.submitted ==>
              r.submitted == s.submitted + [s.answers] && r.index == s.index && r.error == s.error
    ensures Inv(s) ==> Inv(r)
  {
    match CurrentQuestion(s.questions, s.index)
    case None => s
    case Some(q) =>
      if Blocks(q, s.answers) then s.(error := ValidationMessage)
      else if s.index < |s.questions| - 1 then s.(index := s.index + 1)
      else s.(submitted := s.submitted + [s.answers])
  }

  /** handlePrevious: clear the validation message and move back unless the
      cursor is already at the first question. */
  function Previous(s: QuizState): (r: QuizState)
    ensures r.error == "" && r.answers == s.answers
    ensures r.questions == s.questions && r.submitted == s.submitted
    ensures s.index > 0 ==> r.index + 1 == s.index
    ensures s.index == 0 ==> r.index == 0
    ensures Inv(s) ==> Inv(r)
  {
    s.(error := "", index := if s.index > 0 then s.index - 1 else s.index)
  }

  /** AnswerChange keeps the invariant: it only clears the message. */
  lemma AnswerChangeKeepsInv(s: QuizState, e: InputEvent)
    requires Inv(s)
    ensures Inv(AnswerChange(s, e))
  {
  }

  /** The events the engine reacts to. */
  datatype QuizEvent =
    | NewQuestions(questions: seq<Question>)
    | Change(input: InputEvent)
    | NextClicked
    | PreviousClicked

  function Step(s: QuizState, e: QuizEvent): QuizState {
    match e
    case NewQuestions(qs) => Reset(s, qs)
    case Change(input) => AnswerChange(s, input)
    case NextClicked => Next(s)
    case PreviousClicked => Previous(s)
  }

  /** The state after a sequence of events, in order. */
  function Run(s: QuizState, events: seq<QuizEvent>): QuizState
    decreases |events|
  {
    if events == [] then s else Run(Step(s, events[0]), events[1..])
  }

  /** Whatever the events, the cursor stays in bounds and the validation
      message stays truthful. */
  lemma {:induction false} RunKeepsInv(s: QuizState, events: seq<QuizEvent>)
    requires Inv(s)
    ensures Inv(Run(s, events))
    decreases |events|
  {
    if events != [] {
      if events[0].Change? {
        AnswerChangeKeepsInv(s, events[0].input);
      }
      RunKeepsInv(Step(s, events[0]), events[1..]);
    }
  }

  predicate OnlyNavigation(events: seq<QuizEvent>) {
    forall i :: 0 <= i < |events| ==> events[i].NextClicked? || events[i].PreviousClicked?
  }

  /** Moving forwards and backwards never loses an answer, and whatever is
      submitted along the way is the unchanged answer map. */
  lemma {:induction false} NavigationKeepsAnswers(s: QuizState, events: seq<QuizEvent>)
    requires OnlyNavigation(events)
    ensures Run(s, events).answers == s.answers
    ensures Run(s, events).questions == s.questions
    ensures |Run(s, events).submitted| >= |s.submitted|
    ensures Run(s, events).submitted[..|s.submitted|] == s.submitted
    ensures forall k :: |s.submitted| <= k < |Run(s, events).submitted| ==> Run(s, events).submitted[k] == s.answers
    decreases |events|
  {
    if events != [] {
      var t := Step(s, events[0]);
      assert t.answers == s.answers;
      assert t.submitted == s.submitted || t.submitted == s.submitted + [s.answers];
      NavigationKeepsAnswers(t, events[1..]);
    }
  }

  /** Question ids are pairwise distinct. */
  predicate UniqueIds(questions: seq<Question>) {
    forall i, j :: 0 <= i < j < |questions| ==> questions[i].id != questions[j].id
  }

  /** Every required question of the list has an answer in `answers`. */
  predicate AnswersAllRequired(questions: seq<Question>, answers: Answers) {
    forall i :: 0 <= i < |questions| && questions[i].required ==> Answered(answers, questions[i].id)
  }

  /** Every required question before the cursor has an answer. */
  predicate PassedAnswered(s: QuizState) {
    forall j :: 0 <= j < s.index && j < |s.questions| && s.questions[j].required ==> Answered(s.answers, s.questions[j].id)
  }

  /** An answer change comes from an input rendered for the current question:
      every input renderInput draws is named after that question's id. */
  predicate FromRenderedInput(s: QuizState, e: QuizEvent) {
    e.Change? ==> s.index < |s.questions| && e.input.name == s.questions[s.index].id
  }

  /** Every event of the sequence is possible in the state it meets, and none
      replaces the question list. */
  predicate OneQuizRun(s: QuizState, events: seq<QuizEvent>)
    decreases |events|
  {
    events == [] ||
    (!events[0].NewQuestions? && FromRenderedInput(s, events[0]) && OneQuizRun(Step(s, events[0]), events[1..]))
  }

  /** One event keeps "the questions before the cursor are answered", and a
      submission it makes answers every required question. */
  lemma StepKeepsPassedAnswered(s: QuizState, e: QuizEvent)
    requires UniqueIds(s.questions) && PassedAnswered(s)
    requires !e.NewQuestions? && FromRenderedInput(s, e)
    ensures Step(s, e).questions == s.questions && PassedAnswered(Step(s, e))
    ensures Step(s, e).submitted == s.submitted ||
            (Step(s, e).submitted == s.submitted + [s.answers] && AnswersAllRequired(s.questions, s.answers))
  {
  }

  /** The quiz never submits partially: in one run over a list with distinct
      ids, every map handed to `onSubmit` answers every required question. */
  lemma {:induction false} OnlyCompleteSubmissions(s: QuizState, events: seq<QuizEvent>)
    requires UniqueIds(s.questions) && PassedAnswered(s) && OneQuizRun(s, events)
    ensures |Run(s, events).submitted| >= |s.submitted|
    ensures Run(s, events).submitted[..|s.submitted|] == s.submitted
    ensures forall k :: |s.submitted| <= k < |Run(s, events).submitted| ==>
              AnswersAllRequired(s.questions, Run(s, events).submitted[k])
    decreases |events|
  {
    if events != [] {
      var t := Step(s, events[0]);
      StepKeepsPassedAnswered(s, events[0]);
      OnlyCompleteSubmissions(t, events[1..]);
      var r := Run(s, events);
      assert r == Run(t, events[1..]);
      forall k | |s.submitted| <= k < |r.submitted| ensures AnswersAllRequired(s.questions, r.submitted[k]) {
        if k < |t.submitted| {
          assert r.submitted[k] == t.submitted[k];
        }
      }
    }
  }

  /** From a reset (a new question list, or mounting, which starts as the
      reset of an empty history), every map handed to `onSubmit` afterwards
      answers every required question of the list. */
  lemma FreshQuizSubmitsComplete(s: QuizState, questions: seq<Question>, events: seq<QuizEvent>)
    requires UniqueIds(questions) && OneQuizRun(Reset(s, questions), events)
    ensures |Run(Reset(s, questions), events).submitted| >= |s.submitted|
    ensures Run(Reset(s, questions), events).submitted[..|s.submitted|] == s.submitted
    ensures forall k :: |s.submitted| <= k < |Run(Reset(s, questions), events).submitted| ==>
              AnswersAllRequired(questions, Run(Reset(s, questions), events).submitted[k])
  {
    OnlyCompleteSubmissions(Reset(s, questions), events);
  }

  /** The forward button's label. */
  function ForwardLabel(index: nat, count: nat): (r: string)
    ensures r == "Siguiente" || r == "Ver resultados"
    ensures r == "Siguiente" <==> index + 1 < count
  {
    if index < count - 1 then "Siguiente" else "Ver resultados"
  }

  /** The label announces what Next does once validation passes: "Siguiente"
      when it moves the cursor, "Ver resultados" when it submits. */
  lemma ForwardLabelMatchesNext(s: QuizState)
    requires s.index < |s.questions| && !Blocks(s.questions[s.index], s.answers)
    ensures ForwardLabel(s.index, |s.questions|) == "Siguiente" <==> Next(s).index == s.index + 1
    ensures ForwardLabel(s.index, |s.questions|) == "Ver resultados" <==> Next(s).submitted == s.submitted + [s.answers]
  {
  }

  /** The progress indicator: "Pregunta <index + 1> de <count>". Its two
      numbers read back as the position and the length. */
  function ProgressLabel(index: nat, count: nat): (r: string)
    ensures var p := |JsText.Decimal(index + 1)|;
            && |r| == 13 + p + |JsText.Decimal(count)|
            && r[..9] == "Pregunta " && r[9 + p..13 + p] == " de "
            && JsText.IsDigitString(r[9..9 + p]) && JsText.DigitsValue(r[9..9 + p]) == index + 1
            && JsText.IsDigitString(r[13 + p..]) && JsText.DigitsValue(r[13 + p..]) == count
  {
    var position := JsText.Decimal(index + 1);
    var total := JsText.Decimal(count);
    var shown := "Pregunta " + position + " de " + total;
    assert shown[9..9 + |position|] == position && shown[13 + |position|..] == total;
    JsText.DecimalRoundTrip(index + 1);
    JsText.DecimalRoundTrip(count);
    shown
  }

  /** Where the parts of a progress label sit: the digits of `x` from
      position 9, then the space that starts " de ". */
  lemma LabelLayout(x: string, y: string)
    requires JsText.IsDigitString(x)
    ensures forall i :: 9 <= i < 9 + |x| ==> '0' <= ("Pregunta " + x + " de " + y)[i] <= '9'
    ensures ("Pregunta " + x + " de " + y)[9 + |x|] == ' '
  {
  }

  /** Two digit strings around the fixed words can be split only one way. */
  lemma {:induction false} LabelSplitUnique(x: string, y: string, x': string, y': string)
    requires JsText.IsDigitString(x) && JsText.IsDigitString(x')
    requires "Pregunta " + x + " de " + y == "Pregunta " + x' + " de " + y'
    ensures x == x' && y == y'
  {
    var l := "Pregunta " + x + " de " + y;
    var l' := "Pregunta " + x' + " de " + y';
    LabelLayout(x, y);
    LabelLayout(x', y');
    if |x| != |x'| {
      assert false;
    }
    assert x == l[9..9 + |x|] && x' == l'[9..9 + |x'|];
    assert y == l[13 + |x|..] && y' == l'[13 + |x'|..];
  }

  /** The progress label tells the position and the number of questions
      exactly: different cursor positions or list lengths never print the
      same label. */
  lemma ProgressLabelDetermines(index: nat, count: nat, index': nat, count': nat)
    requires ProgressLabel(index, count) == ProgressLabel(index', count')
    ensures index == index' && count == count'
  {
    var position, total := JsText.Decimal(index + 1), JsText.Decimal(count);
    var position', total' := JsText.Decimal(index' + 1), JsText.Decimal(count');
    LabelSplitUnique(position, total, position', total');
    JsText.DecimalInjective(index + 1, index' + 1);
    JsText.DecimalInjective(count, count');
  }

  /** Whether the "Anterior" button is enabled: it is disabled on the first
      question, which is exactly where handlePrevious would only clear the
      message, and enabled exactly where it moves the cursor back by one. */
  predicate PreviousEnabled(s: QuizState): (b: bool)
    ensures !b <==> Previous(s) == s.(error := "")
    ensures b <==> Previous(s).index + 1 == s.index
  {
    s.index != 0
  }

  /** The QuizBase component's state, updated in place by its handlers. */
  class QuizBase {
    var questions: seq<Question>
    var currentQuestionIndex: nat
    var answers: Answers
    var error: string
    /** The maps passed to `onSubmit`, oldest first. */
    var submitted: seq<Answers>

    function State(): QuizState
      reads this
    {
      QuizState(questions, currentQuestionIndex, answers, error, submitted)
    }

    ghost predicate Valid()
      reads this
    {
      Inv(State())
    }

    /** Mounting: the initial state of the three `useState` hooks. */
    constructor (questions: seq<Question>)
      ensures Valid() && State() == Initial(questions)
    {
      this.questions := questions;
      currentQuestionIndex := 0;
      answers := map[];
      error := "";
      submitted := [];
    }

    /** The `currentQuestion` derivation on the current fields. */
    function Current(): (r: Option<Question>)
      reads this
      ensures r.Some? <==> currentQuestionIndex < |questions|
      ensures r.Some? ==> r.value == questions[currentQuestionIndex]
    {
      CurrentQuestion(questions, currentQuestionIndex)
    }

    /** A new `questions` prop: the reset effect. */
    method ChangeQuestions(newQuestions: seq<Question>)
      modifies this
      ensures Valid()
      ensures questions == newQuestions
      ensures currentQuestionIndex == 0 && answers == map[] && error == ""
      ensures submitted == old(submitted)
      ensures State() == Reset(old(State()), newQuestions)
    {
      questions := newQuestions;
      answers := map[];
      error := "";
      currentQuestionIndex := 0;
    }

    method HandleAnswerChange(e: InputEvent)
      requires Valid()
      modifies this
      ensures Valid()
      ensures error == ""
      ensures answers == old(answers)[e.name := if e.inputType == "checkbox" then Checked(e.checked) else Text(e.value)]
      ensures questions == old(questions) && currentQuestionIndex == old(currentQuestionIndex)
      ensures submitted == old(submitted)
      ensures State() == AnswerChange(old(State()), e)
    {
      error := "";
      var stored := if e.inputType == "checkbox" then Checked(e.checked) else Text(e.value);
      answers := answers[e.name := stored];
    }

    method HandleNext()
      requires Valid()
      modifies this
      ensures Valid()
      ensures questions == old(questions) && answers == old(answers)
      ensures old(currentQuestionIndex) >= |questions| ==> unchanged(this)
      ensures old(currentQuestionIndex) < |questions| && Blocks(questions[old(currentQuestionIndex)], answers) ==>
                error == ValidationMessage && currentQuestionIndex == old(currentQuestionIndex) && submitted == old(submitted)
      ensures old(currentQuestionIndex) + 1 < |questions| && !Blocks(questions[old(currentQuestionIndex)], answers) ==>
                currentQuestionIndex == old(currentQuestionIndex) + 1 && submitted == old(submitted) && error == old(error)
      ensures old(currentQuestionIndex) + 1 == |questions| && !Blocks(questions[old(currentQuestionIndex)], answers) ==>
                submitted == old(submitted) + [answers] && currentQuestionIndex == old(currentQuestionIndex) && error == old(error)
      ensures State() == Next(old(State()))
    {
      var current := CurrentQuestion(questions, currentQuestionIndex);
      if current.None? {
        return;
      }
      var q := current.value;
      if q.required && (!Truthy(Lookup(answers, q.id)) || Lookup(answers, q.id) == Own(Text(""))) {
        error := ValidationMessage;
        return;
      }
      if currentQuestionIndex < |questions| - 1 {
        currentQuestionIndex := currentQuestionIndex + 1;
      } else {
        submitted := submitted + [answers];
      }
    }

    method HandlePrevious()
      requires Valid()
      modifies this
      ensures Valid()
      ensures error == ""
      ensures old(currentQuestionIndex) > 0 ==> currentQuestionIndex == old(currentQuestionIndex) - 1
      ensures old(currentQuestionIndex) == 0 ==> currentQuestionIndex == 0
      ensures questions == old(questions) && answers == old(answers) && submitted == old(submitted)
      ensures State() == Previous(old(State()))
    {
      error := "";
      if currentQuestionIndex > 0 {
        currentQuestionIndex := currentQuestionIndex - 1;
      }
    }
  }
}
