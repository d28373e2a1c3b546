/** The quiz stage: five multiple-choice questions answered one at a time; a
    right answer moves on after a pause, a wrong one shakes the card and,
    from the second wrong try on, shows a hint. */
module Quiz {

  import opened Wrappers

  /** One entry of the question table: the question, its options and the
      index of the right option. */
  datatype Question = Question(q: string, options: seq<string>, answer: nat)

  /** The question table of the component, in order. */
  const Questions: seq<Question> := [
    Question("What is my comfort food?", ["Pizza 🍕", "Biryani 🍚", "Ice Cream 🍦", "Pasta 🍝"], 1),
    Question("Who apologizes first?", ["Me 🙋", "You 🫵", "Neither 😤", "Both at once 🤝"], 0),
    Question("What makes me overthink?", ["Late replies 📱", "Silence 🤫", "Mixed signals 🚦", "Everything 😅"], 3),
    Question("My love language is?", ["Words 💬", "Touch 🤗", "Quality Time ⏰", "Gifts 🎁"], 2),
    Question("Our song would be?", ["Something slow 🎵", "Something loud 🎸", "A Bollywood hit 🎶", "We don't need one 💕"], 0)
  ]

  /** Every answer names one of its question's options. */
  predicate WellFormed(questions: seq<Question>) {
    forall i | 0 <= i < |questions| :: questions[i].answer < |questions[i].options|
  }

  /** The table has five questions with four options each, and every answer
      index is a valid option. */
  lemma QuestionsWellFormed()
    ensures |Questions| == 5 && WellFormed(Questions)
    ensures forall i | 0 <= i < |Questions| :: |Questions[i].options| == 4
  {
  }

  /** The timeout an answer has scheduled and that has not run yet. */
  datatype Pending = NoTimer | AfterCorrect | AfterWrong

  /** The component's state: `currentQ`, `score`, `attempts`, `showHint`,
      `shake`, `correct`, `selectedIdx`, and the pending timeout. */
  datatype QuizState = QuizState(currentQ: nat, score: nat, attempts: nat, showHint: bool,
                                 shake: bool, correct: bool, selectedIdx: Option<nat>, pending: Pending)

  /** The state on mounting. */
  const Start: QuizState := QuizState(0, 0, 0, false, false, false, None, NoTimer)

  /** Whether `handleAnswer` gets past its guard. */
  predicate Accepts(s: QuizState, qaCompleted: bool) {
    !qaCompleted && s.selectedIdx.None?
  }

  /** `handleAnswer(idx)`: a right answer marks the choice correct and scores
      it, a wrong one shakes the card, counts the try and shows the hint from
      the second try on; either schedules its timeout. */
  function Answer(questions: seq<Question>, s: QuizState, idx: nat, qaCompleted: bool): (t: QuizState)
    requires s.currentQ < |questions|
    ensures !Accepts(s, qaCompleted) ==> t == s
    ensures Accepts(s, qaCompleted) ==>
      t.selectedIdx == Some(idx) &&
      t.pending == (if idx == questions[s.currentQ].answer then AfterCorrect else AfterWrong)
    ensures Accepts(s, qaCompleted) && idx == questions[s.currentQ].answer ==>
      t.correct && t.shake == s.shake && t.showHint == s.showHint
    ensures t.currentQ == s.currentQ
    ensures t.score == s.score + (if Accepts(s, qaCompleted) && idx == questions[s.currentQ].answer then 1 else 0)
    ensures t.attempts == s.attempts + (if Accepts(s, qaCompleted) && idx != questions[s.currentQ].answer then 1 else 0)
    ensures Accepts(s, qaCompleted) && idx != questions[s.currentQ].answer ==>
      t.shake && t.correct == s.correct && t.showHint == (s.showHint || t.attempts >= 2)
  {
    if qaCompleted || s.selectedIdx.Some? then s
    else if idx == questions[s.currentQ].answer then
      s.(selectedIdx := Some(idx), correct := true, score := s.score + 1, pending := AfterCorrect)
    else
      var newAttempts := s.attempts + 1;
      s.(selectedIdx := Some(idx), shake := true, attempts := newAttempts,
         showHint := if newAttempts >= 2 then true else s.showHint, pending := AfterWrong)
  }

  /** Whether the pending timeout is the one that calls `completeQA`: the
      right answer to the last question. */
  predicate Completes(questions: seq<Question>, s: QuizState) {
    s.pending == AfterCorrect && s.currentQ + 1 >= |questions|
  }

  /** Running the pending timeout. After a right answer it either finishes the
      quiz (leaving the state as it is) or moves to the next question with a
      clean slate; after a wrong answer it stops the shake and frees the
      choice. */
  function Fire(questions: seq<Question>, s: QuizState): (t: QuizState)
    requires s.currentQ < |questions| && s.pending != NoTimer
    ensures t.pending == NoTimer && t.score == s.score && t.currentQ < |questions|
    ensures Completes(questions, s) ==> t == s.(pending := NoTimer)
    ensures s.pending == AfterCorrect && !Completes(questions, s) ==>
      t.currentQ == s.currentQ + 1 && t.attempts == 0 && !t.showHint && !t.correct && t.selectedIdx == None &&
      t.shake == s.shake
    ensures s.pending == AfterWrong ==>
      t.currentQ == s.currentQ && t.attempts == s.attempts && t.showHint == s.showHint &&
      !t.shake && t.correct == s.correct && t.selectedIdx == None
  {
    match s.pending
    case AfterCorrect =>
      if s.currentQ + 1 >= |questions| then s.(pending := NoTimer)
      else s.(currentQ := s.currentQ + 1, attempts := 0, showHint := false, correct := false,
              selectedIdx := None, pending := NoTimer)
    case AfterWrong =>
      s.(shake := false, selectedIdx := None, pending := NoTimer)
  }

  /** What holds between events, for a table of `n` questions: the question
      is in range, the hint shows exactly from two tries on, the score counts
      the questions already passed plus the one just answered right, the card
      shakes exactly while a wrong answer waits, and a choice stays selected
      with no timeout pending only once the last question is answered right. */
  predicate Inv(n: nat, s: QuizState) {
    s.currentQ < n &&
    (s.showHint <==> s.attempts >= 2) &&
    s.score == s.currentQ + (if s.correct then 1 else 0) &&
    (s.shake <==> s.pending == AfterWrong) &&
    (s.pending == AfterCorrect ==> s.correct && s.selectedIdx.Some?) &&
    (s.pending == AfterWrong ==> !s.correct && s.selectedIdx.Some?) &&
    (s.pending == NoTimer ==> (s.selectedIdx.Some? <==> s.correct) && (s.correct ==> s.currentQ + 1 == n))
  }

  lemma StartInv(n: nat)
    requires n > 0
    ensures Inv(n, Start)
  {
  }

  lemma AnswerKeepsInv(questions: seq<Question>, s: QuizState, idx: nat, qaCompleted: bool)
    requires Inv(|questions|, s)
    ensures Inv(|questions|, Answer(questions, s, idx, qaCompleted))
  {
  }

  lemma FireKeepsInv(questions: seq<Question>, s: QuizState)
    requires Inv(|questions|, s) && s.pending != NoTimer
    ensures Inv(|questions|, Fire(questions, s))
  {
  }

  /** With no answer waiting the score equals the number of the current
      question, and it never exceeds the number of questions. */
  lemma ScoreIsCurrentQ(n: nat, s: QuizState)
    requires Inv(n, s)
    ensures s.selectedIdx.None? ==> s.score == s.currentQ
    ensures s.score <= n
  {
  }

  /** When the timeout that calls `completeQA` runs, every question has been
      answered right. */
  lemma CompletionScore(questions: seq<Question>, s: QuizState)
    requires Inv(|questions|, s) && Completes(questions, s)
    ensures Fire(questions, s).score == |questions|
  {
  }

  /** An input to the component: a click on option `idx`, or the pending
      timeout running. */
  datatype Event = Click(idx: nat, qaCompleted: bool) | Timeout

  /** The state after a series of events; a timeout with none pending does
      nothing. */
  function Run(questions: seq<Question>, s: QuizState, events: seq<Event>): (t: QuizState)
    requires s.currentQ < |questions|
    ensures t.currentQ < |questions|
    decreases |events|
  {
    if events == [] then s
    else
      var next := match events[0]
        case Click(idx, done) => Answer(questions, s, idx, done)
        case Timeout => if s.pending == NoTimer then s else Fire(questions, s);
      Run(questions, next, events[1..])
  }

  /** Every state reached from the start satisfies the invariant, so its score
      is at most the number of questions. */
  lemma {:induction false} RunKeepsInv(questions: seq<Question>, s: QuizState, events: seq<Event>)
    requires Inv(|questions|, s)
    ensures Inv(|questions|, Run(questions, s, events))
    decreases |events|
  {
    if events != [] {
      var next := match events[0]
        case Click(idx, done) => Answer(questions, s, idx, done)
        case Timeout => if s.pending == NoTimer then s else Fire(questions, s);
      match events[0] {
        case Click(idx, done) => AnswerKeepsInv(questions, s, idx, done);
        case Timeout => if s.pending != NoTimer { FireKeepsInv(questions, s); }
      }
      RunKeepsInv(questions, next, events[1..]);
    }
  }

  class QuizGame {
    /** The question table (`questions`). */
    const questions: seq<Question>
    var currentQ: nat
    var score: nat
    var attempts: nat
    var showHint: bool
    var shake: bool
    var correct: bool
    var selectedIdx: Option<nat>
    var pending: Pending

    function State(): QuizState
      reads this
    {
      QuizState(currentQ, score, attempts, showHint, shake, correct, selectedIdx, pending)
    }

    ghost predicate Valid()
      reads this
    {
      Inv(|questions|, State())
    }

    /** Mounting the component on a non-empty question table. */
    constructor (questions: seq<Question>)
      requires |questions| > 0
      ensures Valid() && this.questions == questions && State() == Start
    {
      this.questions := questions;
      currentQ, score, attempts := 0, 0, 0;
      showHint, shake, correct := false, false, false;
      selectedIdx, pending := None, NoTimer;
    }

    /** `handleAnswer(idx)`. */
    method HandleAnswer(idx: nat, qaCompleted: bool)
      requires Valid()
      modifies this
      ensures Valid() && State() == Answer(questions, old(State()), idx, qaCompleted)
    {
      AnswerKeepsInv(questions, State(), idx, qaCompleted);
      if qaCompleted || selectedIdx.Some? {
        return;
      }
      selectedIdx := Some(idx);
      var isCorrect := idx == questions[currentQ].answer;
      if isCorrect {
        correct := true;
        score := score + 1;
        pending := AfterCorrect;
      } else {
        shake := true;
        var newAttempts := attempts + 1;
        attempts := newAttempts;
        if newAttempts >= 2 {
          showHint := true;
        }
        pending := AfterWrong;
      }
    }

    /** The pending timeout runs; `callsCompleteQA` tells whether it called
        `completeQA`, which it does exactly after the right answer to the
        last question, when the score is the number of questions. */
    method FireTimer() returns (callsCompleteQA: bool)
      requires Valid() && pending != NoTimer
      modifies this
      ensures Valid() && State() == Fire(questions, old(State()))
      ensures callsCompleteQA <==> Completes(questions, old(State()))
      ensures callsCompleteQA ==> score == |questions|
    {
      FireKeepsInv(questions, State());
      callsCompleteQA := false;
      if pending == AfterCorrect {
        if currentQ + 1 >= |questions| {
          callsCompleteQA := true;
        } else {
          currentQ := currentQ + 1;
          attempts := 0;
          showHint := false;
          correct := false;
          selectedIdx := None;
        }
      } else {
        shake := false;
        selectedIdx := None;
      }
      pending := NoTimer;
    }
  }
}
