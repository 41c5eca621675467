/**
 * The `McqQuiz` control of src/main_class.py: the question index and score
 * it keeps in its own fields, with the widget updates left out. As in the
 * functional version, which handler the action button calls is part of the
 * state. The records come from the unvalidated loader, so an answer text
 * need not name one of the options.
 */
module ClassQuiz {
  import opened Common
  import opened PyText
  import opened ClassLoader

  /** What `_check_answer_clicked` does with the click. */
  datatype Outcome =
    | SelectFirst
    | Correct
    | Incorrect(correctText: string)
      // Line 222 looks the answer text up among the options and raises `KeyError`;
      // the handler stops there, before the score, the message or the button change.
    | AnswerNotAnOption

  /** Every record's answer text is one of its option keys: no check can raise. */
  predicate AnswersAreOptions(qs: seq<Question>) {
    forall k :: 0 <= k < |qs| ==> qs[k].answer in qs[k].options
  }

  class McqQuiz {
    /** `self.questions`; never reassigned. */
    const questions: seq<Question>
    /** `self.current_q_index`. */
    var index: int
    /** `self.score`. */
    var score: int
    /** The action button calls `_next_question_clicked`: the current question has been checked. */
    var checked: bool

    /**
     * The control's invariant: an index within the list or just past it, and
     * at most one point per question checked so far. Nothing is assumed of
     * the records.
     */
    ghost predicate Valid()
      reads this
    {
      && 0 <= index <= |questions|
      && (checked ==> index < |questions|)
      && 0 <= score <= index + (if checked then 1 else 0)
    }

    /** `__init__`: index and score start at 0. */
    constructor (qs: seq<Question>)
      ensures Valid()
      ensures questions == qs && index == 0 && score == 0 && !checked
    {
      questions := qs;
      index := 0;
      score := 0;
      checked := false;
    }

    /** `_update_ui` takes its final branch once the index reaches the end of the list. */
    predicate Finished()
      reads this
    {
      index >= |questions|
    }

    /**
     * `_check_answer_clicked`, reachable while a question is shown and not yet
     * checked. Without a selection nothing changes. A selection equal to the
     * answer text scores a point; any other selection reports the correct
     * option's text, or raises when the answer text is not an option key, in
     * which case nothing changes either.
     */
    method Check(selected: Option<string>) returns (outcome: Outcome)
      requires Valid() && !checked && index < |questions|
      modifies this
      ensures Valid()
      ensures index == old(index)
      ensures !Truthy(selected) ==> outcome == SelectFirst
      ensures outcome == Correct <==> Truthy(selected) && selected == Some(questions[index].answer)
      ensures outcome.Incorrect? <==>
        Truthy(selected) && selected != Some(questions[index].answer) && questions[index].answer in questions[index].options
      ensures outcome.Incorrect? ==> outcome.correctText == questions[index].options[questions[index].answer]
      ensures outcome == AnswerNotAnOption <==>
        Truthy(selected) && selected != Some(questions[index].answer) && questions[index].answer !in questions[index].options
      ensures score == old(score) + (if outcome == Correct then 1 else 0)
      ensures checked <==> outcome == Correct || outcome.Incorrect?
      ensures AnswersAreOptions(questions) ==> outcome != AnswerNotAnOption
    {
      if !Truthy(selected) {
        return SelectFirst;
      }
      var correctKey := questions[index].answer;
      if selected.value == correctKey {
        score := score + 1;
        outcome := Correct;
      } else if correctKey in questions[index].options {
        outcome := Incorrect(questions[index].options[correctKey]);
      } else {
        return AnswerNotAnOption;
      }
      checked := true;
    }

    /** `_next_question_clicked`: move to the next question (or to the final screen). */
    method Next()
      requires Valid() && checked
      modifies this
      ensures Valid()
      ensures index == old(index) + 1 && score == old(score) && !checked
    {
      index := index + 1;
      checked := false;
    }

    /** `_restart_quiz`, reachable from the "Start Over" button of the final screen. */
    method Restart()
      requires Valid() && Finished()
      modifies this
      ensures Valid()
      ensures index == 0 && score == 0 && !checked
    {
      index := 0;
      score := 0;
      checked := false;
    }

    /** `_update_ui`: the current question while one remains, else the final score out of the total. */
    function View(): (s: Screen)
      requires Valid()
      reads this
      ensures s.Complete? <==> Finished()
      ensures s.Asking? ==> s.prompt == questions[index].question && s.options == questions[index].options
      ensures s.Complete? ==> s.total == |questions| && s.finalScore == score && 0 <= s.finalScore <= s.total
    {
      if index < |questions| then Asking(questions[index].question, questions[index].options)
      else Complete(score, |questions|)
    }

    /**
     * `_update_score_display` (line 200): the question number shown is not
     * clamped, so on the final screen it is one past the total.
     */
    function QuestionNumber(): (n: int)
      requires Valid()
      reads this
      ensures 1 <= n <= |questions| + 1
      ensures n > |questions| <==> Finished()
      ensures !Finished() ==> n == index + 1
      ensures Finished() ==> n == |questions| + 1
    {
      index + 1
    }
  }
}
