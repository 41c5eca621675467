/**
 * The quiz session of src/main.py: the question index and score that the
 * handlers nested in `main` update through `nonlocal`, with the widget
 * updates left out. Which handler the action button calls ("Check Answer"
 * or "Next Question >>") is part of the state, since it decides what the
 * next click does.
 */
module MainSession {
  import opened Common
  import opened PyText
  import opened MainLoader

  /** The message `_check_answer_clicked` leaves on the page. */
  datatype Feedback = SelectFirst | Correct | Incorrect(correctText: string)

  class Session {
    /** The questions `main` loaded; never reassigned. */
    const questions: seq<Question>
    /** `current_q_index`. */
    var index: int
    /** `score`. */
    var score: int
    /** The action button calls `_next_question_clicked`: the current question has been checked. */
    var checked: bool

    /**
     * The session's invariant: a non-empty list of well-formed questions
     * (what `main` guarantees before building the page), an index within the
     * list or just past it, and at most one point per question checked so far.
     */
    ghost predicate Valid()
      reads this
    {
      && |questions| > 0
      && (forall k :: 0 <= k < |questions| ==> WellFormed(questions[k]))
      && 0 <= index <= |questions|
      && (checked ==> index < |questions|)
      && 0 <= score <= index + (if checked then 1 else 0)
    }

    /** `main` after loading: index and score start at 0, showing the first question. */
    constructor (qs: seq<Question>)
      requires |qs| > 0 && forall k :: 0 <= k < |qs| ==> WellFormed(qs[k])
      ensures Valid()
      ensures questions == qs && index == 0 && score == 0 && !checked
    {
      questions := qs;
      index := 0;
      score := 0;
      checked := false;
    }

    /** `_update_ui` takes its final branch once the index reaches the end of the list. */
    predicate Finished()
      reads this
    {
      index >= |questions|
    }

    /**
     * `_check_answer_clicked`, reachable while a question is shown and not yet
     * checked. Without a selection nothing changes; otherwise the score goes
     * up by one exactly when the selection is the answer key, and the button
     * switches to "Next Question".
     */
    method Check(selected: Option<string>) returns (feedback: Feedback)
      requires Valid() && !checked && index < |questions|
      modifies this
      ensures Valid()
      ensures index == old(index)
      ensures !Truthy(selected) ==> feedback == SelectFirst && score == old(score) && !checked
      ensures Truthy(selected) ==> checked
      ensures score == old(score) + (if selected == Some(questions[index].answer) then 1 else 0)
      ensures feedback == Correct <==> selected == Some(questions[index].answer)
      ensures feedback.Incorrect? <==> Truthy(selected) && selected != Some(questions[index].answer)
      ensures feedback.Incorrect? ==> feedback.correctText == questions[index].options[questions[index].answer]
    {
      if !Truthy(selected) {
        return SelectFirst;
      }
      var correctKey := questions[index].answer;
      if selected.value == correctKey {
        score := score + 1;
        feedback := Correct;
      } else {
        feedback := Incorrect(questions[index].options[correctKey]);
      }
      checked := true;
    }

    /** `_next_question_clicked`: move to the next question (or to the final screen). */
    method Next()
      requires Valid() && checked
      modifies this
      ensures Valid()
      ensures index == old(index) + 1 && score == old(score) && !checked
    {
      index := index + 1;
      checked := false;
    }

    /** `_restart_quiz`, reachable from the "Start Over" button of the final screen. */
    method Restart()
      requires Valid() && Finished()
      modifies this
      ensures Valid()
      ensures index == 0 && score == 0 && !checked
    {
      index := 0;
      score := 0;
      checked := false;
    }

    /** `_update_ui`: the current question while one remains, else the final score out of the total. */
    function View(): (s: Screen)
      requires Valid()
      reads this
      ensures s.Complete? <==> Finished()
      ensures s.Asking? ==> s.prompt == questions[index].question && s.options == questions[index].options
      ensures s.Asking? ==> questions[index].answer in s.options
      ensures s.Complete? ==> s.total == |questions| && s.finalScore == score && 0 <= s.finalScore <= s.total
    {
      if index < |questions| then Asking(questions[index].question, questions[index].options)
      else Complete(score, |questions|)
    }

    /** `_update_score_display` (line 147): the question number shown, clamped to the total. */
    function QuestionNumber(): (n: int)
      requires Valid()
      reads this
      ensures 1 <= n <= |questions|
      ensures !Finished() ==> n == index + 1
      ensures Finished() ==> n == |questions|
    {
      if index < |questions| then index + 1 else |questions|
    }
  }
}
