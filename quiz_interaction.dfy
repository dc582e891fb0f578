/** The answer form shown for a question slide
    (src/components/QuizInteraction.tsx): option selection, the attempt
    budget and the submit flow. The answer submission itself is a parameter:
    its outcome is handed to `FinishSubmit`. */
module QuizInteraction {
  import opened Wrappers
  import opened Text
  import opened Seqs

  const MULTIPLE_CHOICE: string := "MCQM"
  const SELECT_AN_OPTION: string := "Please select an option."
  const NO_MORE_ATTEMPTS: string := "No more attempts allowed for this question."
  const SUBMIT_FAILED: string := "Failed to submit answer."

  /** `isMultipleChoice`: the question type, upper-cased, is `MCQM`. */
  predicate IsMultipleChoice(questionType: string) {
    ToUpper(questionType) == MULTIPLE_CHOICE
  }

  /** The multiple-choice toggle: a selected option is removed, an
      unselected one appended. */
  function Toggle(prev: seq<string>, optionId: string): (r: seq<string>)
    ensures optionId in prev ==> optionId !in r && forall x :: x in r <==> x in prev && x != optionId
    ensures optionId !in prev ==> r == prev + [optionId]
  {
    if optionId in prev then RemoveAll(prev, optionId) else prev + [optionId]
  }

  /** The selection after choosing an option: toggled for multiple choice,
      exactly that option for single choice. */
  function SelectOption(prev: seq<string>, optionId: string, multipleChoice: bool): (r: seq<string>)
    ensures !multipleChoice ==> r == [optionId]
    ensures multipleChoice ==> (optionId in r <==> optionId !in prev)
  {
    if multipleChoice then Toggle(prev, optionId) else [optionId]
  }

  /** A selection without duplicates keeps none after any choice. */
  lemma SelectKeepsDistinct(prev: seq<string>, optionId: string, multipleChoice: bool)
    requires Distinct(prev)
    ensures Distinct(SelectOption(prev, optionId, multipleChoice))
  {
    if multipleChoice && optionId in prev {
      RemoveAllKeepsDistinct(prev, optionId);
    }
  }

  /** Toggling an option twice restores the selection: exactly when it was
      not selected, and up to order when it was. */
  lemma ToggleTwiceRestores(prev: seq<string>, optionId: string)
    requires Distinct(prev)
    ensures optionId !in prev ==> Toggle(Toggle(prev, optionId), optionId) == prev
    ensures forall x :: x in Toggle(Toggle(prev, optionId), optionId) <==> x in prev
  {
    if optionId !in prev {
      AppendThenRemove(prev, optionId);
    }
  }

  /** What `handleSubmit` posts once its checks pass. */
  datatype SubmitPayload = SubmitPayload(
    sessionId: string,
    slideId: string,
    questionId: string,
    username: string,
    selectedOptionIds: seq<string>
  )

  /** The awaited submission's outcome; `Failed("")` is an error without a
      message. */
  datatype SubmitOutcome = Submitted | Failed(message: string)

  /** The error shown after a failed submission: its message, or the
      default text when it has none. */
  function FailureText(message: string): (r: string)
    ensures r != ""
    ensures message != "" ==> r == message
  {
    if message != "" then message else SUBMIT_FAILED
  }

  /** The component's state. The props are constants; `questionId` is the
      prop the reset effect watches. */
  class QuizState {
    const sessionId: string
    const slideId: string
    const username: string
    const questionType: string
    const attemptsAllowed: int
    var questionId: string
    var selectedOptionIds: seq<string>
    var submissionCount: int
    var isSubmitting: bool
    var error: Option<string>

    /** The attempt budget is never overspent, and a submission in flight
        was allowed when it started. */
    ghost predicate Valid()
      reads this
    {
      0 <= submissionCount &&
      (submissionCount <= attemptsAllowed || submissionCount == 0) &&
      (isSubmitting ==> submissionCount < attemptsAllowed) &&
      Distinct(selectedOptionIds)
    }

    /** `canAttempt`. */
    predicate CanAttempt()
      reads this
    {
      submissionCount < attemptsAllowed
    }

    constructor (sessionId: string, slideId: string, username: string, questionId: string, questionType: string, attemptsAllowed: int)
      ensures Valid()
      ensures this.sessionId == sessionId && this.slideId == slideId && this.username == username
      ensures this.questionId == questionId && this.questionType == questionType
      ensures this.attemptsAllowed == attemptsAllowed
      ensures selectedOptionIds == [] && submissionCount == 0 && !isSubmitting && error == None
    {
      this.sessionId := sessionId;
      this.slideId := slideId;
      this.username := username;
      this.questionId := questionId;
      this.questionType := questionType;
      this.attemptsAllowed := attemptsAllowed;
      selectedOptionIds := [];
      submissionCount := 0;
      isSubmitting := false;
      error := None;
    }

    /** The reset effect: a new question id clears the selection, the count
        and the error. */
    method QuestionChanged(newId: string)
      requires Valid()
      modifies this
      ensures Valid()
      ensures questionId == newId && isSubmitting == old(isSubmitting)
      ensures newId != old(questionId) ==>
        selectedOptionIds == [] && submissionCount == 0 && error == None
      ensures newId == old(questionId) ==>
        selectedOptionIds == old(selectedOptionIds) && submissionCount == old(submissionCount) &&
        error == old(error)
    {
      if newId != questionId {
        selectedOptionIds := [];
        submissionCount := 0;
        error := None;
      }
      questionId := newId;
    }

    /** `handleOptionChange`: nothing happens once the attempts are used
        up. */
    method OptionChange(optionId: string)
      requires Valid()
      modifies this
      ensures Valid()
      ensures old(CanAttempt()) ==>
        selectedOptionIds == SelectOption(old(selectedOptionIds), optionId, IsMultipleChoice(questionType))
      ensures !old(CanAttempt()) ==> selectedOptionIds == old(selectedOptionIds)
      ensures submissionCount == old(submissionCount) && isSubmitting == old(isSubmitting)
      ensures error == old(error) && questionId == old(questionId)
    {
      if !CanAttempt() {
        return;
      }
      SelectKeepsDistinct(selectedOptionIds, optionId, IsMultipleChoice(questionType));
      selectedOptionIds := SelectOption(selectedOptionIds, optionId, IsMultipleChoice(questionType));
    }

    /** `handleSubmit` up to the awaited call: an empty selection, then an
        exhausted budget, is reported as an error; otherwise the error is
        cleared, the form is marked as submitting and the payload is sent.
        The submit button is disabled while a submission is in flight. */
    method BeginSubmit() returns (payload: Option<SubmitPayload>)
      requires Valid() && !isSubmitting
      modifies this
      ensures Valid()
      ensures old(selectedOptionIds) == [] ==>
        payload == None && error == Some(SELECT_AN_OPTION) && !isSubmitting
      ensures old(selectedOptionIds) != [] && !old(CanAttempt()) ==>
        payload == None && error == Some(NO_MORE_ATTEMPTS) && !isSubmitting
      ensures old(selectedOptionIds) != [] && old(CanAttempt()) ==>
        payload == Some(SubmitPayload(sessionId, slideId, questionId, username, selectedOptionIds)) &&
        error == None && isSubmitting
      ensures submissionCount == old(submissionCount) && selectedOptionIds == old(selectedOptionIds)
      ensures questionId == old(questionId)
    {
      if |selectedOptionIds| == 0 {
        error := Some(SELECT_AN_OPTION);
        return None;
      }
      if !CanAttempt() {
        error := Some(NO_MORE_ATTEMPTS);
        return None;
      }
      isSubmitting := true;
      error := None;
      payload := Some(SubmitPayload(sessionId, slideId, questionId, username, selectedOptionIds));
    }

    /** The rest of `handleSubmit`: a successful submission uses exactly one
        attempt, a failed one none and sets the error; either way the form
        stops submitting. */
    method FinishSubmit(outcome: SubmitOutcome)
      requires Valid() && isSubmitting
      modifies this
      ensures Valid()
      ensures !isSubmitting
      ensures outcome.Submitted? ==> submissionCount == old(submissionCount) + 1 && error == old(error)
      ensures outcome.Failed? ==>
        submissionCount == old(submissionCount) && error == Some(FailureText(outcome.message))
      ensures submissionCount <= attemptsAllowed
      ensures selectedOptionIds == old(selectedOptionIds) && questionId == old(questionId)
    {
      match outcome {
        case Submitted =>
          submissionCount := submissionCount + 1;
        case Failed(message) =>
          error := Some(FailureText(message));
      }
      isSubmitting := false;
    }
  }
}
