/** The choice of view for the current slide of a live session
    (src/components/SlideRenderer.tsx). */
module SlideRenderer {
  import opened Wrappers
  import opened EngageTypes

  /** What the slide area shows. `key` is the React key that remounts the
      view when the slide changes. */
  datatype SlideScreen =
    | DataUnavailable
    | Whiteboard(key: string, fileId: string, slideTitle: string)
    | Quiz(key: string, question: AddedQuestion, sessionId: string, slideId: string,
           username: string, attemptsAllowed: int)
    | QuestionMissing(slideId: string, slideTitle: string)
    | Unsupported(source: string, slideTitle: string)

  /** `student_attempts || 1`: a missing or zero allowance means one attempt. */
  function AttemptsAllowed(d: SessionDetails): (r: int)
    ensures r != 0
    ensures d.studentAttempts.Some? && d.studentAttempts.value != 0 ==> r == d.studentAttempts.value
    ensures d.studentAttempts.None? || d.studentAttempts.value == 0 ==> r == 1
  {
    if d.studentAttempts.Some? && d.studentAttempts.value != 0 then d.studentAttempts.value else 1
  }

  /** `SlideRenderer`: the view for a slide given the session state. */
  function RenderSlide(slide: Slide, u: UserSession): (r: SlideScreen)
    ensures u.sessionData.None? <==> r == DataUnavailable
    ensures u.sessionData.Some? && slide.source == SOURCE_EXCALIDRAW ==>
      r == Whiteboard(slide.id, slide.sourceId, slide.title)
    ensures u.sessionData.Some? && slide.source == SOURCE_QUESTION && slide.addedQuestion.Some? ==>
      r == Quiz(slide.id, slide.addedQuestion.value, u.sessionId, slide.id, u.username,
                AttemptsAllowed(u.sessionData.value))
    ensures u.sessionData.Some? && slide.source == SOURCE_QUESTION && slide.addedQuestion.None? ==>
      r == QuestionMissing(slide.id, slide.title)
    ensures u.sessionData.Some? && slide.source != SOURCE_EXCALIDRAW && slide.source != SOURCE_QUESTION ==>
      r == Unsupported(slide.source, slide.title)
  {
    if u.sessionData.None? then DataUnavailable
    else if slide.source == SOURCE_EXCALIDRAW then Whiteboard(slide.id, slide.sourceId, slide.title)
    else if slide.source == SOURCE_QUESTION then
      match slide.addedQuestion
      case Some(q) => Quiz(slide.id, q, u.sessionId, slide.id, u.username, AttemptsAllowed(u.sessionData.value))
      case None => QuestionMissing(slide.id, slide.title)
    else Unsupported(slide.source, slide.title)
  }

  /** A quiz is shown exactly for a question slide that carries its
      question, and then it always allows at least one attempt unless the
      server sent a negative allowance. */
  lemma QuizShownIff(slide: Slide, u: UserSession)
    ensures RenderSlide(slide, u).Quiz? <==>
      u.sessionData.Some? && slide.source == SOURCE_QUESTION && slide.addedQuestion.Some?
    ensures RenderSlide(slide, u).Quiz? && u.sessionData.value.studentAttempts.GetOr(0) >= 0 ==>
      RenderSlide(slide, u).attemptsAllowed >= 1
  {
  }
}
