/** The records of the live "engage" session that the client keeps and the
    server pushes (src/types/index.ts), reduced to the fields the session
    client, the session screens and the quiz read. */
module EngageTypes {
  import opened Wrappers

  /** `AddedQuestion`: the question carried by a question slide. */
  datatype AddedQuestion = AddedQuestion(
    id: string,
    questionType: string,
    optionIds: seq<string>
  )

  /** `Slide` of a live presentation. `source` is the server's string
      (`"excalidraw"`, `"question"` or anything else). */
  datatype Slide = Slide(
    id: string,
    title: string,
    sourceId: string,
    source: string,
    slideOrder: int,
    addedQuestion: Option<AddedQuestion>
  )

  /** `SessionDetailsResponse`. `sessionStatus` is kept as the server's
      string: the screens have a branch for values outside the five named
      ones, and `""` is falsy where the code tests it. `slidesTitle` and
      `addedSlides` are `slides.title` and `slides.added_slides`. */
  datatype SessionDetails = SessionDetails(
    sessionId: string,
    inviteCode: string,
    sessionStatus: string,
    studentAttempts: Option<int>,
    slidesTitle: string,
    addedSlides: seq<Slide>,
    currentSlideIndex: int
  )

  /** `UserSession['sseStatus']`. */
  datatype SseStatus = Connecting | Connected | Reconnecting | Disconnected | Error

  /** `UserSession`: what the client shows for one participant. */
  datatype UserSession = UserSession(
    username: string,
    inviteCode: string,
    sessionId: string,
    sessionData: Option<SessionDetails>,
    currentSlide: Option<Slide>,
    sseStatus: SseStatus,
    error: Option<string>
  )

  /** `SseEventData` of a `session_event_learner` event; `eventType` is its
      `type` field. */
  datatype SseEvent = SseEvent(
    message: Option<string>,
    status: Option<string>,
    eventType: string,
    currentSlideIndex: Option<int>,
    slideData: Option<Slide>
  )

  const INIT: string := "INIT"
  const STARTED: string := "STARTED"
  const PAUSED: string := "PAUSED"
  const ENDED: string := "ENDED"
  const CANCELLED: string := "CANCELLED"

  const SOURCE_EXCALIDRAW: string := "excalidraw"
  const SOURCE_QUESTION: string := "question"
}
