/** The top-level screen of a live session
    (src/components/SessionController.tsx): which of the initialising,
    error, loading and live screens the participant sees for a session state. */
module SessionController {
  import opened Wrappers
  import opened EngageTypes
  import opened SessionHeader
  import opened SlideRenderer
  import EngageSession

  /** The content under the header of the live screen. */
  datatype MainContent =
    | WaitingRoom(sessionTitle: string)
    | SlideView(slide: SlideScreen)
    | SlideLoading
    | EndedScreen(sessionTitle: string)
    | UnknownState(message: string)

  datatype Screen =
    | Initializing
    | SessionError(errorHeader: Option<Header>, message: string)
    | LoadingData
    | LiveScreen(header: Header, banner: Option<string>, content: MainContent)

  function UnknownStateMessage(status: string): string {
    "The session is in an unrecognized state: " + status + "."
  }

  /** `MainContent`: the switch on the session status. */
  function ContentFor(u: UserSession, d: SessionDetails): (c: MainContent)
    ensures d.sessionStatus == INIT <==> c.WaitingRoom?
    ensures d.sessionStatus in {STARTED, PAUSED} <==> c.SlideView? || c.SlideLoading?
    ensures d.sessionStatus in {ENDED, CANCELLED} <==> c.EndedScreen?
    ensures c.WaitingRoom? || c.EndedScreen? ==> c.sessionTitle == d.slidesTitle
    ensures c.SlideView? <==> d.sessionStatus in {STARTED, PAUSED} && u.currentSlide.Some?
    ensures c.UnknownState? ==> c.message == UnknownStateMessage(d.sessionStatus)
  {
    if d.sessionStatus == INIT then WaitingRoom(d.slidesTitle)
    else if d.sessionStatus == STARTED || d.sessionStatus == PAUSED then
      (if u.currentSlide.Some? then SlideView(RenderSlide(u.currentSlide.value, u)) else SlideLoading)
    else if d.sessionStatus == ENDED || d.sessionStatus == CANCELLED then EndedScreen(d.slidesTitle)
    else UnknownState(UnknownStateMessage(d.sessionStatus))
  }

  /** `SessionController`: the guards in their order, then the live screen
      with its header, the connection banner and the content. */
  function SelectScreen(u: UserSession): (s: Screen)
    ensures s.Initializing? <==>
      u.sseStatus == Connecting && (u.sessionData.None? || u.sessionData.value.sessionStatus == "")
    ensures s.SessionError? <==> !s.Initializing? && Truthy(u.error) && u.sseStatus == Error
    ensures s.SessionError? ==>
      s.message == u.error.value && (s.errorHeader.Some? <==> u.sessionData.None?)
    ensures s.LoadingData? <==> u.sessionData.None? && !s.Initializing? && !s.SessionError?
    ensures s.LiveScreen? ==>
      && u.sessionData.Some?
      && s.header == RenderHeader(u)
      && s.content == ContentFor(u, u.sessionData.value)
      && (s.banner.Some? <==> u.sseStatus == Disconnected && Truthy(u.error))
      && (s.banner.Some? ==> s.banner.value == u.error.value)
  {
    if u.sseStatus == Connecting && !(u.sessionData.Some? && u.sessionData.value.sessionStatus != "") then
      Initializing
    else if Truthy(u.error) && u.sseStatus == Error then
      SessionError(if u.sessionData.None? then Some(RenderHeader(u)) else None, u.error.value)
    else if u.sessionData.None? then LoadingData
    else
      LiveScreen(RenderHeader(u),
                 if u.sseStatus == Disconnected && Truthy(u.error) then Some(u.error.value) else None,
                 ContentFor(u, u.sessionData.value))
  }

  /** The participant sees the current slide exactly when the session has
      data, a started or paused status and a current slide, and the
      connection is neither still initialising nor failed with an error. */
  lemma SlideShownIff(u: UserSession)
    ensures (SelectScreen(u).LiveScreen? && SelectScreen(u).content.SlideView?) <==>
      && u.sessionData.Some?
      && u.sessionData.value.sessionStatus in {STARTED, PAUSED}
      && u.currentSlide.Some?
      && !(Truthy(u.error) && u.sseStatus == Error)
  {
  }

  /** An event stream that stays connected never shows the error screen,
      whatever the reducer does to the session state. */
  lemma ConnectedNeverShowsError(u: UserSession, ev: SseEvent)
    requires u.sseStatus == Connected
    ensures !SelectScreen(u).SessionError?
    ensures !SelectScreen(EngageSession.Reduce(u, ev)).SessionError?
  {
  }
}
