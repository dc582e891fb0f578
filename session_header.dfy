/** The fixed header of the live-session screens
    (src/components/SessionHeader.tsx): the presentation title, the
    connection indicator with its label, the invite code and a greeting. */
module SessionHeader {
  import opened Wrappers
  import opened EngageTypes

  /** The icon next to the connection label. */
  datatype Indicator = LiveIcon | SpinnerIcon | LostIcon

  datatype Header = Header(
    title: string,
    indicator: Indicator,
    statusText: string,
    inviteCode: string,
    username: string
  )

  const FALLBACK_TITLE: string := "Live Session"

  /** `SseIndicator`: live only when connected, a spinner only while
      connecting, and "connection lost" for every other status. */
  function IndicatorFor(status: SseStatus): (r: Indicator)
    ensures r == LiveIcon <==> status == Connected
    ensures r == SpinnerIcon <==> status == Connecting
    ensures r == LostIcon <==> (status.Reconnecting? || status.Disconnected? || status.Error?)
  {
    if status == Connected then LiveIcon
    else if status == Connecting then SpinnerIcon
    else LostIcon
  }

  /** The text beside the indicator. */
  function StatusLabel(status: SseStatus): (r: string)
    ensures r == "Connected" <==> status == Connected
    ensures r == "Connecting" <==> status == Connecting
    ensures r == "Disconnected" <==> (status.Reconnecting? || status.Disconnected? || status.Error?)
  {
    if status == Connected then "Connected"
    else if status == Connecting then "Connecting"
    else "Disconnected"
  }

  /** `sessionData?.slides.title || 'Live Session'`. */
  function HeaderTitle(u: UserSession): (r: string)
    ensures r != ""
    ensures u.sessionData.Some? && u.sessionData.value.slidesTitle != "" ==> r == u.sessionData.value.slidesTitle
    ensures u.sessionData.None? || u.sessionData.value.slidesTitle == "" ==> r == FALLBACK_TITLE
  {
    if u.sessionData.Some? then OrElse(Some(u.sessionData.value.slidesTitle), FALLBACK_TITLE)
    else FALLBACK_TITLE
  }

  function RenderHeader(u: UserSession): (h: Header)
    ensures h.title == HeaderTitle(u) && h.indicator == IndicatorFor(u.sseStatus)
    ensures h.statusText == StatusLabel(u.sseStatus)
    ensures h.inviteCode == u.inviteCode && h.username == u.username
  {
    Header(HeaderTitle(u), IndicatorFor(u.sseStatus), StatusLabel(u.sseStatus), u.inviteCode, u.username)
  }

  /** The icon and the label never disagree: every header shows one of
      three consistent pairs, and "Disconnected" goes with the lost icon. */
  lemma IndicatorMatchesLabel(u: UserSession)
    ensures var h := RenderHeader(u);
      && (h.indicator == LiveIcon <==> h.statusText == "Connected")
      && (h.indicator == SpinnerIcon <==> h.statusText == "Connecting")
      && (h.indicator == LostIcon <==> h.statusText == "Disconnected")
  {
  }
}
