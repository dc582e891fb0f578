/** The live-session client of src/hooks/useEngageSession.ts: the initial
    session state, the partial-update merge, the `session_event_learner`
    reducer, and the connector with its bounded exponential-backoff
    reconnect policy and client heartbeat.

    The reducer and every connector transition are pure functions; the
    class `EngageConnection` holds the hook's refs and state and its
    methods are proved to perform exactly those transitions. */
module EngageSession {
  import opened Wrappers
  import opened Text
  import opened EngageTypes

  // ---------------------------------------------------------------------
  // Constants of the hook
  // ---------------------------------------------------------------------

  const MAX_RECONNECT_ATTEMPTS: nat := 10
  const INITIAL_RECONNECT_DELAY_MS: nat := 1000
  const MAX_RECONNECT_DELAY_MS: nat := 30000

  const MISSING_IDS_MESSAGE: string := "Missing username or session ID for SSE connection."
  const GAVE_UP_MESSAGE: string :=
    "Max reconnection attempts reached. Please check your connection or try rejoining."
  const DEFAULT_EVENT_ERROR: string := "An error occurred in the session."

  // ---------------------------------------------------------------------
  // Slide lookup
  // ---------------------------------------------------------------------

  /** `added_slides.findIndex(s => s.slide_order === order)`. */
  function IndexOfOrder(slides: seq<Slide>, order: int): (r: Option<nat>)
    ensures r.Some? ==> r.value < |slides| && slides[r.value].slideOrder == order
    ensures r.Some? ==> forall j :: 0 <= j < r.value ==> slides[j].slideOrder != order
    ensures r.None? ==> forall j :: 0 <= j < |slides| ==> slides[j].slideOrder != order
  {
    if |slides| == 0 then None
    else if slides[0].slideOrder == order then Some(0)
    else match IndexOfOrder(slides[1..], order)
      case None => None
      case Some(k) => Some(k + 1)
  }

  /** `added_slides.findIndex(s => s.id === id)`. */
  function IndexOfId(slides: seq<Slide>, id: string): (r: Option<nat>)
    ensures r.Some? ==> r.value < |slides| && slides[r.value].id == id
    ensures r.Some? ==> forall j :: 0 <= j < r.value ==> slides[j].id != id
    ensures r.None? ==> forall j :: 0 <= j < |slides| ==> slides[j].id != id
  {
    if |slides| == 0 then None
    else if slides[0].id == id then Some(0)
    else match IndexOfId(slides[1..], id)
      case None => None
      case Some(k) => Some(k + 1)
  }

  /** `added_slides.find(s => s.slide_order === order) || null`. */
  function SlideAtOrder(slides: seq<Slide>, order: int): (r: Option<Slide>)
    ensures r.Some? ==> r.value in slides && r.value.slideOrder == order
    ensures r.None? <==> forall j :: 0 <= j < |slides| ==> slides[j].slideOrder != order
  {
    match IndexOfOrder(slides, order)
    case None => None
    case Some(i) => Some(slides[i])
  }

  /** The resolution invariant: when session details are present, the
      current slide is the slide of `added_slides` whose order is the active
      index (none when no slide has it). */
  predicate CurrentSlideResolved(u: UserSession) {
    u.sessionData.Some? ==>
      u.currentSlide == SlideAtOrder(u.sessionData.value.addedSlides, u.sessionData.value.currentSlideIndex)
  }

  // ---------------------------------------------------------------------
  // Session state store
  // ---------------------------------------------------------------------

  /** The `useState` initialiser: the snapshot becomes the session data and
      the current slide is looked up by the snapshot's active index. */
  function InitialSession(username: string, inviteCode: string, initial: SessionDetails): (u: UserSession)
    ensures u.username == username && u.inviteCode == inviteCode
    ensures u.sessionId == initial.sessionId && u.sessionData == Some(initial)
    ensures u.sseStatus == Connecting && u.error == None
    ensures u.currentSlide.Some? ==>
      u.currentSlide.value in initial.addedSlides && u.currentSlide.value.slideOrder == initial.currentSlideIndex
    ensures u.currentSlide.None? <==> forall s :: s in initial.addedSlides ==> s.slideOrder != initial.currentSlideIndex
    ensures CurrentSlideResolved(u)
  {
    UserSession(username, inviteCode, initial.sessionId, Some(initial),
                SlideAtOrder(initial.addedSlides, initial.currentSlideIndex), Connecting, None)
  }

  /** The fields a `Partial<UserSession>` names; an absent field keeps its value. */
  datatype SessionUpdate = SessionUpdate(
    sessionData: Option<Option<SessionDetails>>,
    currentSlide: Option<Option<Slide>>,
    sseStatus: Option<SseStatus>,
    error: Option<Option<string>>
  )

  /** `updateSessionState`: `{ ...prev, ...updates }`. */
  function Merge(prev: UserSession, upd: SessionUpdate): (next: UserSession)
    ensures next.username == prev.username && next.inviteCode == prev.inviteCode
    ensures next.sessionId == prev.sessionId
    ensures next.sessionData == upd.sessionData.GetOr(prev.sessionData)
    ensures next.currentSlide == upd.currentSlide.GetOr(prev.currentSlide)
    ensures next.sseStatus == upd.sseStatus.GetOr(prev.sseStatus)
    ensures next.error == upd.error.GetOr(prev.error)
  {
    prev.(sessionData := upd.sessionData.GetOr(prev.sessionData),
          currentSlide := upd.currentSlide.GetOr(prev.currentSlide),
          sseStatus := upd.sseStatus.GetOr(prev.sseStatus),
          error := upd.error.GetOr(prev.error))
  }

  /** An update that names no field changes nothing, and merging is
      last-writer-wins field by field. */
  lemma MergeLaws(u: UserSession, a: SessionUpdate, b: SessionUpdate)
    ensures Merge(u, SessionUpdate(None, None, None, None)) == u
    ensures b.sessionData.Some? && b.currentSlide.Some? && b.sseStatus.Some? && b.error.Some? ==>
      Merge(Merge(u, a), b) == Merge(u, b)
  {
  }

  // ---------------------------------------------------------------------
  // Event reducer
  // ---------------------------------------------------------------------

  /** A `CURRENT_SLIDE` event on an `INIT` session starts it. */
  function ImplicitStart(data: Option<SessionDetails>, ev: SseEvent): (r: Option<SessionDetails>)
    ensures r.Some? <==> data.Some?
    ensures r.Some? ==> r.value.(sessionStatus := data.value.sessionStatus) == data.value
    ensures r.Some? ==> (r.value.sessionStatus != data.value.sessionStatus <==>
      ev.eventType == "CURRENT_SLIDE" && data.value.sessionStatus == INIT)
    ensures r.Some? && r.value.sessionStatus != data.value.sessionStatus ==> r.value.sessionStatus == STARTED
  {
    if ev.eventType == "CURRENT_SLIDE" && data.Some? && data.value.sessionStatus == INIT
    then Some(data.value.(sessionStatus := STARTED))
    else data
  }

  /** A truthy `status` in the event overrides the session status. */
  function ExplicitStatus(data: Option<SessionDetails>, ev: SseEvent): (r: Option<SessionDetails>)
    ensures r.Some? <==> data.Some?
    ensures r.Some? ==> r.value.(sessionStatus := data.value.sessionStatus) == data.value
    ensures r.Some? && Truthy(ev.status) ==> r.value.sessionStatus == ev.status.value
    ensures r.Some? && !Truthy(ev.status) ==> r.value == data.value
  {
    if Truthy(ev.status) && data.Some? then Some(data.value.(sessionStatus := ev.status.value))
    else data
  }

  /** `added_slides[findIndex(id)] = slide_data` when a slide with that id exists. */
  function PatchSlide(slides: seq<Slide>, slide: Slide): (r: seq<Slide>)
    ensures |r| == |slides|
    ensures forall j :: 0 <= j < |slides| && slides[j].id != slide.id ==> r[j] == slides[j]
    ensures (exists j :: 0 <= j < |slides| && slides[j].id == slide.id) ==>
      exists i :: 0 <= i < |slides| && slides[i].id == slide.id
        && (forall j :: 0 <= j < i ==> slides[j].id != slide.id) && r == slides[i := slide]
    ensures (forall j :: 0 <= j < |slides| ==> slides[j].id != slide.id) ==> r == slides
  {
    match IndexOfId(slides, slide.id)
    case None => slides
    case Some(i) => slides[i := slide]
  }

  /** The `session_event_learner` listener: the next session state computed
      from the previous one and one event. */
  function Reduce(prev: UserSession, ev: SseEvent): (next: UserSession)
    // Only session data, current slide and error change; the connection
    // status is never touched by an event.
    ensures next.username == prev.username && next.inviteCode == prev.inviteCode
    ensures next.sessionId == prev.sessionId && next.sseStatus == prev.sseStatus
    ensures next.sessionData.Some? <==> prev.sessionData.Some?
    // Status: the implicit start, then the explicit status over it.
    ensures prev.sessionData.Some? ==>
      var before := prev.sessionData.value.sessionStatus;
      var after := next.sessionData.value.sessionStatus;
      && (Truthy(ev.status) ==> after == ev.status.value)
      && (!Truthy(ev.status) && ev.eventType == "CURRENT_SLIDE" && before == INIT ==> after == STARTED)
      && (!Truthy(ev.status) && !(ev.eventType == "CURRENT_SLIDE" && before == INIT) ==> after == before)
    // Everything else in the session record but the index and the slides is kept.
    ensures prev.sessionData.Some? ==>
      var d, e := prev.sessionData.value, next.sessionData.value;
      e.sessionId == d.sessionId && e.inviteCode == d.inviteCode && e.slidesTitle == d.slidesTitle
      && e.studentAttempts == d.studentAttempts
    // Active index: the event's value when it carries one.
    ensures prev.sessionData.Some? ==>
      next.sessionData.value.currentSlideIndex ==
        ev.currentSlideIndex.GetOr(prev.sessionData.value.currentSlideIndex)
    // Slides: only a slide payload patches the slide with its id.
    ensures prev.sessionData.Some? && ev.slideData.None? ==>
      next.sessionData.value.addedSlides == prev.sessionData.value.addedSlides
    ensures prev.sessionData.Some? && ev.slideData.Some? ==>
      next.sessionData.value.addedSlides == PatchSlide(prev.sessionData.value.addedSlides, ev.slideData.value)
    // Current slide.
    ensures ev.slideData.Some? ==> next.currentSlide == ev.slideData
    ensures ev.slideData.None? && ev.currentSlideIndex.Some? && prev.sessionData.Some? ==>
      next.currentSlide == SlideAtOrder(prev.sessionData.value.addedSlides, ev.currentSlideIndex.value)
    ensures ev.slideData.None? && (ev.currentSlideIndex.None? || prev.sessionData.None?) ==>
      next.currentSlide == prev.currentSlide
    // Error: set only by an ERROR event.
    ensures ev.eventType == "ERROR" ==> next.error == Some(OrElse(ev.message, DEFAULT_EVENT_ERROR))
    ensures ev.eventType != "ERROR" ==> next.error == prev.error
  {
    var d1 := ImplicitStart(prev.sessionData, ev);
    var d2 := ExplicitStatus(d1, ev);
    var d3 := if ev.currentSlideIndex.Some? && d2.Some?
              then Some(d2.value.(currentSlideIndex := ev.currentSlideIndex.value))
              else d2;
    var s3 := if ev.currentSlideIndex.Some? && d2.Some?
              then SlideAtOrder(d2.value.addedSlides, ev.currentSlideIndex.value)
              else prev.currentSlide;
    var d4 := if ev.slideData.Some? && d3.Some?
              then Some(d3.value.(addedSlides := PatchSlide(d3.value.addedSlides, ev.slideData.value)))
              else d3;
    var s4 := if ev.slideData.Some? then ev.slideData else s3;
    prev.(sessionData := d4,
          currentSlide := s4,
          error := if ev.eventType == "ERROR" then Some(OrElse(ev.message, DEFAULT_EVENT_ERROR)) else prev.error)
  }

  /** An event without a slide payload keeps the resolution invariant: it either
      resolves the current slide from the new index or leaves index, slides
      and current slide as they were. */
  lemma ReducePreservesResolution(prev: UserSession, ev: SseEvent)
    requires CurrentSlideResolved(prev)
    requires ev.slideData.None?
    ensures CurrentSlideResolved(Reduce(prev, ev))
  {
  }

  /** Slides of order 0 and 1, status INIT: a CURRENT_SLIDE event with
      index 1 yields STARTED and slide "b". */
  lemma FirstSlideStartsSession(a: Slide, b: Slide, d: SessionDetails, u: UserSession)
    requires a.id == "a" && a.slideOrder == 0 && b.id == "b" && b.slideOrder == 1
    requires d.addedSlides == [a, b] && d.sessionStatus == INIT
    requires u.sessionData == Some(d)
    ensures var next := Reduce(u, SseEvent(None, None, "CURRENT_SLIDE", Some(1), None));
      && next.sessionData.value.sessionStatus == STARTED
      && next.currentSlide.Some? && next.currentSlide.value.id == "b"
  {
    assert IndexOfOrder([a, b], 1) == Some(1);
  }

  /** An index that no slide has clears the current slide but is still
      recorded as the active index. */
  lemma UnknownIndexClearsSlide(u: UserSession, ev: SseEvent)
    requires u.sessionData.Some? && ev.slideData.None? && ev.currentSlideIndex.Some?
    requires forall s :: s in u.sessionData.value.addedSlides ==> s.slideOrder != ev.currentSlideIndex.value
    ensures Reduce(u, ev).currentSlide == None
    ensures Reduce(u, ev).sessionData.value.currentSlideIndex == ev.currentSlideIndex.value
  {
  }

  /** A slide payload becomes the current slide even when its order is not
      the active index, so the resolution invariant does not survive such an
      event. */
  lemma SlidePayloadMayBreakResolution()
    ensures var s0 := Slide("a", "", "", SOURCE_EXCALIDRAW, 0, None);
      var s1 := Slide("b", "", "", SOURCE_EXCALIDRAW, 1, None);
      var d := SessionDetails("id", "CODE", STARTED, None, "", [s0, s1], 0);
      var u := UserSession("ann", "CODE", "id", Some(d), Some(s0), Connected, None);
      CurrentSlideResolved(u)
      && !CurrentSlideResolved(Reduce(u, SseEvent(None, None, "SLIDE_UPDATE", None, Some(s1))))
  {
    var s0 := Slide("a", "", "", SOURCE_EXCALIDRAW, 0, None);
    var s1 := Slide("b", "", "", SOURCE_EXCALIDRAW, 1, None);
    assert IndexOfOrder([s0, s1], 0) == Some(0);
    assert IndexOfId([s0, s1], "b") == Some(1);
  }

  // ---------------------------------------------------------------------
  // Reconnect policy
  // ---------------------------------------------------------------------

  function Pow2(k: nat): (r: nat)
    ensures r >= 1
  {
    if k == 0 then 1 else 2 * Pow2(k - 1)
  }

  lemma {:induction false} Pow2Monotone(j: nat, k: nat)
    requires j <= k
    ensures Pow2(j) <= Pow2(k)
    decreases k
  {
    if j < k {
      Pow2Monotone(j, k - 1);
    }
  }

  /** `Math.min(INITIAL_RECONNECT_DELAY_MS * Math.pow(2, attempt), 30000)`. */
  function BackoffDelay(attempt: nat): (d: nat)
    ensures d <= MAX_RECONNECT_DELAY_MS
  {
    var raw := INITIAL_RECONNECT_DELAY_MS * Pow2(attempt);
    if raw < MAX_RECONNECT_DELAY_MS then raw else MAX_RECONNECT_DELAY_MS
  }

  /** Every retry waits between 2 and 30 seconds: the attempt counter is
      incremented before the delay is computed, so the exponent is at least 1. */
  lemma BackoffDelayBounds(attempt: nat)
    requires attempt >= 1
    ensures 2000 <= BackoffDelay(attempt) <= 30000
  {
    Pow2Monotone(1, attempt);
  }

  /** The delay never decreases as the attempt count grows. */
  lemma BackoffDelayMonotone(j: nat, k: nat)
    requires j <= k
    ensures BackoffDelay(j) <= BackoffDelay(k)
  {
    Pow2Monotone(j, k);
  }

  /** The delays of the ten retries: 2, 4, 8 and 16 seconds, then the 30-second ceiling. */
  lemma BackoffSchedule()
    ensures BackoffDelay(1) == 2000 && BackoffDelay(2) == 4000
    ensures BackoffDelay(3) == 8000 && BackoffDelay(4) == 16000
    ensures forall k :: 5 <= k <= MAX_RECONNECT_ATTEMPTS ==> BackoffDelay(k) == 30000
  {
    assert Pow2(5) == 32;
    forall k | 5 <= k <= MAX_RECONNECT_ATTEMPTS ensures BackoffDelay(k) == 30000 {
      Pow2Monotone(5, k);
    }
  }

  function ReconnectingMessage(attempt: nat): string {
    "Connection lost. Attempting to reconnect (" + NatToString(attempt) + "/"
      + NatToString(MAX_RECONNECT_ATTEMPTS) + ")..."
  }

  // ---------------------------------------------------------------------
  // Connector
  // ---------------------------------------------------------------------

  /** `EventSource.readyState`. */
  datatype ReadyState = Opening | Open | Closed

  /** `eventSourceRef.current`: no event source, or one in some ready state. */
  datatype StreamRef = NoStream | Stream(readyState: ReadyState)

  /** Everything the hook keeps for one participant: the session state, the
      attempt counter, the event-source ref, whether the heartbeat interval
      runs, and the delays of reconnect timers scheduled but not yet fired. */
  datatype Connection = Connection(
    session: UserSession,
    attempts: nat,
    stream: StreamRef,
    heartbeat: bool,
    pendingReconnects: seq<nat>
  )

  predicate AttemptsBounded(c: Connection) {
    c.attempts <= MAX_RECONNECT_ATTEMPTS
  }

  function Closing(s: StreamRef): StreamRef {
    if s.NoStream? then NoStream else Stream(Closed)
  }

  function NewConnection(username: string, inviteCode: string, initial: SessionDetails): (c: Connection)
    ensures AttemptsBounded(c) && c.stream == NoStream && !c.heartbeat && c.pendingReconnects == []
  {
    Connection(InitialSession(username, inviteCode, initial), 0, NoStream, false, [])
  }

  /** `connectSse`: refuses to connect without a username or a session id;
      otherwise stops the heartbeat, drops the old event source and opens a
      new one. */
  function Connect(c: Connection): (r: Connection)
    ensures r.attempts == c.attempts && r.pendingReconnects == c.pendingReconnects
    ensures c.session.username == "" || c.session.sessionId == "" ==>
      && r.stream == c.stream && r.heartbeat == c.heartbeat
      && r.session == c.session.(sseStatus := Error, error := Some(MISSING_IDS_MESSAGE))
    ensures c.session.username != "" && c.session.sessionId != "" ==>
      && r.stream == Stream(Opening) && !r.heartbeat
      && r.session == c.session.(sseStatus := Connecting)
  {
    if c.session.username == "" || c.session.sessionId == "" then
      c.(session := Merge(c.session, SessionUpdate(None, None, Some(Error), Some(Some(MISSING_IDS_MESSAGE)))))
    else
      c.(heartbeat := false, stream := Stream(Opening),
         session := Merge(c.session, SessionUpdate(None, None, Some(Connecting), None)))
  }

  /** `onopen`: resets the attempt counter, reports the connection and
      starts the heartbeat. */
  function Opened(c: Connection): (r: Connection)
    ensures r.attempts == 0 && r.heartbeat && r.stream == Stream(Open)
    ensures r.session == c.session.(sseStatus := Connected, error := None)
    ensures r.pendingReconnects == c.pendingReconnects
  {
    c.(attempts := 0, stream := Stream(Open), heartbeat := true,
       session := Merge(c.session, SessionUpdate(None, None, Some(Connected), Some(None))))
  }

  /** `onerror`: closes the failed event source, then either schedules a
      retry with exponential backoff or, after the last attempt, gives up
      and stops the heartbeat. */
  function Failed(c: Connection): (r: Connection)
    ensures r.stream == Closing(c.stream)
    ensures r.session.sessionData == c.session.sessionData && r.session.currentSlide == c.session.currentSlide
    ensures c.attempts < MAX_RECONNECT_ATTEMPTS ==>
      && r.attempts == c.attempts + 1
      && r.pendingReconnects == c.pendingReconnects + [BackoffDelay(c.attempts + 1)]
      && r.session.sseStatus == Reconnecting
      && r.session.error == Some(ReconnectingMessage(c.attempts + 1))
      && r.heartbeat == c.heartbeat
    ensures c.attempts >= MAX_RECONNECT_ATTEMPTS ==>
      && r.attempts == c.attempts && r.pendingReconnects == c.pendingReconnects
      && r.session.sseStatus == Error && r.session.error == Some(GAVE_UP_MESSAGE)
      && !r.heartbeat
  {
    var closed := c.(stream := Closing(c.stream));
    if c.attempts < MAX_RECONNECT_ATTEMPTS then
      var n := c.attempts + 1;
      closed.(attempts := n,
              pendingReconnects := c.pendingReconnects + [BackoffDelay(n)],
              session := Merge(c.session, SessionUpdate(None, None, Some(Reconnecting), Some(Some(ReconnectingMessage(n))))))
    else
      closed.(heartbeat := false,
              session := Merge(c.session, SessionUpdate(None, None, Some(Error), Some(Some(GAVE_UP_MESSAGE)))))
  }

  /** The reconnect timer with index `i` fires: it is no longer pending and
      `connectSse` runs. */
  function ReconnectFired(c: Connection, i: nat): (r: Connection)
    requires i < |c.pendingReconnects|
    ensures |r.pendingReconnects| == |c.pendingReconnects| - 1
    ensures r == Connect(c.(pendingReconnects := c.pendingReconnects[..i] + c.pendingReconnects[i + 1..]))
  {
    Connect(c.(pendingReconnects := c.pendingReconnects[..i] + c.pendingReconnects[i + 1..]))
  }

  predicate EndsSession(ev: SseEvent) {
    Truthy(ev.status) && (ev.status.value == ENDED || ev.status.value == CANCELLED)
  }

  /** A `session_event_learner` event: the reducer's result becomes the
      session state; an ENDED or CANCELLED status also closes the event
      source and stops the heartbeat. */
  function Delivered(c: Connection, ev: SseEvent): (r: Connection)
    ensures r.session == Reduce(c.session, ev)
    ensures r.attempts == c.attempts && r.pendingReconnects == c.pendingReconnects
    ensures EndsSession(ev) ==> r.stream == Closing(c.stream) && !r.heartbeat
    ensures !EndsSession(ev) ==> r.stream == c.stream && r.heartbeat == c.heartbeat
  {
    var next := Reduce(c.session, ev);
    var r := c.(session := Merge(c.session, SessionUpdate(Some(next.sessionData), Some(next.currentSlide), None, Some(next.error))));
    if EndsSession(ev) then r.(stream := Closing(c.stream), heartbeat := false) else r
  }

  /** The unmount cleanup of the effect: closes and drops the event source,
      stops the heartbeat, resets the attempt counter and reports
      `disconnected`. Reconnect timers already scheduled are not cancelled. */
  function Unmounted(c: Connection): (r: Connection)
    ensures r.stream == NoStream && !r.heartbeat && r.attempts == 0
    ensures r.session == c.session.(sseStatus := Disconnected)
    ensures r.pendingReconnects == c.pendingReconnects
  {
    c.(stream := NoStream, heartbeat := false, attempts := 0,
       session := Merge(c.session, SessionUpdate(None, None, Some(Disconnected), None)))
  }

  /** Every transition keeps the attempt counter within the bound. */
  lemma TransitionsKeepAttemptsBounded(c: Connection, ev: SseEvent, i: nat)
    requires AttemptsBounded(c)
    ensures AttemptsBounded(Connect(c)) && AttemptsBounded(Opened(c)) && AttemptsBounded(Failed(c))
    ensures AttemptsBounded(Delivered(c, ev)) && AttemptsBounded(Unmounted(c))
    ensures i < |c.pendingReconnects| ==> AttemptsBounded(ReconnectFired(c, i))
  {
  }

  /** Tearing down twice is tearing down once. */
  lemma UnmountIdempotent(c: Connection)
    ensures Unmounted(Unmounted(c)) == Unmounted(c)
  {
  }

  /** `n` rounds of "the stream fails, its retry timer fires". */
  function RetryRounds(c: Connection, n: nat): Connection
    decreases n
  {
    if n == 0 || |Failed(c).pendingReconnects| == 0 then c
    else RetryRounds(ReconnectFired(Failed(c), |Failed(c).pendingReconnects| - 1), n - 1)
  }

  predicate Reconnectable(c: Connection) {
    c.session.username != "" && c.session.sessionId != "" && c.pendingReconnects == []
  }

  /** One round under the bound: the failure schedules exactly one retry,
      and its timer reconnects with one more attempt counted. */
  lemma OneRetry(c: Connection, n: nat)
    requires Reconnectable(c) && c.attempts < MAX_RECONNECT_ATTEMPTS && n > 0
    ensures var g := ReconnectFired(Failed(c), 0);
      && g.attempts == c.attempts + 1
      && Reconnectable(g)
      && g.session.sseStatus == Connecting && g.stream == Stream(Opening)
      && RetryRounds(c, n) == RetryRounds(g, n - 1)
  {
    var f := Failed(c);
    assert f.pendingReconnects == [BackoffDelay(c.attempts + 1)];
  }

  /** While the bound is not reached, each failed connection is retried:
      after `n` failures the client is connecting again, with `n` more
      attempts counted and no timer left pending. */
  lemma {:induction false} RetriesWhileUnderBound(c: Connection, n: nat)
    requires Reconnectable(c) && c.attempts + n <= MAX_RECONNECT_ATTEMPTS
    ensures var r := RetryRounds(c, n);
      && r.attempts == c.attempts + n
      && Reconnectable(r)
      && (n > 0 ==> r.session.sseStatus == Connecting && r.stream == Stream(Opening))
      && (n == 0 ==> r == c)
    decreases n
  {
    if n > 0 {
      OneRetry(c, n);
      var g := ReconnectFired(Failed(c), 0);
      RetriesWhileUnderBound(g, n - 1);
      var r := RetryRounds(g, n - 1);
      assert r.attempts == g.attempts + (n - 1) && Reconnectable(r);
      assert n - 1 > 0 ==> r.session.sseStatus == Connecting && r.stream == Stream(Opening);
      assert n - 1 == 0 ==> r == g;
    }
  }

  /** From a fresh counter, five failures leave the client reconnecting,
      never in the terminal error state. */
  lemma FiveFailuresKeepRetrying(c: Connection)
    requires Reconnectable(c) && c.attempts == 0
    ensures RetryRounds(c, 5).attempts == 5
    ensures RetryRounds(c, 5).session.sseStatus == Connecting
  {
    RetriesWhileUnderBound(c, 5);
  }

  /** After the tenth retry the next failure is terminal: status `error`,
      heartbeat stopped, nothing scheduled. */
  lemma GivesUpAfterMaxAttempts(c: Connection)
    requires Reconnectable(c) && c.attempts == 0
    ensures var f := Failed(RetryRounds(c, MAX_RECONNECT_ATTEMPTS));
      && f.session.sseStatus == Error && f.session.error == Some(GAVE_UP_MESSAGE)
      && !f.heartbeat && f.pendingReconnects == []
  {
    RetriesWhileUnderBound(c, MAX_RECONNECT_ATTEMPTS);
  }

  /** A successful open after giving up starts the count again from zero. */
  lemma OpenAfterGivingUpResets(c: Connection)
    requires c.attempts == MAX_RECONNECT_ATTEMPTS
    ensures Opened(Connect(Failed(c))).attempts == 0
    ensures Opened(Connect(Failed(c))).session.sseStatus == Connected
  {
  }

  /** The hook's refs and state for one participant. Each method performs
      one transition of the connector, as the pure function of the same
      role states it. */
  class EngageConnection {
    var session: UserSession
    var reconnectAttempts: nat
    var eventSource: StreamRef
    var heartbeatRunning: bool
    var scheduledReconnects: seq<nat>

    function Snapshot(): Connection
      reads this
    {
      Connection(session, reconnectAttempts, eventSource, heartbeatRunning, scheduledReconnects)
    }

    ghost predicate Valid()
      reads this
    {
      AttemptsBounded(Snapshot())
    }

    constructor (username: string, inviteCode: string, initial: SessionDetails)
      ensures Valid()
      ensures Snapshot() == NewConnection(username, inviteCode, initial)
    {
      session := InitialSession(username, inviteCode, initial);
      reconnectAttempts := 0;
      eventSource := NoStream;
      heartbeatRunning := false;
      scheduledReconnects := [];
    }

    method ConnectSse()
      requires Valid()
      modifies this
      ensures Valid() && Snapshot() == Connect(old(Snapshot()))
    {
      if session.username == "" || session.sessionId == "" {
        session := session.(error := Some(MISSING_IDS_MESSAGE), sseStatus := Error);
        return;
      }
      heartbeatRunning := false;
      eventSource := Stream(Opening);
      session := session.(sseStatus := Connecting);
    }

    /** The transport reports the new event source open. */
    method OnOpen()
      requires Valid() && eventSource == Stream(Opening)
      modifies this
      ensures Valid() && Snapshot() == Opened(old(Snapshot()))
    {
      reconnectAttempts := 0;
      eventSource := Stream(Open);
      session := session.(sseStatus := Connected, error := None);
      heartbeatRunning := true;
    }

    /** The transport reports a failure of the live event source. */
    method OnError()
      requires Valid() && eventSource.Stream? && eventSource.readyState != Closed
      modifies this
      ensures Valid() && Snapshot() == Failed(old(Snapshot()))
    {
      eventSource := Stream(Closed);
      if reconnectAttempts < MAX_RECONNECT_ATTEMPTS {
        reconnectAttempts := reconnectAttempts + 1;
        var delay := BackoffDelay(reconnectAttempts);
        session := session.(sseStatus := Reconnecting, error := Some(ReconnectingMessage(reconnectAttempts)));
        scheduledReconnects := scheduledReconnects + [delay];
      } else {
        session := session.(sseStatus := Error, error := Some(GAVE_UP_MESSAGE));
        heartbeatRunning := false;
      }
    }

    /** The open event source delivers a `session_event_learner` event. */
    method OnSessionEvent(ev: SseEvent)
      requires Valid() && eventSource == Stream(Open)
      modifies this
      ensures Valid() && Snapshot() == Delivered(old(Snapshot()), ev)
    {
      var next := Reduce(session, ev);
      session := session.(sessionData := next.sessionData, currentSlide := next.currentSlide, error := next.error);
      if EndsSession(ev) {
        eventSource := Stream(Closed);
        heartbeatRunning := false;
      }
    }

    /** The reconnect timer with index `i` fires. */
    method OnReconnectTimer(i: nat)
      requires Valid() && i < |scheduledReconnects|
      modifies this
      ensures Valid() && Snapshot() == ReconnectFired(old(Snapshot()), i)
    {
      scheduledReconnects := scheduledReconnects[..i] + scheduledReconnects[i + 1..];
      ConnectSse();
    }

    /** The effect's cleanup on unmount. */
    method Unmount()
      requires Valid()
      modifies this
      ensures Valid() && Snapshot() == Unmounted(old(Snapshot()))
    {
      if eventSource.Stream? {
        eventSource := NoStream;
      }
      heartbeatRunning := false;
      reconnectAttempts := 0;
      session := session.(sseStatus := Disconnected);
    }
  }
}
