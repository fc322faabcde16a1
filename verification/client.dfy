/**
 One playing client (attachedstream.js, class `AttachedStream`) as a state
 record and pure transitions. Each transition returns the new state and the
 effects the source would produce: events emitted to the fleet manager,
 requests sent, and timers set. Timers are effects carrying their delay;
 the clock is the parameter `now` in milliseconds; random draws are
 parameters of `GetRandomInt`.
 */
module Client {
  import opened Common
  import opened MediaPlaylist
  import opened PlaybackBuffer
  import opened ScsHelpers

  /** The manifest fetch budget after every successful fetch. */
  const InitialRetries: int := 10

  /** Delay before refetching a manifest when no segment duration is known. */
  const DefaultRetryDelayMs: int := 10000

  /** Buffer checks per segment duration while waiting for data. */
  const WaitsPerSegment: int := 5

  /** At most this many missing segments are requested per refill. */
  const FetchesPerRefill: nat := 2

  /** A stream that is not live starts from (at most) its first three segments. */
  const VodWindow: nat := 3

  /** JavaScript arrays hold fewer than 2^32 elements. */
  const MaxArrayLength: nat := 0xFFFF_FFFF

  /** A random starting point buffers this many segments. */
  const RandomWindow: nat := 2

  datatype Event = Attached | Terminated | Aborted | Killed | Redirected
                 | BadService | VeryBadService | SlowServer

  datatype Effect =
    | Emit(event: Event)
    /** Fetch the manifest again after `delay` ms, for the same follow-up action. */
    | RetryManifest(delay: int)
    | RequestSegment(segment: Segment)
    /** Play the next segment after `delay` ms. */
    | SchedulePlay(delay: int)
    /** Look at the buffer again after one `WaitsPerSegment`-th of `duration` ms. */
    | ScheduleWait(duration: int)
    /** The next refresh after `delay` ms; `refetch` when it fetches the manifest first. */
    | ScheduleRefresh(delay: int, refetch: bool)
    /** The session end timer (its random length is not modelled). */
    | ScheduleTermination
    /** Cancel the session end timer. */
    | CancelTermination
    /** Cancel every request in flight. */
    | AbortRequests

  type Pos = n: nat | n > 0 witness 1

  datatype Client = Client(
    id: int,
    streamType: StreamType,
    segments: seq<Segment>,
    buffer: seq<Buffered>,
    /** How many refills requested each segment number. */
    requested: map<int, Pos>,
    /** The next segment number to play; -1 before buffering starts. */
    next: int,
    played: nat,
    bufferWaits: nat,
    accumulatedMs: int,
    startTime: int,
    /** The segment duration in ms; 0 while none is known. */
    segmentDuration: int,
    maxRetries: int,
    attached: bool,
    reattaching: bool,
    terminating: bool)

  datatype Outcome = Outcome(client: Client, effects: seq<Effect>)

  /** How the manager is configured, as far as a client consults it. */
  datatype Settings = Settings(pesterSlowServer: bool, randomStartpoint: bool)

  /** The constructor: nothing buffered, nothing played, a fresh retry budget. The first
      manifest fetch the constructor starts is the manifest response handled later, with
      `AttachNext`. */
  function New(id: int): (c: Client)
    ensures c.next == -1 && c.buffer == [] && c.played == 0 && c.maxRetries == InitialRetries
    ensures !c.attached && !c.terminating && c.streamType == Undetermined
  {
    Client(id, Undetermined, [], [], map[], -1, 0, 0, 0, 0, 0, InitialRetries,
           false, false, false)
  }

  // -----------------------------------------------------------------------
  // Ending a session

  /** `doTerminate`: the first call marks the client terminating, cancels its session
      timer and cancels its requests; later calls change nothing. */
  function DoTerminate(c: Client): (o: Outcome)
    ensures o.client == c.(terminating := true)
    ensures o.effects == (if c.terminating then [] else [CancelTermination, AbortRequests])
    ensures forall armed: bool :: TimerSetAfter(armed, o.effects) == (armed && c.terminating)
  {
    if c.terminating then Outcome(c, [])
    else Outcome(c.(terminating := true), [CancelTermination, AbortRequests])
  }

  /** `terminate`: end the session and report it; the session timer is gone afterwards
      exactly when this call was the first ending. */
  function Terminate(c: Client): (o: Outcome)
    ensures NoRetry(o.effects)
    ensures o.client == c.(terminating := true)
    ensures |o.effects| >= 1 && o.effects[|o.effects| - 1] == Emit(Terminated)
    ensures forall k :: 0 <= k < |o.effects| - 1 ==>
      o.effects[k] == CancelTermination || o.effects[k] == AbortRequests
    ensures forall armed: bool :: TimerSetAfter(armed, o.effects) == (armed && c.terminating)
  {
    var d := DoTerminate(c);
    TimerSetAfterAppend(false, d.effects, [Emit(Terminated)]);
    TimerSetAfterAppend(true, d.effects, [Emit(Terminated)]);
    Outcome(d.client, d.effects + [Emit(Terminated)])
  }

  /** `kill`: end the session at the manager's request and report it. */
  function Kill(c: Client): (o: Outcome)
    ensures NoRetry(o.effects)
    ensures o.client == c.(terminating := true)
    ensures |o.effects| >= 1 && o.effects[|o.effects| - 1] == Emit(Killed)
    ensures Emit(Terminated) !in o.effects
    ensures forall armed: bool :: TimerSetAfter(armed, o.effects) == (armed && c.terminating)
  {
    var d := DoTerminate(c);
    TimerSetAfterAppend(false, d.effects, [Emit(Killed)]);
    TimerSetAfterAppend(true, d.effects, [Emit(Killed)]);
    Outcome(d.client, d.effects + [Emit(Killed)])
  }

  /** `abort`: the client gives up before it attached; its requests are left alone. */
  function Abort(c: Client): (o: Outcome)
    ensures o.client == c.(terminating := true) && o.effects == [Emit(Aborted)]
  {
    Outcome(c.(terminating := true), [Emit(Aborted)])
  }

  function AbortOrTerminate(c: Client): (o: Outcome)
    ensures NoRetry(o.effects)
    ensures o.client == c.(terminating := true)
    ensures EndEvent(o.effects) == Some(if c.attached then Terminated else Aborted)
  {
    if c.attached then Terminate(c) else Abort(c)
  }

  /** `redirected`: stop play and refresh and report the redirect. The session timer is
      left set. */
  function Redirect(c: Client): (o: Outcome)
    ensures o.client == c.(terminating := true) && o.effects == [Emit(Redirected)]
  {
    Outcome(c.(terminating := true), [Emit(Redirected)])
  }

  /** Whether the session end timer is set after `effects`, given whether it was set
      before: `ScheduleTermination` sets it, `CancelTermination` clears it. */
  function TimerSetAfter(armed: bool, effects: seq<Effect>): bool
    decreases |effects|
  {
    if |effects| == 0 then armed
    else
      var now := if effects[0] == ScheduleTermination then true
                 else if effects[0] == CancelTermination then false
                 else armed;
      TimerSetAfter(now, effects[1..])
  }

  lemma {:induction false} TimerSetAfterAppend(armed: bool, a: seq<Effect>, b: seq<Effect>)
    ensures TimerSetAfter(armed, a + b) == TimerSetAfter(TimerSetAfter(armed, a), b)
    decreases |a|
  {
    if |a| > 0 {
      assert (a + b)[0] == a[0] && (a + b)[1..] == a[1..] + b;
      var now := if a[0] == ScheduleTermination then true
                 else if a[0] == CancelTermination then false
                 else armed;
      TimerSetAfterAppend(now, a[1..], b);
    } else {
      assert a + b == b;
    }
  }

  /** A redirected or aborted client keeps its session timer: when the timer of an attached
      client fires after a redirect, `terminate` still reports the end to the manager. */
  lemma RedirectKeepsTimer(c: Client, armed: bool)
    ensures TimerSetAfter(armed, Redirect(c).effects) == armed
    ensures TimerSetAfter(armed, Abort(c).effects) == armed
    ensures var fired := Terminate(Redirect(c).client);
      fired.effects == [Emit(Terminated)] && fired.client == Redirect(c).client
  {
  }

  /** `redirected` as evidently intended: like `doTerminate`, it cancels the session timer,
      so no later end report follows the redirect. */
  function RedirectIntended(c: Client): (o: Outcome)
    ensures o.client == c.(terminating := true)
    ensures Ends(o.effects) == [Redirected]
    ensures forall armed: bool :: !TimerSetAfter(armed, o.effects)
  {
    Outcome(c.(terminating := true), [CancelTermination, Emit(Redirected)])
  }

  /** Only a failed manifest fetch schedules another one. */
  predicate NoRetry(effects: seq<Effect>) {
    forall k :: 0 <= k < |effects| ==> !effects[k].RetryManifest?
  }

  lemma NoRetryAppend(a: seq<Effect>, b: seq<Effect>)
    requires NoRetry(a) && NoRetry(b)
    ensures NoRetry(a + b)
  {
  }

  predicate IsEnd(e: Effect) {
    e.Emit? && e.event in {Terminated, Aborted, Killed, Redirected}
  }

  /** The one session-ending event among `effects`, if there is exactly one. */
  function EndEvent(effects: seq<Effect>): Option<Event> {
    var ends := Ends(effects);
    if |ends| == 1 then Some(ends[0]) else None
  }

  function Ends(effects: seq<Effect>): (r: seq<Event>)
    ensures |r| <= |effects|
  {
    if |effects| == 0 then []
    else (if IsEnd(effects[0]) then [effects[0].event] else []) + Ends(effects[1..])
  }

  lemma EndsAppend(a: seq<Effect>, b: seq<Effect>)
    ensures Ends(a + b) == Ends(a) + Ends(b)
  {
    if |a| > 0 {
      assert (a + b)[0] == a[0];
      assert (a + b)[1..] == a[1..] + b;
      EndsAppend(a[1..], b);
    } else {
      assert a + b == b;
    }
  }

  // -----------------------------------------------------------------------
  // Segment requests

  /** `registerSegmentRequest`: one more request of `seqno`. */
  function Register(requested: map<int, Pos>, seqno: int): (r: map<int, Pos>)
    ensures r.Keys == requested.Keys + {seqno}
    ensures r[seqno] == (if seqno in requested then requested[seqno] + 1 else 1)
    ensures forall k :: k in requested && k != seqno ==> r[k] == requested[k]
  {
    requested[seqno := if seqno in requested then requested[seqno] + 1 else 1]
  }

  /** `checkForSlowServer`, after the registration: requested more than once. */
  predicate IsSlow(requested: map<int, Pos>, seqno: int) {
    seqno in requested && requested[seqno] > 1
  }

  /** `removeOldSegmentRequests`: forget the numbers below `seqno`. */
  function ForgetBefore(requested: map<int, Pos>, seqno: int): (r: map<int, Pos>)
    ensures forall k :: k in r <==> k in requested && k >= seqno
    ensures forall k :: k in r ==> r[k] == requested[k]
  {
    map k | k in requested && k >= seqno :: requested[k]
  }

  /** `fetchSegment`: a segment already buffered is not fetched. Otherwise the request is
      registered; a segment requested in an earlier refill as well means a slow server,
      which is reported, and the segment is only requested again under
      `pesterSlowServer`. */
  function FetchSegment(c: Client, seg: Segment, s: Settings): (o: Outcome)
    ensures NoRetry(o.effects)
    ensures Holds(c.buffer, seg.seqno) ==> o == Outcome(c, [])
    ensures !Holds(c.buffer, seg.seqno) ==>
      && o.client == c.(requested := Register(c.requested, seg.seqno))
      && (Emit(SlowServer) in o.effects <==> seg.seqno in c.requested)
      && (RequestSegment(seg) in o.effects <==> !(seg.seqno in c.requested) || s.pesterSlowServer)
    ensures forall e :: e in o.effects ==> e == Emit(SlowServer) || e == RequestSegment(seg)
  {
    if Holds(c.buffer, seg.seqno) then Outcome(c, [])
    else
      var requested := Register(c.requested, seg.seqno);
      var c1 := c.(requested := requested);
      var slow := IsSlow(requested, seg.seqno);
      if slow && !s.pesterSlowServer then Outcome(c1, [Emit(SlowServer)])
      else if slow then Outcome(c1, [Emit(SlowServer), RequestSegment(seg)])
      else Outcome(c1, [RequestSegment(seg)])
  }

  /** Fetch each of `segs` in turn. */
  function FetchAll(c: Client, segs: seq<Segment>, s: Settings): (o: Outcome)
    ensures NoRetry(o.effects)
    ensures o.client.buffer == c.buffer && o.client.next == c.next
    ensures o.client == c.(requested := o.client.requested)
    ensures forall e :: e in o.effects ==>
      e == Emit(SlowServer) || (e.RequestSegment? && e.segment in segs)
    decreases |segs|
  {
    if |segs| == 0 then Outcome(c, [])
    else
      var first := FetchSegment(c, segs[0], s);
      var rest := FetchAll(first.client, segs[1..], s);
      Outcome(rest.client, first.effects + rest.effects)
  }

  /** No two of `segs` share a number. */
  predicate DistinctSeqnos(segs: seq<Segment>) {
    forall a, b :: 0 <= a < b < |segs| ==> segs[a].seqno != segs[b].seqno
  }

  /** A fetch of `seg` from `c` sends a request: it is not buffered, and it is new or the
      manager pesters slow servers. */
  predicate Requests(c: Client, seg: Segment, s: Settings) {
    !Holds(c.buffer, seg.seqno) && (seg.seqno !in c.requested || s.pesterSlowServer)
  }

  /** A fetch of `seg` from `c` reports a slow server: it is not buffered and was requested
      before. */
  predicate Repeats(c: Client, seg: Segment) {
    !Holds(c.buffer, seg.seqno) && seg.seqno in c.requested
  }

  /** Fetching a list registers every segment of it that is not buffered. */
  lemma {:induction false} FetchAllRegisters(c: Client, segs: seq<Segment>, s: Settings)
    ensures var o := FetchAll(c, segs, s);
      && c.requested.Keys <= o.client.requested.Keys
      && (forall seg :: seg in segs && !Holds(c.buffer, seg.seqno) ==> seg.seqno in o.client.requested)
    decreases |segs|
  {
    if |segs| > 0 {
      var first := FetchSegment(c, segs[0], s);
      FetchAllRegisters(first.client, segs[1..], s);
      assert forall seg :: seg in segs ==> seg == segs[0] || seg in segs[1..];
    }
  }

  /** The first fetch of a list with distinct numbers leaves the others' standing alone. */
  lemma FetchHeadLeavesTail(c: Client, segs: seq<Segment>, s: Settings)
    requires |segs| > 0 && DistinctSeqnos(segs)
    ensures DistinctSeqnos(segs[1..])
    ensures var first := FetchSegment(c, segs[0], s);
      forall seg :: seg in segs[1..] ==>
        && seg.seqno != segs[0].seqno
        && (Requests(first.client, seg, s) <==> Requests(c, seg, s))
        && (Repeats(first.client, seg) <==> Repeats(c, seg))
    ensures forall seg :: seg in segs <==> seg == segs[0] || seg in segs[1..]
  {
    var tail := segs[1..];
    forall seg | seg in tail
      ensures seg.seqno != segs[0].seqno
    {
      var k :| 0 <= k < |tail| && tail[k] == seg;
      assert segs[k + 1] == seg;
    }
  }

  /** With distinct numbers, fetching a list requests exactly the segments whose own fetch
      requests them. */
  lemma {:induction false} FetchAllRequests(c: Client, segs: seq<Segment>, s: Settings)
    requires DistinctSeqnos(segs)
    ensures var o := FetchAll(c, segs, s);
      forall seg :: seg in segs ==> (RequestSegment(seg) in o.effects <==> Requests(c, seg, s))
    decreases |segs|
  {
    if |segs| > 0 {
      var first := FetchSegment(c, segs[0], s);
      FetchHeadLeavesTail(c, segs, s);
      FetchAllRequests(first.client, segs[1..], s);
    }
  }

  /** With distinct numbers, fetching a list reports a slow server exactly when one of its
      segments was requested before. */
  lemma {:induction false} FetchAllSlow(c: Client, segs: seq<Segment>, s: Settings)
    requires DistinctSeqnos(segs)
    ensures Emit(SlowServer) in FetchAll(c, segs, s).effects <==> exists seg :: seg in segs && Repeats(c, seg)
    decreases |segs|
  {
    if |segs| > 0 {
      var first := FetchSegment(c, segs[0], s);
      FetchHeadLeavesTail(c, segs, s);
      FetchAllSlow(first.client, segs[1..], s);
    }
  }

  /** The missing segments a refill requests: the first `FetchesPerRefill` of the walk of
      `findMissingSegments` as the source writes it. */
  function FirstMissing(c: Client): (r: seq<Segment>)
    ensures |r| == Min(FetchesPerRefill, |FindMissingAsWritten(c.next, c.buffer, c.segments)|)
    ensures r <= FindMissingAsWritten(c.next, c.buffer, c.segments)
  {
    var missing := FindMissingAsWritten(c.next, c.buffer, c.segments);
    missing[..Min(FetchesPerRefill, |missing|)]
  }

  /** On an increasingly numbered playlist a refill fetches segments of distinct numbers. */
  lemma RefillFetchesDistinct(c: Client)
    requires Increasing(c.segments)
    ensures DistinctSeqnos(FirstMissing(c))
  {
    var all := FindMissingAsWritten(c.next, c.buffer, c.segments);
    WalkIncreasing(AsWrittenSlots(c.next, c.buffer), c.segments, 0, 0);
    assert FirstMissing(c) == all[..|FirstMissing(c)|];
  }

  /** Away from segment 0 the refill takes the first two of exactly the playlist entries of
      the window that are not buffered, on a consecutively numbered playlist that starts at
      or before the next segment and a valid buffer. */
  lemma RefillAwayFromZeroIsIntended(c: Client)
    requires c.next > 0 && Valid(c)
    requires Consecutive(c.segments) && (|c.segments| == 0 || c.segments[0].seqno <= c.next)
    ensures var want := Intended(c.next, c.buffer, c.segments, 0);
      FirstMissing(c) == want[..Min(FetchesPerRefill, |want|)]
  {
    SentinelHarmlessAwayFromZero(c.next, c.buffer, c.segments);
    FindMissingIsIntended(c.next, c.buffer, c.segments);
  }

  /** The sentinel in a refill: playback about to start at segment 0 of a playlist numbered
      from 0, with segment 0 not buffered, requests segments 1 and 2 and never segment 0. */
  lemma RefillSkipsSegmentZero(c: Client)
    requires c.next == 0 && c.buffer == []
    requires |c.segments| >= BufferSize && Consecutive(c.segments) && c.segments[0].seqno == 0
    ensures FirstMissing(c) == c.segments[1..3]
  {
    SentinelDropsSegmentZero(c.segments);
  }

  /** `refillBuffer`: fetch the first `FetchesPerRefill` of the missing segments. */
  function RefillBuffer(c: Client, s: Settings): (o: Outcome)
    ensures NoRetry(o.effects)
    ensures o.client == c.(requested := o.client.requested)
    ensures forall e :: e in o.effects ==>
      || e == Emit(SlowServer)
      || (e.RequestSegment? && e.segment in FirstMissing(c))
    ensures forall seg :: seg in FirstMissing(c) && !Holds(c.buffer, seg.seqno) ==>
      seg.seqno in o.client.requested
    ensures DistinctSeqnos(FirstMissing(c)) ==>
      && (forall seg :: seg in FirstMissing(c) ==> (RequestSegment(seg) in o.effects <==> Requests(c, seg, s)))
      && (Emit(SlowServer) in o.effects <==> exists seg :: seg in FirstMissing(c) && Repeats(c, seg))
  {
    var missing := FirstMissing(c);
    FetchAllRegisters(c, missing, s);
    if DistinctSeqnos(missing) then
      FetchAllRequests(c, missing, s);
      FetchAllSlow(c, missing, s);
      FetchAll(c, missing, s)
    else FetchAll(c, missing, s)
  }

  /** `refresh`: unless the client reattaches or terminates, refill the buffer and set up the
      next refresh one segment duration later, fetching the manifest first for a live
      stream. */
  function Refresh(c: Client, s: Settings): (o: Outcome)
    ensures NoRetry(o.effects)
    ensures c.reattaching || c.terminating ==> o == Outcome(c, [])
    ensures o.client == c.(requested := o.client.requested)
    ensures !(c.reattaching || c.terminating) ==>
      |o.effects| > 0 && o.effects[|o.effects| - 1] == ScheduleRefresh(c.segmentDuration, c.streamType == Live)
  {
    if c.reattaching || c.terminating then Outcome(c, [])
    else
      var r := RefillBuffer(c, s);
      Outcome(r.client, r.effects + [ScheduleRefresh(c.segmentDuration, c.streamType == Live)])
  }

  /** A segment response: a transport error stores nothing; a redirect counts as delivered
      (status 200); any other status is stored with the segment. */
  datatype Response = NoResponse | TransportError | Status(code: int, body: string)

  function SegmentArrived(c: Client, seg: Segment, resp: Response): (r: Client)
    ensures resp.Status? && (resp.code == 200 || IsRedirect(resp.code)) ==>
      r.buffer == InsertIntoBuffer(c.buffer, seg, 200, c.next, c.reattaching)
    ensures resp.Status? && !(resp.code == 200 || IsRedirect(resp.code)) ==>
      r.buffer == InsertIntoBuffer(c.buffer, seg, resp.code, c.next, c.reattaching)
    ensures !resp.Status? ==> r == c
    ensures r == c.(buffer := r.buffer)
  {
    match resp
    case Status(code, _) =>
      var status := if code == 200 || IsRedirect(code) then 200 else code;
      c.(buffer := InsertIntoBuffer(c.buffer, seg, status, c.next, c.reattaching))
    case _ => c
  }

  // -----------------------------------------------------------------------
  // Playing

  /** `terminateIfAllSegmentsFailed`: unless the manager pesters slow servers, give up when
      no buffered segment downloaded with status 200. */
  function TerminateIfAllSegmentsFailed(c: Client, s: Settings): (o: Outcome)
    ensures NoRetry(o.effects)
    ensures s.pesterSlowServer || AnyGood(c.buffer) ==> o == Outcome(c, [])
    ensures !s.pesterSlowServer && !AnyGood(c.buffer) ==> o == AbortOrTerminate(c)
  {
    if s.pesterSlowServer || AnyGood(c.buffer) then Outcome(c, []) else AbortOrTerminate(c)
  }

  predicate AnyGood(buf: seq<Buffered>) {
    exists k :: 0 <= k < |buf| && buf[k].status == 200
  }

  /** `playASegment`: take the head of the buffer, forget older requests, advance the next
      number and the play count, and schedule the next play so that playback catches up
      with the wall clock: at `startTime + accumulated + duration`, or at once when that
      moment has passed. A segment that failed to download may end the session. */
  function PlayASegment(c: Client, now: int, s: Settings): (o: Outcome)
    ensures NoRetry(o.effects)
    requires |c.buffer| > 0
    ensures var seg := c.buffer[0].segment;
      var start := if c.played == 0 then now else c.startTime;
      && o.client.buffer == c.buffer[1..]
      && o.client.next == c.next + 1 && o.client.played == c.played + 1
      && o.client.startTime == start
      && o.client.accumulatedMs == c.accumulatedMs + seg.duration
      && o.client.requested == ForgetBefore(c.requested, seg.seqno)
      && |o.effects| >= 1 && o.effects[0].SchedulePlay?
      && now + o.effects[0].delay == Max(now, start + c.accumulatedMs + seg.duration)
    ensures c.buffer[0].status == 200 ==> |o.effects| == 1
    ensures SamePlaylist(o.client, c)
    ensures c.buffer[0].status != 200 ==>
      o.effects[1..] == TerminateIfAllSegmentsFailed(Shifted(c, now), s).effects
  {
    var c1 := Shifted(c, now);
    var seg := c.buffer[0].segment;
    var lag := (now - c1.startTime) - c.accumulatedMs;
    var delay := Max(0, seg.duration - lag);
    var t := if c.buffer[0].status != 200 then TerminateIfAllSegmentsFailed(c1, s)
             else Outcome(c1, []);
    Outcome(t.client.(accumulatedMs := c.accumulatedMs + seg.duration),
            [SchedulePlay(delay)] + t.effects)
  }

  /** The client just after the head of its buffer started playing. */
  function Shifted(c: Client, now: int): Client
    requires |c.buffer| > 0
  {
    c.(buffer := c.buffer[1..],
       requested := ForgetBefore(c.requested, c.buffer[0].segment.seqno),
       startTime := if c.played == 0 then now else c.startTime,
       next := c.next + 1, played := c.played + 1)
  }

  /** The head of the buffer is the next segment to play. */
  predicate ReadyToPlay(c: Client) {
    |c.buffer| > 0 && c.next >= 0 && c.next == c.buffer[0].segment.seqno
  }

  /** An on-demand stream whose last listed segment is not after the next to play is over. */
  predicate AtEndOfStream(c: Client) {
    c.streamType != Live && |c.segments| > 0 && c.segments[|c.segments| - 1].seqno <= c.next
  }

  /** Waiting has lasted longer than a segment: `bufferWaits * (duration / 5) > duration`. */
  predicate WaitedTooLong(waits: int, duration: int) {
    waits * duration > WaitsPerSegment * duration
  }

  /** `waitForBuffering`: play when the next segment is at the head of the buffer; end an
      on-demand stream that has played its last segment; otherwise wait a fifth of a
      segment, reporting bad service (or very bad, past a whole segment of waiting) once
      playback has begun. */
  function WaitForBuffering(c: Client, now: int, s: Settings): (o: Outcome)
    ensures NoRetry(o.effects)
    ensures SamePlaylist(o.client, c)
    ensures c.terminating ==> o == Outcome(c, [])
    ensures !c.terminating && ReadyToPlay(c) ==>
      o == PlayASegment(c.(bufferWaits := 0), now, s) && o.client.next == c.next + 1
    ensures !c.terminating && !ReadyToPlay(c) && AtEndOfStream(c) ==> o == Terminate(c)
    ensures !c.terminating && !ReadyToPlay(c) && !AtEndOfStream(c) ==>
      && o.client.buffer == c.buffer && o.client.next == c.next
      && |o.effects| >= 1 && o.effects[|o.effects| - 1] == ScheduleWait(c.segmentDuration)
      && (c.played == 0 ==> |o.effects| == 1 && o.client == c)
      && (c.played > 0 ==>
            && o.client.bufferWaits == c.bufferWaits + 1 && |o.effects| == 2
            && o.effects[0] == Emit(if WaitedTooLong(c.bufferWaits + 1, c.segmentDuration)
                                    then VeryBadService else BadService))
  {
    if c.terminating then Outcome(c, [])
    else if ReadyToPlay(c) then PlayASegment(c.(bufferWaits := 0), now, s)
    else if AtEndOfStream(c) then Terminate(c)
    else if c.played == 0 then Outcome(c, [ScheduleWait(c.segmentDuration)])
    else
      var waits := c.bufferWaits + 1;
      var event := if WaitedTooLong(waits, c.segmentDuration) then VeryBadService else BadService;
      Outcome(c.(bufferWaits := waits), [Emit(event), ScheduleWait(c.segmentDuration)])
  }

  // -----------------------------------------------------------------------
  // Attaching

  /** The segments buffering starts with: a random point of the list, the last
      `BufferSize` of a live stream, or the first three otherwise. */
  function StartWindow(c: Client, s: Settings, draw: nat): (w: seq<Segment>)
    requires draw < RandomScale
    ensures |w| <= |c.segments|
    ensures !s.randomStartpoint && c.streamType == Live ==>
      w == c.segments[|c.segments| - Min(BufferSize, |c.segments|)..]
    ensures !s.randomStartpoint && c.streamType != Live ==>
      w == c.segments[..Min(VodWindow, |c.segments|)]
    ensures s.randomStartpoint && |c.segments| >= BufferSize ==>
      var start := GetRandomInt(0, |c.segments| - BufferSize, draw);
      0 <= start <= |c.segments| - BufferSize && w == c.segments[start..start + RandomWindow]
  {
    if s.randomStartpoint then
      var start := GetRandomInt(0, |c.segments| - BufferSize, draw);
      JsSlice(c.segments, start, start + RandomWindow)
    else if c.streamType == Live then JsSlice(c.segments, -(BufferSize as int), |c.segments|)
    else JsSlice(c.segments, 0, VodWindow)
  }

  /** With random starting points and at least `BufferSize` segments, every pair of
      neighbours that leaves `BufferSize - RandomWindow` segments after it can be the window. */
  lemma RandomStartReachesEveryPoint(c: Client, s: Settings, k: nat)
    requires s.randomStartpoint && |c.segments| >= BufferSize && k <= |c.segments| - BufferSize
    requires |c.segments| <= MaxArrayLength
    ensures exists draw: nat ::
              draw < RandomScale && StartWindow(c, s, draw) == c.segments[k..k + RandomWindow]
  {
    RandomCoversRange(0, |c.segments| - BufferSize, k);
    var draw: nat :| draw < RandomScale && GetRandomInt(0, |c.segments| - BufferSize, draw) == k;
    assert StartWindow(c, s, draw) == c.segments[k..k + RandomWindow];
  }

  /** `startBuffering`: start at the first segment of the window and fetch the first two.
      The source indexes the window without checking its length, so a window of fewer
      than two segments ends in a `Failure` after what was done up to that point. */
  function StartBuffering(c: Client, w: seq<Segment>, s: Settings): (r: Result<Outcome, Outcome>)
    ensures |w| == 0 ==> r == Failure(Outcome(c, []))
    ensures |w| > 0 ==> (r.Success? <==> |w| >= 2)
    ensures |w| > 0 ==> var o := if r.Success? then r.value else r.error;
      o.client.next == w[0].seqno && o.client.buffer == c.buffer
    ensures NoRetry(if r.Success? then r.value.effects else r.error.effects)
    ensures SamePlaylist(if r.Success? then r.value.client else r.error.client, c)
  {
    if |w| == 0 then Failure(Outcome(c, []))
    else
      var c1 := c.(next := w[0].seqno);
      var first := FetchSegment(c1, w[0], s);
      if |w| < 2 then Failure(first)
      else
        var second := FetchSegment(first.client, w[1], s);
        Success(Outcome(second.client, first.effects + second.effects))
  }

  /** Attaching and playing leave the playlist, its classification and the retry budget
      alone. */
  predicate SamePlaylist(a: Client, b: Client) {
    a.segments == b.segments && a.segmentDuration == b.segmentDuration
    && a.streamType == b.streamType && a.maxRetries == b.maxRetries
  }

  /** The attach callback: report the attachment, then `attach`: mark the client attached,
      set the session timer and the first refresh, start buffering and make the first
      play attempt. A failure to start buffering escapes to the manifest handler, which
      ends the (now attached) session. */
  function Attach(c: Client, now: int, s: Settings, draw: nat): (o: Outcome)
    ensures NoRetry(o.effects)
    requires draw < RandomScale
    ensures o.client.attached
    ensures |o.effects| >= 3 && o.effects[0] == Emit(Attached)
    ensures o.effects[1] == ScheduleTermination
    ensures o.effects[2] == ScheduleRefresh(c.segmentDuration, true)
    ensures |StartWindow(c, s, draw)| < 2 ==> o.client.terminating
    ensures SamePlaylist(o.client, c)
  {
    var c1 := c.(attached := true);
    var head := [Emit(Attached), ScheduleTermination, ScheduleRefresh(c.segmentDuration, true)];
    assert NoRetry(head);
    var window := StartWindow(c, s, draw);
    match StartBuffering(c1, window, s)
    case Failure(partial) =>
      var t := AbortOrTerminate(partial.client);
      NoRetryAppend(head, partial.effects);
      NoRetryAppend(head + partial.effects, t.effects);
      Outcome(t.client, head + partial.effects + t.effects)
    case Success(started) =>
      var w := WaitForBuffering(started.client, now, s);
      NoRetryAppend(head, started.effects);
      NoRetryAppend(head + started.effects, w.effects);
      Outcome(w.client, head + started.effects + w.effects)
  }

  // -----------------------------------------------------------------------
  // Manifest responses

  /** What the manifest fetch was for. */
  datatype Follow = AttachNext | RefreshNext

  /** The retry path of `fetchSegmentData`: the budget is decremented after the test; an
      exhausted budget ends the session, otherwise the fetch is repeated after a segment
      duration (10 s while none is known). */
  function Retry(c: Client): (o: Outcome)
    ensures o.client.maxRetries == c.maxRetries - 1
    ensures c.maxRetries <= 0 ==> o == AbortOrTerminate(c.(maxRetries := c.maxRetries - 1))
    ensures c.maxRetries > 0 ==>
      o.effects == [RetryManifest(if c.segmentDuration != 0 then c.segmentDuration else DefaultRetryDelayMs)]
      && o.client == c.(maxRetries := c.maxRetries - 1)
  {
    var c1 := c.(maxRetries := c.maxRetries - 1);
    if c.maxRetries <= 0 then AbortOrTerminate(c1)
    else
      var delay := if c.segmentDuration != 0 then c.segmentDuration else DefaultRetryDelayMs;
      Outcome(c1, [RetryManifest(delay)])
  }

  /** Every `abortOrTerminate` the parse made, in order. */
  function RepeatAbortOrTerminate(c: Client, n: nat): (o: Outcome)
    ensures NoRetry(o.effects)
    decreases n
    ensures n == 0 ==> o == Outcome(c, [])
    ensures n > 0 ==> o.client == c.(terminating := true)
    ensures |Ends(o.effects)| == n
    ensures forall k :: 0 <= k < |Ends(o.effects)| ==>
      Ends(o.effects)[k] == (if c.attached then Terminated else Aborted)
  {
    if n == 0 then Outcome(c, [])
    else
      var first := AbortOrTerminate(c);
      var rest := RepeatAbortOrTerminate(first.client, n - 1);
      EndsAppend(first.effects, rest.effects);
      AbortOrTerminateEnds(c);
      Outcome(rest.client, first.effects + rest.effects)
  }

  /** One `abortOrTerminate` reports exactly one ending. */
  lemma AbortOrTerminateEnds(c: Client)
    ensures Ends(AbortOrTerminate(c).effects) == [if c.attached then Terminated else Aborted]
  {
    if c.attached {
      EndsAppend(DoTerminate(c).effects, [Emit(Terminated)]);
    }
  }

  /** A manifest delivered with status 200: reset the budget, parse it, end the session
      once per contradicted classification, install the playlist and carry on with
      attaching or refreshing. */
  function ManifestParsed(c: Client, body: string, follow: Follow, now: int, s: Settings, draw: nat): (o: Outcome)
    requires draw < RandomScale
    ensures NoRetry(o.effects)
    ensures var p := ParseSegmentData(body, c.next, c.streamType);
      var ends := RepeatAbortOrTerminate(c.(maxRetries := InitialRetries), p.conflicts);
      && o.client.segments == p.segments && o.client.segmentDuration == p.segmentDuration
      && o.client.streamType == p.streamType
      && o.client.maxRetries == InitialRetries
      && ends.effects <= o.effects
      && |Ends(ends.effects)| == p.conflicts
      && (follow == AttachNext ==>
            o.client.attached && |o.effects| > |ends.effects| && o.effects[|ends.effects|] == Emit(Attached))
      && (follow == RefreshNext && !(c.reattaching || ends.client.terminating) ==>
            |o.effects| > 0 && o.effects[|o.effects| - 1] == ScheduleRefresh(p.segmentDuration, p.streamType == Live))
  {
    var c1 := c.(maxRetries := InitialRetries);
    var p := ParseSegmentData(body, c1.next, c1.streamType);
    var conflicts := RepeatAbortOrTerminate(c1, p.conflicts);
    var c2 := conflicts.client.(segmentDuration := p.segmentDuration, segments := p.segments,
                                streamType := p.streamType);
    var after := Continue(c2, follow, now, s, draw);
    NoRetryAppend(conflicts.effects, after.effects);
    Outcome(after.client, conflicts.effects + after.effects)
  }

  /** A live client handed a playlist that announces itself on-demand ends its session
      first thing, once per such line, the way its attachment dictates. */
  lemma VodPlaylistEndsLiveSession(c: Client, body: string, follow: Follow, now: int, s: Settings, draw: nat)
    requires draw < RandomScale && c.streamType == Live
    requires exists k :: 0 <= k < |Split(body, '\n')| && IsVodTypeLine(Split(body, '\n')[k])
    ensures var o := ManifestParsed(c, body, follow, now, s, draw);
      && |Ends(o.effects)| >= VodLineCount(Split(body, '\n')) > 0
      && Ends(o.effects)[0] == (if c.attached then Terminated else Aborted)
  {
    var lines := Split(body, '\n');
    var o := ManifestParsed(c, body, follow, now, s, draw);
    var p := ParseSegmentData(body, c.next, c.streamType);
    var ends := RepeatAbortOrTerminate(c.(maxRetries := InitialRetries), p.conflicts);
    VodCountPositive(lines);
    assert p.conflicts == VodLineCount(lines);
    assert o.effects == ends.effects + o.effects[|ends.effects|..];
    EndsAppend(ends.effects, o.effects[|ends.effects|..]);
  }

  /** What follows a parsed manifest: attaching, or the refresh. */
  function Continue(c: Client, follow: Follow, now: int, s: Settings, draw: nat): (o: Outcome)
    requires draw < RandomScale
    ensures NoRetry(o.effects)
    ensures SamePlaylist(o.client, c)
    ensures follow == AttachNext ==> o == Attach(c, now, s, draw) && o.client.attached && |o.effects| > 0 && o.effects[0] == Emit(Attached)
    ensures follow == RefreshNext ==> o == Refresh(c, s)
    ensures follow == RefreshNext && !(c.reattaching || c.terminating) ==>
      |o.effects| > 0 && o.effects[|o.effects| - 1] == ScheduleRefresh(c.segmentDuration, c.streamType == Live)
  {
    match follow
    case AttachNext => Attach(c, now, s, draw)
    case RefreshNext => Refresh(c, s)
  }

  /** The response handler of `fetchSegmentData`. */
  function ManifestResponse(c: Client, resp: Response, follow: Follow, now: int, s: Settings,
                            draw: nat): (o: Outcome)
    requires draw < RandomScale
    ensures resp == NoResponse ==> o == Outcome(c, [])
    ensures resp == TransportError ==> o == Retry(c)
    ensures resp.Status? && resp.code == 200 ==> o == ManifestParsed(c, resp.body, follow, now, s, draw)
    ensures resp.Status? && IsRedirect(resp.code) ==> o == Redirect(c)
    ensures resp.Status? && 400 <= resp.code < 500 ==> o == AbortOrTerminate(c)
    ensures resp.Status? && resp.code != 200 && !IsRedirect(resp.code) && !(400 <= resp.code < 500) ==>
      o == Retry(c)
    ensures resp.Status? && (resp.code == 200 || IsRedirect(resp.code) || 400 <= resp.code < 500) ==>
      NoRetry(o.effects)
  {
    match resp
    case NoResponse => Outcome(c, [])
    case TransportError => Retry(c)
    case Status(code, body) =>
      if code == 200 then ManifestParsed(c, body, follow, now, s, draw)
      else if IsRedirect(code) then Redirect(c)
      else if 400 <= code < 500 then AbortOrTerminate(c)
      else Retry(c)
  }

  // -----------------------------------------------------------------------
  // Properties of the client

  /** The buffer is in playing order and holds nothing behind the next segment to play. */
  predicate Valid(c: Client) {
    Ascending(c.buffer) && NotBehind(c.buffer, c.next)
  }

  /** A segment arriving keeps the buffer valid. */
  lemma ArrivalKeepsValid(c: Client, seg: Segment, resp: Response)
    requires Valid(c)
    ensures Valid(SegmentArrived(c, seg, resp))
  {
  }

  /** A play attempt keeps the buffer valid: playing shifts out the head, which is the
      next segment, so what remains is not behind the new next one. */
  lemma WaitKeepsValid(c: Client, now: int, s: Settings)
    requires Valid(c)
    ensures Valid(WaitForBuffering(c, now, s).client)
  {
    if !c.terminating && ReadyToPlay(c) {
      var o := WaitForBuffering(c, now, s);
      assert o.client.buffer == c.buffer[1..];
      forall k | 0 <= k < |c.buffer[1..]| ensures SeqnoOf(c.buffer[1..][k]) >= c.next + 1 {
        assert c.buffer[1..][k] == c.buffer[k + 1];
      }
    }
  }

  /** A refresh only adds requests, and a manifest refresh keeps the buffer and the next
      number as they were. */
  lemma RefreshKeepsValid(c: Client, body: string, now: int, s: Settings, draw: nat)
    requires Valid(c) && draw < RandomScale
    ensures Valid(Refresh(c, s).client)
    ensures Valid(ManifestParsed(c, body, RefreshNext, now, s, draw).client)
  {
  }

  /** Attaching with an empty buffer leaves it valid. */
  lemma AttachKeepsValid(c: Client, now: int, s: Settings, draw: nat)
    requires c.buffer == [] && draw < RandomScale
    ensures Valid(Attach(c, now, s, draw).client)
  {
    var c1 := c.(attached := true);
    var window := StartWindow(c, s, draw);
    match StartBuffering(c1, window, s)
    case Failure(partial) =>
    case Success(started) =>
      WaitKeepsValid(started.client, now, s);
  }

  /** A play attempt plays a segment exactly when the client is not terminating and the head
      of its buffer is the next segment to play. */
  lemma PlaysExactlyWhenReady(c: Client, now: int, s: Settings)
    ensures WaitForBuffering(c, now, s).client.played > c.played <==>
      !c.terminating && ReadyToPlay(c)
  {
  }

  /** With a known segment duration, a wait is reported as very bad service exactly from the
      sixth consecutive wait on (five waits make one segment duration); without one, every
      wait is merely bad. */
  lemma WaitVerdict(waits: nat, duration: int)
    requires duration >= 0
    ensures duration > 0 ==> (WaitedTooLong(waits, duration) <==> waits > WaitsPerSegment)
    ensures duration == 0 ==> !WaitedTooLong(waits, duration)
  {
    if duration > 0 {
      if waits > WaitsPerSegment {
        assert (waits - WaitsPerSegment) * duration > 0;
      } else {
        assert (WaitsPerSegment - waits) * duration >= 0;
      }
    }
  }

  /** A segment requested by two refills is reported slow the second time, and only
      requested again under `pesterSlowServer`. */
  lemma SecondRequestIsSlow(c: Client, seg: Segment, s: Settings)
    requires !Holds(c.buffer, seg.seqno)
    ensures var first := FetchSegment(c, seg, s);
      && Emit(SlowServer) !in first.effects <==> seg.seqno !in c.requested
    ensures var second := FetchSegment(FetchSegment(c, seg, s).client, seg, s);
      && Emit(SlowServer) in second.effects
      && (RequestSegment(seg) in second.effects <==> s.pesterSlowServer)
  {
  }

  /** `n` manifest fetches in a row failing in transport. */
  function FailRun(c: Client, n: nat): (o: Outcome)
    decreases n
  {
    if n == 0 then Outcome(c, [])
    else
      var first := Retry(c);
      var rest := FailRun(first.client, n - 1);
      Outcome(rest.client, first.effects + rest.effects)
  }

  /** While the budget lasts, each failure only schedules another fetch. */
  lemma {:induction false} FailuresRetry(c: Client, n: nat)
    requires n <= c.maxRetries
    ensures FailRun(c, n).client == c.(maxRetries := c.maxRetries - n)
    ensures FailRun(c, n).effects == seq(n, k => RetryManifest(RetryDelay(c)))
    decreases n
  {
    if n > 0 {
      FailuresRetry(Retry(c).client, n - 1);
    }
  }

  function RetryDelay(c: Client): int {
    if c.segmentDuration != 0 then c.segmentDuration else DefaultRetryDelayMs
  }

  /** The retry budget: from a fresh budget of ten, ten failures in a row are each retried
      (eleven requests in all), and the eleventh failure ends the session without a further
      request. */
  lemma RetryBudget(c: Client)
    requires c.maxRetries == InitialRetries
    ensures FailRun(c, 10).effects == seq(10, k => RetryManifest(RetryDelay(c)))
    ensures var last := Retry(FailRun(c, 10).client);
      && EndEvent(last.effects) == Some(if c.attached then Terminated else Aborted)
      && NoRetry(last.effects)
  {
    FailuresRetry(c, 10);
  }
}
