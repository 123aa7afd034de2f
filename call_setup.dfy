/**
 * One outbound call on a registered user agent (`setupCall` and
 * `setupSessionAndMedia`), as a transition system over the events the
 * session, its peer connection and the call deadline deliver. The waits it
 * is built from (`awaitRtcSession`, `handleIceCandidateGathering`,
 * `awaitSessionConfirmation`, `awaitMediaConnection`) are step functions of
 * their own, and the closures that keep mutable flags are also given as
 * classes whose handlers are proved against those step functions.
 */
module CallSetup {
  import opened Common
  import opened Client

  // ---------------------------------------------------------------------------
  // handleIceCandidateGathering

  datatype IceEvent =
    /** A session `icecandidate` event (a newly discovered candidate). */
    | IceCandidate
    /** An `icegatheringstatechange` event; `complete` is the new state. */
    | GatheringStateChange(complete: bool)
    /** The pending `iceReadyTimeout` elapses. */
    | ReadyTimerFired

  /**
   * `captured`: the first candidate has been seen and its `ready` function
   * captured; `listening`: the gathering-state listener is registered;
   * `timerArmed`: `iceReadyTimeout` is set; `timersArmed` counts the timers
   * ever set and `readyCalls` the calls of the captured `ready`.
   */
  datatype IceState = IceState(
    captured: bool, listening: bool, timerArmed: bool, timersArmed: nat, readyCalls: nat)

  const IceInit := IceState(false, false, false, 0, 0)

  function ClearReadyTimeoutStep(s: IceState): IceState {
    s.(timerArmed := false)
  }

  function ResetReadyTimeoutStep(s: IceState): IceState {
    ClearReadyTimeoutStep(s).(timerArmed := true, timersArmed := s.timersArmed + 1)
  }

  function IceStep(s: IceState, e: IceEvent): IceState {
    match e
    case IceCandidate =>
      // `session.once`: only the first candidate reaches the handler; later
      // ones are only logged by the connection listener.
      if s.captured then s
      else ResetReadyTimeoutStep(s.(captured := true, listening := true))
    case GatheringStateChange(complete) =>
      if s.listening && complete then ClearReadyTimeoutStep(s).(listening := false) else s
    case ReadyTimerFired =>
      if s.timerArmed then s.(timerArmed := false, readyCalls := s.readyCalls + 1) else s
  }

  function IceRun(s: IceState, trace: seq<IceEvent>): IceState
    decreases |trace|
  {
    if trace == [] then s else IceRun(IceStep(s, trace[0]), trace[1..])
  }

  /**
   * At most one timer is ever set (on the first candidate), `ready` is called
   * at most once and only by that timer, and once gathering has completed no
   * timer is pending.
   */
  predicate IceValid(s: IceState) {
    && s.timersArmed == (if s.captured then 1 else 0)
    && (s.listening ==> s.captured)
    && (s.timerArmed ==> s.captured)
    && s.readyCalls + (if s.timerArmed then 1 else 0) <= s.timersArmed
    && (s.captured && !s.listening ==> !s.timerArmed)
  }

  lemma {:induction false} IceRunValid(s: IceState, trace: seq<IceEvent>)
    requires IceValid(s)
    ensures IceValid(IceRun(s, trace))
    decreases |trace|
  {
    if trace != [] {
      IceRunValid(IceStep(s, trace[0]), trace[1..]);
    }
  }

  /**
   * Over any sequence of events: only the first candidate arms a timer (so a
   * single timer is ever set), and `ready` is invoked at most once.
   */
  lemma IceReadyAtMostOnce(trace: seq<IceEvent>)
    ensures IceRun(IceInit, trace).timersArmed <= 1
    ensures IceRun(IceInit, trace).readyCalls <= 1
  {
    IceRunValid(IceInit, trace);
  }

  /**
   * After the first completed gathering state has been handled, nothing
   * changes any more: no later candidate re-arms the timer and the timer can
   * no longer call `ready`.
   */
  lemma {:induction false} IceCompletionIsFinal(s: IceState, trace: seq<IceEvent>)
    requires IceValid(s) && s.captured && !s.listening
    ensures IceRun(s, trace) == s
    decreases |trace|
  {
    if trace != [] {
      assert IceStep(s, trace[0]) == s;
      IceCompletionIsFinal(s, trace[1..]);
    }
  }

  /** The closure of `handleIceCandidateGathering`. */
  class IceGathering {
    var captured: bool
    var listening: bool
    var timerArmed: bool
    var timersArmed: nat
    var readyCalls: nat

    function State(): IceState
      reads this
    {
      IceState(captured, listening, timerArmed, timersArmed, readyCalls)
    }

    constructor ()
      ensures State() == IceInit
    {
      captured, listening, timerArmed, timersArmed, readyCalls := false, false, false, 0, 0;
    }

    /** `clearReadyTimeout`: idempotent, it only ever leaves no timer pending. */
    method ClearReadyTimeout()
      modifies this
      ensures State() == ClearReadyTimeoutStep(old(State()))
      ensures !timerArmed
    {
      if timerArmed {
        timerArmed := false;
      }
    }

    method ResetReadyTimeout()
      modifies this
      ensures State() == ResetReadyTimeoutStep(old(State()))
    {
      ClearReadyTimeout();
      timerArmed := true;
      timersArmed := timersArmed + 1;
    }

    method OnIceCandidate()
      requires IceValid(State())
      modifies this
      ensures State() == IceStep(old(State()), IceCandidate)
      ensures IceValid(State())
    {
      if !captured {
        captured := true;
        listening := true;
        ResetReadyTimeout();
      }
    }

    method OnGatheringStateChange(complete: bool)
      requires IceValid(State())
      modifies this
      ensures State() == IceStep(old(State()), GatheringStateChange(complete))
      ensures IceValid(State())
    {
      if listening && complete {
        ClearReadyTimeout();
        listening := false;
      }
    }

    method OnReadyTimerFired()
      requires IceValid(State())
      modifies this
      ensures State() == IceStep(old(State()), ReadyTimerFired)
      ensures IceValid(State())
    {
      if timerArmed {
        timerArmed := false;
        readyCalls := readyCalls + 1;
      }
    }
  }

  // ---------------------------------------------------------------------------
  // awaitSessionConfirmation

  datatype ConfEvent = Confirmed | Failed(cause: string)

  /**
   * Both handlers are `once` listeners. The `resolved` flag is checked by both
   * handlers but never set by either, so the settle-once behaviour rests on
   * the promise alone.
   */
  datatype ConfState = ConfState(
    resolved: bool, confirmedListening: bool, failedListening: bool, promise: PromiseState)

  const ConfInit := ConfState(false, true, true, Pending)

  /** `aborted` is the abort signal's reason when it has fired. */
  function ConfStep(s: ConfState, e: ConfEvent, aborted: Option<Reason>): ConfState {
    match e
    case Confirmed =>
      if !s.confirmedListening then s
      else if s.resolved then s.(confirmedListening := false)
      else s.(confirmedListening := false, promise := Settle(s.promise, Fulfilled))
    case Failed(cause) =>
      if !s.failedListening then s
      else if s.resolved then s.(failedListening := false)
      else
        var reason := if aborted.Some? then aborted.value else SessionEnd(cause);
        s.(failedListening := false, promise := Settle(s.promise, Rejected(reason)))
  }

  /**
   * The confirmation wait is decided by its first event: `confirmed` fulfils
   * it, `failed` rejects it with the abort reason when the call was aborted
   * and with the session's end event otherwise; later events change nothing.
   */
  lemma ConfFirstEventWins(e: ConfEvent, aborted: Option<Reason>, later: ConfEvent, aborted': Option<Reason>)
    ensures var s := ConfStep(ConfInit, e, aborted);
            && !s.resolved
            && s.promise == (match e
                             case Confirmed => Fulfilled
                             case Failed(c) => Rejected(if aborted.Some? then aborted.value else SessionEnd(c)))
            && ConfStep(s, later, aborted').promise == s.promise
  {
  }

  // ---------------------------------------------------------------------------
  // awaitMediaConnection

  datatype MediaEvent =
    | ConnectionStateChange(connected: bool)
    | IceConnectionStateChange(connected: bool)
    | MediaAbort(reason: Reason)

  /**
   * `stateListening`: the state-change listeners are registered;
   * `trackListening`: the `track` listener is registered; `abortListening`:
   * the `once` abort listener has not fired yet.
   */
  datatype MediaState = MediaState(
    resolved: bool, stateListening: bool, trackListening: bool, abortListening: bool, promise: PromiseState)

  const MediaInit := MediaState(false, true, true, true, Pending)

  /** `resolvePromise`: settle once, rejecting with the abort reason when aborted. */
  function ResolvePromiseStep(s: MediaState, aborted: Option<Reason>): MediaState {
    if s.resolved then s
    else s.(resolved := true,
            promise := Settle(s.promise, if aborted.Some? then Rejected(aborted.value) else Fulfilled))
  }

  function MediaStep(s: MediaState, e: MediaEvent, aborted: Option<Reason>): MediaState {
    match e
    case ConnectionStateChange(connected) =>
      if s.stateListening && connected then ResolvePromiseStep(s, aborted) else s
    case IceConnectionStateChange(connected) =>
      if s.stateListening && connected then ResolvePromiseStep(s, aborted) else s
    case MediaAbort(r) =>
      if !s.abortListening then s
      else
        // The `track` listener stays: the abort handler removes
        // `onConnectionStateChanged` from `track` instead of `onTrack`.
        var t := s.(abortListening := false, stateListening := false);
        if t.resolved then t else t.(promise := Settle(t.promise, Rejected(r)), resolved := true)
  }

  predicate MediaValid(s: MediaState) {
    && (s.resolved <==> !s.promise.Pending?)
    && (!s.abortListening ==> !s.stateListening)
    && s.trackListening
  }

  /**
   * The media wait settles once and the first event wins: a connected state
   * (of either kind) fulfils it, or rejects it with the abort reason when the
   * signal is already aborted; an abort rejects it with its reason; once
   * settled nothing changes the outcome. The `track` listener is never
   * removed.
   */
  lemma MediaFirstEventWins(s: MediaState, e: MediaEvent, aborted: Option<Reason>)
    requires MediaValid(s)
    ensures MediaValid(MediaStep(s, e, aborted))
    ensures s.resolved ==> MediaStep(s, e, aborted).promise == s.promise
    ensures !s.resolved && s.stateListening && (e == ConnectionStateChange(true) || e == IceConnectionStateChange(true))
      ==> MediaStep(s, e, aborted).promise == (if aborted.Some? then Rejected(aborted.value) else Fulfilled)
    ensures !s.resolved && s.abortListening && e.MediaAbort?
      ==> MediaStep(s, e, aborted).promise == Rejected(e.reason)
  {
  }

  /** The closure of `awaitMediaConnection`. */
  class MediaConnectionWait {
    var resolved: bool
    var stateListening: bool
    var trackListening: bool
    var abortListening: bool
    var promise: PromiseState

    function State(): MediaState
      reads this
    {
      MediaState(resolved, stateListening, trackListening, abortListening, promise)
    }

    constructor ()
      ensures State() == MediaInit && MediaValid(State())
    {
      resolved, stateListening, trackListening, abortListening, promise := false, true, true, true, Pending;
    }

    method ResolvePromise(aborted: Option<Reason>)
      modifies this
      ensures State() == ResolvePromiseStep(old(State()), aborted)
    {
      if !resolved {
        resolved := true;
        if aborted.Some? {
          promise := Settle(promise, Rejected(aborted.value));
        } else {
          promise := Settle(promise, Fulfilled);
        }
      }
    }

    method OnConnectionStateChanged(connected: bool, aborted: Option<Reason>)
      requires MediaValid(State())
      modifies this
      ensures State() == MediaStep(old(State()), ConnectionStateChange(connected), aborted)
      ensures MediaValid(State())
    {
      if stateListening && connected {
        ResolvePromise(aborted);
      }
    }

    method OnIceConnectionStateChange(connected: bool, aborted: Option<Reason>)
      requires MediaValid(State())
      modifies this
      ensures State() == MediaStep(old(State()), IceConnectionStateChange(connected), aborted)
      ensures MediaValid(State())
    {
      if stateListening && connected {
        ResolvePromise(aborted);
      }
    }

    method OnAbort(reason: Reason)
      requires MediaValid(State())
      modifies this
      ensures State() == MediaStep(old(State()), MediaAbort(reason), Some(reason))
      ensures MediaValid(State())
    {
      if abortListening {
        abortListening := false;
        stateListening := false;
        if !resolved {
          promise := Settle(promise, Rejected(reason));
          resolved := true;
        }
      }
    }
  }

  // ---------------------------------------------------------------------------
  // Collecting the remote audio tracks once the call is up

  datatype Track = Track(id: nat, kind: string)

  /** `MediaStream.addTrack`: a track the stream already holds is not added again. */
  function AddTrack(stream: seq<Track>, track: Track): seq<Track> {
    if track in stream then stream else stream + [track]
  }

  /** The stream built by visiting the receivers in order and adding their audio tracks. */
  function AudioStream(receivers: seq<Track>): seq<Track> {
    if receivers == [] then []
    else
      var last := receivers[|receivers| - 1];
      var prefix := AudioStream(receivers[..|receivers| - 1]);
      if last.kind == "audio" then AddTrack(prefix, last) else prefix
  }

  /**
   * The stream holds exactly the receivers' audio tracks, each once, in the
   * order of their first receiver.
   */
  lemma {:induction false} AudioStreamContents(receivers: seq<Track>)
    ensures forall t :: t in AudioStream(receivers) <==> t in receivers && t.kind == "audio"
    ensures forall i, j :: 0 <= i < j < |AudioStream(receivers)| ==> AudioStream(receivers)[i] != AudioStream(receivers)[j]
    ensures forall i, j :: 0 <= i < j < |AudioStream(receivers)| ==>
      FirstIndex(receivers, AudioStream(receivers)[i]) < FirstIndex(receivers, AudioStream(receivers)[j])
    decreases |receivers|
  {
    if receivers != [] {
      var n := |receivers| - 1;
      var prefix := receivers[..n];
      assert receivers == prefix + [receivers[n]];
      AudioStreamContents(prefix);
      var p := AudioStream(prefix);
      forall i | 0 <= i < |p|
        ensures FirstIndex(receivers, p[i]) == FirstIndex(prefix, p[i]) < n
      {
        FirstIndexPrefix(prefix, receivers[n], p[i]);
      }
      if receivers[n].kind == "audio" && receivers[n] !in p {
        assert receivers[n] !in prefix;
        FirstIndexIs(receivers, n);
      }
    }
  }

  lemma {:induction false} FirstIndexPrefix<T>(s: seq<T>, y: T, x: T)
    requires x in s
    ensures FirstIndex(s + [y], x) == FirstIndex(s, x) < |s|
  {
    if s[0] != x {
      assert (s + [y])[1..] == s[1..] + [y];
      FirstIndexPrefix(s[1..], y, x);
    }
  }

  /**
   * The loop over `getReceivers()` that adds every `audio` track to a fresh
   * `MediaStream`.
   */
  method CollectAudioTracks(receivers: seq<Track>) returns (stream: seq<Track>)
    ensures stream == AudioStream(receivers)
    ensures forall t :: t in stream <==> t in receivers && t.kind == "audio"
    ensures forall i, j :: 0 <= i < j < |stream| ==> stream[i] != stream[j]
  {
    stream := [];
    var k := 0;
    while k < |receivers|
      invariant 0 <= k <= |receivers|
      invariant stream == AudioStream(receivers[..k])
    {
      var track := receivers[k];
      assert receivers[..k + 1][..k] == receivers[..k];
      if track.kind == "audio" {
        stream := AddTrack(stream, track);
      }
      k := k + 1;
    }
    assert receivers[..k] == receivers;
    AudioStreamContents(receivers);
  }

  /** Position of the first occurrence of `x` in `s`. */
  function FirstIndex<T(==)>(s: seq<T>, x: T): (i: nat)
    ensures x in s ==> i < |s| && s[i] == x && x !in s[..i]
  {
    if s == [] || s[0] == x then 0 else 1 + FirstIndex(s[1..], x)
  }

  lemma {:induction false} FirstIndexIs<T>(s: seq<T>, k: nat)
    requires k < |s| && s[k] !in s[..k]
    ensures FirstIndex(s, s[k]) == k
  {
    if k > 0 {
      assert s[0] != s[k] by { assert s[0] == s[..k][0]; }
      assert s[1..][..k - 1] == s[1..k];
      assert s[1..k] == s[..k][1..];
      FirstIndexIs(s[1..], k - 1);
    }
  }

  // ---------------------------------------------------------------------------
  // setupCall: the whole set-up raced against the call deadline

  datatype CallEvent =
    /** The call deadline (`timeoutId`) elapses. */
    | DeadlineFired
    /** The user agent emits `newRTCSession` for the outgoing call. */
    | NewRtcSession
    | Ice(ice: IceEvent)
    | Session(conf: ConfEvent)
    | Media(media: MediaEvent)
    /** The session emits `ended`. */
    | SessionEnded

  /**
   * `abortReason`: the call abort signal's reason once it has fired;
   * `terminateListening`/`terminateCalls`: its `once` listener calling
   * `userAgent.terminateSessions()`; `deadlineArmed`: the call deadline is
   * pending; `sessionListening`/`session`: the `once` `newRTCSession`
   * listener and the promise of `awaitRtcSession`; `ice`, `conf`, `media`:
   * the three waits started once the session exists; `setup`: the promise of
   * `setupCall`; `endedListening`/`completion`: the `once` `ended` listener
   * and `callCompletion`.
   */
  datatype CallState = CallState(
    sipAddress: string,
    timeout: int,
    abortReason: Option<Reason>,
    terminateListening: bool,
    terminateCalls: nat,
    deadlineArmed: bool,
    sessionListening: bool,
    session: PromiseState,
    ice: IceState,
    conf: ConfState,
    media: MediaState,
    setup: PromiseState,
    endedListening: bool,
    completion: PromiseState)

  function CallInit(details: WebRtcAuthenticationDetails, timeout: int): CallState {
    CallState(details.sipAddress, timeout, None, true, 0, true, true, Pending,
              IceInit, ConfInit, MediaInit, Pending, false, Pending)
  }

  /**
   * `callAbortController.abort(reason)`: only the first call fires the signal;
   * its listeners run in registration order, first `terminateSessions`, then
   * the media wait's (registered once the session exists). `awaitRtcSession`
   * listens for `cancel`, which an abort never dispatches.
   */
  function AbortCall(s: CallState, reason: Reason): CallState {
    if s.abortReason.Some? then s
    else
      var s1 := s.(abortReason := Some(reason));
      var s2 := if s1.terminateListening then s1.(terminateListening := false, terminateCalls := s1.terminateCalls + 1) else s1;
      if s2.session.Fulfilled? then s2.(media := MediaStep(s2.media, MediaAbort(reason), s2.abortReason)) else s2
  }

  /**
   * `Promise.all([confirmation, media])` and what `setupCall` does once it
   * settles: reject with the first rejection, or, when both are fulfilled,
   * clear the deadline, listen for `ended` and fulfil.
   */
  function Combine(s: CallState): CallState {
    if !s.setup.Pending? || !s.session.Fulfilled? then s
    else if s.conf.promise.Rejected? then s.(setup := Rejected(s.conf.promise.reason))
    else if s.media.promise.Rejected? then s.(setup := Rejected(s.media.promise.reason))
    else if s.conf.promise.Fulfilled? && s.media.promise.Fulfilled? then
      s.(setup := Fulfilled, deadlineArmed := false, endedListening := true)
    else s
  }

  function HandleEvent(s: CallState, e: CallEvent): CallState {
    match e
    case DeadlineFired =>
      if s.deadlineArmed then AbortCall(s.(deadlineArmed := false), CallCreationTimedOut(s.sipAddress, s.timeout))
      else s
    case NewRtcSession =>
      if !s.sessionListening then s
      else if s.abortReason.Some? then
        s.(sessionListening := false,
           session := Rejected(s.abortReason.value),
           setup := Settle(s.setup, Rejected(s.abortReason.value)))
      else s.(sessionListening := false, session := Fulfilled)
    case Ice(ie) =>
      if s.session.Fulfilled? then s.(ice := IceStep(s.ice, ie)) else s
    case Session(ce) =>
      if s.session.Fulfilled? then s.(conf := ConfStep(s.conf, ce, s.abortReason)) else s
    case Media(me) =>
      // The abort listener of the media wait is driven by the abort signal only.
      if s.session.Fulfilled? && !me.MediaAbort? then s.(media := MediaStep(s.media, me, s.abortReason)) else s
    case SessionEnded =>
      if s.endedListening then s.(endedListening := false, completion := Settle(s.completion, Fulfilled))
      else s
  }

  function CallStep(s: CallState, e: CallEvent): CallState {
    Combine(HandleEvent(s, e))
  }

  function CallRun(s: CallState, trace: seq<CallEvent>): CallState
    decreases |trace|
  {
    if trace == [] then s else CallRun(CallStep(s, trace[0]), trace[1..])
  }

  /** The only abort reason of a call: its deadline record. */
  function DeadlineReason(s: CallState): Reason {
    CallCreationTimedOut(s.sipAddress, s.timeout)
  }

  predicate IsCallFailure(s: CallState, r: Reason) {
    r == DeadlineReason(s) || r.SessionEnd?
  }

  /** The abort signal, its `terminateSessions` listener and the deadline. */
  predicate AbortValid(s: CallState) {
    && s.terminateListening == s.abortReason.None?
    && s.terminateCalls == (if s.abortReason.Some? then 1 else 0)
    && (s.abortReason.Some? ==> s.abortReason.value == DeadlineReason(s) && !s.deadlineArmed)
    && (!s.deadlineArmed ==> s.abortReason.Some? || s.setup.Fulfilled?)
  }

  /** The session wait and the three waits started once the session exists. */
  predicate WaitsValid(s: CallState) {
    && (s.session.Pending? <==> s.sessionListening)
    && (s.session.Pending? ==> s.setup.Pending?)
    && (s.session.Rejected? ==> s.setup == s.session && s.session.reason == DeadlineReason(s))
    && (!s.session.Fulfilled? ==> s.ice == IceInit && s.conf == ConfInit && s.media == MediaInit)
    && IceValid(s.ice)
    && !s.conf.resolved
    && MediaValid(s.media)
    && (s.session.Fulfilled? ==> (s.media.abortListening <==> s.abortReason.None?))
    && (s.conf.promise.Rejected? ==> IsCallFailure(s, s.conf.promise.reason))
    && (s.media.promise.Rejected? ==> s.media.promise.reason == DeadlineReason(s))
  }

  /** What `setupCall`'s promise and `callCompletion` may be. */
  predicate OutcomeValid(s: CallState) {
    && (s.setup.Fulfilled? ==>
          s.session.Fulfilled? && s.conf.promise.Fulfilled? && s.media.promise.Fulfilled? && !s.deadlineArmed)
    && (s.setup.Rejected? ==> IsCallFailure(s, s.setup.reason))
    && (s.session.Fulfilled? && s.setup.Pending? ==>
          && !s.conf.promise.Rejected? && !s.media.promise.Rejected?
          && !(s.conf.promise.Fulfilled? && s.media.promise.Fulfilled?))
    && (s.endedListening ==> s.setup.Fulfilled? && s.completion.Pending?)
    && (s.setup.Fulfilled? ==> (s.endedListening <==> s.completion.Pending?))
    && (!s.completion.Pending? ==> s.completion.Fulfilled? && s.setup.Fulfilled?)
  }

  predicate CallValid(s: CallState) {
    AbortValid(s) && WaitsValid(s) && OutcomeValid(s)
  }

  lemma CallInitValid(details: WebRtcAuthenticationDetails, timeout: int)
    ensures CallValid(CallInit(details, timeout))
  {
  }

  lemma HandleEventValid(s: CallState, e: CallEvent)
    requires CallValid(s)
    ensures var t := HandleEvent(s, e);
            && AbortValid(t) && WaitsValid(t)
            && (t.setup.Fulfilled? ==> s.setup.Fulfilled? && t.conf.promise == s.conf.promise && t.media.promise == s.media.promise)
            && (t.setup.Rejected? ==> IsCallFailure(t, t.setup.reason))
            && (t.session.Fulfilled? && !t.setup.Pending? ==> t.setup == s.setup)
            && (t.endedListening ==> t.setup.Fulfilled? && t.completion.Pending?)
            && (t.setup.Fulfilled? ==> (t.endedListening <==> t.completion.Pending?))
            && (!t.completion.Pending? ==> t.completion.Fulfilled? && t.setup.Fulfilled?)
            && (t.setup.Fulfilled? ==> t.session.Fulfilled? && !t.deadlineArmed)
            && (t.session.Fulfilled? && t.setup.Pending? ==>
                  !(t.conf.promise.Rejected? && t.media.promise.Rejected?))
  {
    match e
    case DeadlineFired =>
      if s.deadlineArmed && s.session.Fulfilled? {
        MediaFirstEventWins(s.media, MediaAbort(DeadlineReason(s)), Some(DeadlineReason(s)));
      }
    case NewRtcSession =>
    case Ice(ie) =>
      if s.session.Fulfilled? {
        IceRunValid(s.ice, [ie]);
      }
    case Session(ce) =>
    case Media(me) =>
      if s.session.Fulfilled? && !me.MediaAbort? {
        MediaFirstEventWins(s.media, me, s.abortReason);
      }
    case SessionEnded =>
  }

  lemma CallStepValid(s: CallState, e: CallEvent)
    requires CallValid(s)
    ensures CallValid(CallStep(s, e))
  {
    HandleEventValid(s, e);
  }

  /**
   * Every reachable state of a call set-up satisfies `CallValid`: the abort
   * calls `terminateSessions()` exactly once and only with the
   * `{type: 'call-creation-timeout', sipAddress, timeout}` record; the
   * deadline is cleared only by the abort itself or once both confirmation
   * and media connection have succeeded; `setupCall` fulfils only after
   * both, and rejects only with the deadline record or a session failure;
   * `callCompletion` fulfils only after set-up succeeded.
   */
  lemma {:induction false} CallRunValid(s: CallState, trace: seq<CallEvent>)
    requires CallValid(s)
    ensures CallValid(CallRun(s, trace))
    decreases |trace|
  {
    if trace != [] {
      CallStepValid(s, trace[0]);
      CallRunValid(CallStep(s, trace[0]), trace[1..]);
    }
  }

  /**
   * Settle once: whatever events follow, `setupCall`'s promise and
   * `callCompletion` keep the outcome they had, and `terminateSessions()` is
   * never called a second time.
   */
  lemma CallStepSettles(s: CallState, e: CallEvent)
    requires CallValid(s)
    ensures var t := CallStep(s, e);
            && (!s.setup.Pending? ==> t.setup == s.setup)
            && (!s.completion.Pending? ==> t.completion == s.completion)
            && (s.terminateCalls == 1 ==> t.terminateCalls == 1)
  {
    HandleEventValid(s, e);
  }

  lemma {:induction false} CallSettlesOnce(s: CallState, trace: seq<CallEvent>)
    requires CallValid(s)
    ensures !s.setup.Pending? ==> CallRun(s, trace).setup == s.setup
    ensures !s.completion.Pending? ==> CallRun(s, trace).completion == s.completion
    ensures CallRun(s, trace).terminateCalls <= 1
    ensures s.terminateCalls == 1 ==> CallRun(s, trace).terminateCalls == 1
    decreases |trace|
  {
    if trace != [] {
      var t := CallStep(s, trace[0]);
      CallStepValid(s, trace[0]);
      CallStepSettles(s, trace[0]);
      CallSettlesOnce(t, trace[1..]);
      assert CallRun(s, trace) == CallRun(t, trace[1..]);
    }
  }

  /**
   * `callCompletion` resolves on the first `'ended'` after the set-up
   * succeeded, and only then: later `'ended'` events change nothing, and
   * no other event moves the completion.
   */
  lemma CompletionOnFirstEnded(s: CallState, e: CallEvent)
    requires CallValid(s)
    ensures s.setup.Fulfilled? && s.completion.Pending? ==>
              var t := CallStep(s, SessionEnded);
              && t.completion == Fulfilled && t.setup == Fulfilled
              && CallStep(t, SessionEnded) == t
    ensures CallStep(s, e).completion != s.completion ==>
              e == SessionEnded && s.setup.Fulfilled? && s.completion.Pending?
  {
    HandleEventValid(s, e);
  }

  /**
   * The deadline wins when it fires first: firing it on a set-up that is
   * still pending calls `terminateSessions()`, and when the session has not
   * yet arrived the set-up is then rejected with the deadline record as soon
   * as it does.
   */
  lemma DeadlineAborts(s: CallState)
    requires CallValid(s) && s.setup.Pending? && s.deadlineArmed
    ensures var t := CallStep(s, DeadlineFired);
            && t.abortReason == Some(DeadlineReason(s))
            && t.terminateCalls == 1
            && (s.session.Pending? ==> CallStep(t, NewRtcSession).setup == Rejected(DeadlineReason(s)))
            && (s.session.Fulfilled? && !s.media.resolved ==> t.setup == Rejected(DeadlineReason(s)))
  {
  }

  // ---------------------------------------------------------------------------
  // The CallApi handed out once set-up succeeded

  /** The session calls a `CallApi` makes. */
  datatype SessionCall = Mute | Unmute | SendDtmf(tone: Tone) | Terminate

  /** The calls `setMicrophoneMuted(mute)` makes when the audio mute state is `muted`. */
  function MuteCalls(muted: bool, mute: bool): (calls: seq<SessionCall>)
    ensures calls == [] <==> muted == mute
    ensures mute && !muted ==> calls == [Mute]
    ensures !mute && muted ==> calls == [Unmute]
  {
    if mute then (if !muted then [Mute] else [])
    else (if muted then [Unmute] else [])
  }

  /** The effect of a list of mute/unmute calls on the audio mute state. */
  function MutedAfter(muted: bool, calls: seq<SessionCall>): bool
    decreases |calls|
  {
    if calls == [] then muted
    else MutedAfter(match calls[0] case Mute => true case Unmute => false case _ => muted, calls[1..])
  }

  /**
   * `setMicrophoneMuted(m)` leaves the audio mute state equal to `m`, and a
   * repeated call makes no session call at all.
   */
  lemma SetMicrophoneMutedIdempotent(muted: bool, mute: bool)
    ensures MutedAfter(muted, MuteCalls(muted, mute)) == mute
    ensures MuteCalls(MutedAfter(muted, MuteCalls(muted, mute)), mute) == []
  {
  }

  /** The session behind a `CallApi`: its audio mute state and the calls made on it. */
  class CallSession {
    var audioMuted: bool
    var calls: seq<SessionCall>

    constructor (muted: bool)
      ensures audioMuted == muted && calls == []
    {
      audioMuted := muted;
      calls := [];
    }

    method SetMicrophoneMuted(mute: bool)
      modifies this
      ensures audioMuted == mute
      ensures calls == old(calls) + MuteCalls(old(audioMuted), mute)
    {
      if mute {
        if !audioMuted {
          calls := calls + [Mute];
          audioMuted := true;
        }
      } else {
        if audioMuted {
          calls := calls + [Unmute];
          audioMuted := false;
        }
      }
    }

    method SendTone(tone: Tone)
      modifies this
      ensures audioMuted == old(audioMuted) && calls == old(calls) + [SendDtmf(tone)]
    {
      calls := calls + [SendDtmf(tone)];
    }

    method Drop()
      modifies this
      ensures audioMuted == old(audioMuted) && calls == old(calls) + [Terminate]
    {
      calls := calls + [Terminate];
    }
  }
}
