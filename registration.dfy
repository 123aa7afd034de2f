/**
 * Registration of the SIP user agent (`setupRegisteredUserAgent`) and the
 * registration deadline around it (`setupSipClient`), as transition systems
 * over the events the user agent and the timer deliver.
 */
module Registration {
  import opened Common
  import opened Client

  /** The events `setupRegisteredUserAgent` listens to. */
  datatype RegEvent =
    | Registered
    | Disconnected(payload: string)
    | Unregistered(payload: string)
    | Abort(reason: Reason)

  /** The calls the handlers make: `ua.stop()`, `resolve(ua)`, `reject(reason)`. */
  datatype RegEffect = StopUa | ResolveUa | RejectUa(reason: Reason)

  /**
   * The closure state: the `resolved` flag, whether the abort signal has
   * already fired (its listener is registered with `once`), and the log of
   * calls made so far.
   */
  datatype RegState = RegState(resolved: bool, aborted: bool, effects: seq<RegEffect>)

  const RegInit := RegState(false, false, [])

  /** `rejectUserAgent`: stop the user agent, then reject, unless already settled. */
  function RejectUserAgentStep(s: RegState, reason: Reason): RegState {
    if s.resolved then s
    else s.(resolved := true, effects := s.effects + [StopUa, RejectUa(reason)])
  }

  function RegStep(s: RegState, e: RegEvent): RegState {
    match e
    case Registered => s.(resolved := true, effects := s.effects + [ResolveUa])
    case Disconnected(p) => RejectUserAgentStep(s, UaEvent(p))
    case Unregistered(p) => RejectUserAgentStep(s, UaEvent(p))
    case Abort(r) => if s.aborted then s else RejectUserAgentStep(s.(aborted := true), r)
  }

  function RegRun(s: RegState, trace: seq<RegEvent>): RegState
    decreases |trace|
  {
    if trace == [] then s else RegRun(RegStep(s, trace[0]), trace[1..])
  }

  /** How the registration promise settles: the first `resolve` or `reject` call wins. */
  function Settlement(effects: seq<RegEffect>): PromiseState {
    if effects == [] then Pending
    else match effects[0]
      case ResolveUa => Fulfilled
      case RejectUa(r) => Rejected(r)
      case StopUa => Settlement(effects[1..])
  }

  predicate AllResolves(effects: seq<RegEffect>) {
    forall i :: 0 <= i < |effects| ==> effects[i] == ResolveUa
  }

  /**
   * The shapes the call log can take: only `resolve` calls (success, possibly
   * repeated by later `registered` events), or one `stop` immediately followed
   * by one `reject` and then at most some ignored `resolve` calls. The
   * `resolved` flag is set exactly when a call was made.
   */
  predicate RegValid(s: RegState) {
    && (s.resolved <==> |s.effects| > 0)
    && (|| AllResolves(s.effects)
        || (&& |s.effects| >= 2
            && s.effects[0] == StopUa
            && s.effects[1].RejectUa?
            && AllResolves(s.effects[2..])))
  }

  lemma RegStepValid(s: RegState, e: RegEvent)
    requires RegValid(s)
    ensures RegValid(RegStep(s, e))
  {
    var t := RegStep(s, e);
    if e.Registered? {
      if AllResolves(s.effects) {
        assert AllResolves(t.effects);
      } else {
        assert t.effects[2..] == s.effects[2..] + [ResolveUa];
      }
    }
  }

  lemma {:induction false} RegRunValid(s: RegState, trace: seq<RegEvent>)
    requires RegValid(s)
    ensures RegValid(RegRun(s, trace))
    decreases |trace|
  {
    if trace != [] {
      RegStepValid(s, trace[0]);
      RegRunValid(RegStep(s, trace[0]), trace[1..]);
    }
  }

  /** A log of the valid shape settles as its first call says, and stop comes with rejection only. */
  lemma SettlementOfValid(s: RegState)
    requires RegValid(s)
    ensures Settlement(s.effects).Pending? <==> !s.resolved
    ensures Settlement(s.effects).Fulfilled? <==> (s.resolved && StopUa !in s.effects)
    ensures Settlement(s.effects).Rejected? <==> (s.resolved && s.effects[0] == StopUa)
    ensures Settlement(s.effects).Rejected? ==> Settlement(s.effects) == Rejected(s.effects[1].reason)
    ensures Count(s.effects, StopUa) <= 1
  {
    if s.effects != [] {
      if AllResolves(s.effects) {
        AllResolvesCount(s.effects);
        assert StopUa !in s.effects by {
          forall i | 0 <= i < |s.effects| ensures s.effects[i] != StopUa { }
        }
      } else {
        assert s.effects == [StopUa, s.effects[1]] + s.effects[2..];
        AllResolvesCount(s.effects[2..]);
        CountAppend([StopUa, s.effects[1]], s.effects[2..], StopUa);
      }
    }
  }

  lemma {:induction false} AllResolvesCount(effects: seq<RegEffect>)
    requires AllResolves(effects)
    ensures Count(effects, StopUa) == 0
  {
    if effects != [] {
      assert AllResolves(effects[1..]);
      AllResolvesCount(effects[1..]);
    }
  }

  lemma {:induction false} RegRunExtends(s: RegState, trace: seq<RegEvent>)
    ensures s.effects <= RegRun(s, trace).effects
    ensures s.resolved ==> RegRun(s, trace).resolved
    decreases |trace|
  {
    if trace != [] {
      RegRunExtends(RegStep(s, trace[0]), trace[1..]);
    }
  }

  /**
   * Registration settles at most once: from any reachable state, whatever
   * events follow, the outcome of the promise never changes once it is
   * settled; `ua.stop()` is called at most once over the whole run, exactly
   * when the promise is rejected and immediately before the rejection, and
   * never when registration succeeded.
   */
  lemma RegistrationSettlesOnce(before: seq<RegEvent>, after: seq<RegEvent>)
    ensures var s := RegRun(RegInit, before);
            var t := RegRun(s, after);
            && (!Settlement(s.effects).Pending? ==> Settlement(t.effects) == Settlement(s.effects))
            && Count(t.effects, StopUa) <= 1
            && (StopUa in t.effects <==> Settlement(t.effects).Rejected?)
            && (Settlement(t.effects).Rejected? ==> |t.effects| >= 2 && t.effects[0] == StopUa && t.effects[1] == RejectUa(Settlement(t.effects).reason))
  {
    var s := RegRun(RegInit, before);
    RegRunValid(RegInit, before);
    RegRunValid(s, after);
    var t := RegRun(s, after);
    RegRunExtends(s, after);
    SettlementOfValid(s);
    SettlementOfValid(t);
    if s.resolved {
      assert s.effects[0] == t.effects[0];
      if s.effects[0] == StopUa {
        assert s.effects[1] == t.effects[1];
      } else {
        assert StopUa !in s.effects;
        assert t.effects[0] == ResolveUa;
      }
    }
  }

  /** Once settled, disconnect, unregister and abort events change nothing at all. */
  lemma {:induction false} LateRejectionsIgnored(s: RegState, trace: seq<RegEvent>)
    requires s.resolved
    requires forall i :: 0 <= i < |trace| ==> !trace[i].Registered?
    ensures RegRun(s, trace).effects == s.effects
    decreases |trace|
  {
    if trace != [] {
      LateRejectionsIgnored(RegStep(s, trace[0]), trace[1..]);
    }
  }

  /** The closure of `setupRegisteredUserAgent`, with its handlers as methods. */
  class UserAgentRegistration {
    var resolved: bool
    var aborted: bool
    var effects: seq<RegEffect>

    function State(): RegState
      reads this
    {
      RegState(resolved, aborted, effects)
    }

    constructor ()
      ensures State() == RegInit && RegValid(State())
    {
      resolved := false;
      aborted := false;
      effects := [];
    }

    method RejectUserAgent(reason: Reason)
      modifies this
      ensures State() == RejectUserAgentStep(old(State()), reason)
    {
      if !resolved {
        effects := effects + [StopUa];
        resolved := true;
        effects := effects + [RejectUa(reason)];
      }
    }

    method OnRegistered()
      requires RegValid(State())
      modifies this
      ensures State() == RegStep(old(State()), Registered)
      ensures RegValid(State())
    {
      RegStepValid(State(), Registered);
      resolved := true;
      effects := effects + [ResolveUa];
    }

    method OnDisconnected(payload: string)
      requires RegValid(State())
      modifies this
      ensures State() == RegStep(old(State()), Disconnected(payload))
      ensures RegValid(State())
    {
      RegStepValid(State(), Disconnected(payload));
      RejectUserAgent(UaEvent(payload));
    }

    method OnUnregistered(payload: string)
      requires RegValid(State())
      modifies this
      ensures State() == RegStep(old(State()), Unregistered(payload))
      ensures RegValid(State())
    {
      RegStepValid(State(), Unregistered(payload));
      RejectUserAgent(UaEvent(payload));
    }

    /** The `once` listener on the abort signal. */
    method OnAbort(reason: Reason)
      requires RegValid(State())
      modifies this
      ensures State() == RegStep(old(State()), Abort(reason))
      ensures RegValid(State())
    {
      RegStepValid(State(), Abort(reason));
      if !aborted {
        aborted := true;
        RejectUserAgent(reason);
      }
    }
  }

  // ---------------------------------------------------------------------------
  // setupSipClient: the registration raced against its deadline

  datatype SipClientEvent =
    | UaRegistered
    | UaDisconnected(payload: string)
    | UaUnregistered(payload: string)
    | RegistrationTimerFired

  /**
   * `timerArmed` is the pending `setTimeout`; `client` says that the
   * `TelephonyApi` has been returned.
   */
  datatype SipClientState = SipClientState(
    sipAddress: string, timeout: int, reg: RegState, timerArmed: bool, client: bool)

  function SipClientInit(details: WebRtcAuthenticationDetails, timeout: int): SipClientState {
    SipClientState(details.sipAddress, timeout, RegInit, true, false)
  }

  function SipClientStep(s: SipClientState, e: SipClientEvent): SipClientState {
    match e
    case RegistrationTimerFired =>
      if s.timerArmed then
        s.(timerArmed := false,
           reg := RegStep(s.reg, Abort(UserAgentCreationTimedOut(s.sipAddress, s.timeout))))
      else s
    case UaRegistered =>
      // `await` resumes only when this call is the one that settles the promise;
      // `clearTimeout` follows immediately.
      if Settlement(s.reg.effects).Pending? then
        s.(reg := RegStep(s.reg, Registered), timerArmed := false, client := true)
      else s.(reg := RegStep(s.reg, Registered))
    case UaDisconnected(p) => s.(reg := RegStep(s.reg, Disconnected(p)))
    case UaUnregistered(p) => s.(reg := RegStep(s.reg, Unregistered(p)))
  }

  function SipClientRun(s: SipClientState, trace: seq<SipClientEvent>): SipClientState
    decreases |trace|
  {
    if trace == [] then s else SipClientRun(SipClientStep(s, trace[0]), trace[1..])
  }

  /**
   * The deadline's invariant: the client exists exactly when registration
   * succeeded; the timer is gone only once it has fired or registration
   * succeeded; the abort signal fires only from the timer; and a rejection
   * carries either a user agent event or the
   * `{type: 'user-agent-creation-timeout', sipAddress, timeout}` record.
   */
  predicate SipClientValid(s: SipClientState) {
    && RegValid(s.reg)
    && (s.client <==> Settlement(s.reg.effects).Fulfilled?)
    && (!s.timerArmed <==> (s.reg.aborted || s.client))
    && (Settlement(s.reg.effects).Rejected? ==>
          || Settlement(s.reg.effects).reason.UaEvent?
          || Settlement(s.reg.effects).reason == UserAgentCreationTimedOut(s.sipAddress, s.timeout))
  }

  lemma SipClientStepValid(s: SipClientState, e: SipClientEvent)
    requires SipClientValid(s)
    ensures SipClientValid(SipClientStep(s, e))
  {
    var t := SipClientStep(s, e);
    SettlementOfValid(s.reg);
    match e
    case RegistrationTimerFired =>
      RegStepValid(s.reg, Abort(UserAgentCreationTimedOut(s.sipAddress, s.timeout)));
      SettlementOfValid(t.reg);
      if s.timerArmed && !s.reg.resolved {
        assert t.reg.effects == [StopUa, RejectUa(UserAgentCreationTimedOut(s.sipAddress, s.timeout))];
      }
    case UaRegistered =>
      RegStepValid(s.reg, Registered);
      SettlementOfValid(t.reg);
      if s.reg.resolved {
        assert t.reg.effects[0] == s.reg.effects[0];
        if s.reg.effects[0] == StopUa {
          assert t.reg.effects[1] == s.reg.effects[1];
        }
      }
    case UaDisconnected(p) =>
      RegStepValid(s.reg, Disconnected(p));
      SettlementOfValid(t.reg);
    case UaUnregistered(p) =>
      RegStepValid(s.reg, Unregistered(p));
      SettlementOfValid(t.reg);
  }

  /**
   * Over any run of `setupSipClient`: the registration timer is cleared only
   * after registration succeeded (or after it fired), a timeout rejection
   * carries the sip address and the configured timeout, and the client is
   * handed out only on success.
   */
  lemma {:induction false} SipClientRunValid(s: SipClientState, trace: seq<SipClientEvent>)
    requires SipClientValid(s)
    ensures SipClientValid(SipClientRun(s, trace))
    decreases |trace|
  {
    if trace != [] {
      SipClientStepValid(s, trace[0]);
      SipClientRunValid(SipClientStep(s, trace[0]), trace[1..]);
    }
  }

  lemma SipClientInitValid(details: WebRtcAuthenticationDetails, timeout: int)
    ensures SipClientValid(SipClientInit(details, timeout))
  {
  }
}
