/**
 * The `cvg-webrtc-button` custom element: how it reads its attributes
 * (numbers, custom SIP headers, enumerations, the forced codec), how it
 * validates them, and how its trigger button is disabled and re-enabled
 * around a call.
 */
module CustomElement {
  import opened Common
  import opened Client
  import Controls

  // ---------------------------------------------------------------------------
  // Attributes

  /** An attribute of the element: its local name and value. */
  datatype Attr = Attr(localName: string, value: string)

  /** `getAttribute(name)`: the value of the first attribute with that name. */
  function GetAttribute(attributes: seq<Attr>, name: string): (r: Option<string>)
    ensures r.None? <==> forall i | 0 <= i < |attributes| :: attributes[i].localName != name
    ensures r.Some? ==> exists i | 0 <= i < |attributes| ::
      && attributes[i] == Attr(name, r.value)
      && forall j | 0 <= j < i :: attributes[j].localName != name
  {
    if attributes == [] then None
    else if attributes[0].localName == name then Some(attributes[0].value)
    else
      var r := GetAttribute(attributes[1..], name);
      assert r.Some? ==> exists i | 0 <= i < |attributes[1..]| ::
        && attributes[1..][i] == Attr(name, r.value)
        && forall j | 0 <= j < i :: attributes[1..][j].localName != name;
      if r.Some? then
        var i :| 0 <= i < |attributes[1..]| && attributes[1..][i] == Attr(name, r.value)
                 && forall j | 0 <= j < i :: attributes[1..][j].localName != name;
        assert attributes[i + 1] == Attr(name, r.value);
        assert forall j | 0 <= j < i + 1 :: attributes[j].localName != name by {
          forall j | 0 <= j < i + 1 ensures attributes[j].localName != name {
            if j > 0 {
              assert attributes[j] == attributes[1..][j - 1];
            }
          }
        }
        r
      else
        assert forall i | 0 <= i < |attributes| :: attributes[i].localName != name by {
          forall i | 0 <= i < |attributes| ensures attributes[i].localName != name {
            if i > 0 {
              assert attributes[i] == attributes[1..][i - 1];
            }
          }
        }
        r
  }

  /** A JavaScript number as `Number(text)` yields it. */
  datatype JsNumber = NaN | Finite(value: real) | Infinity(negative: bool)

  /**
   * `getNumberAttribute(name, def)` given the attribute's value; `numberOf`
   * stands for JavaScript's `Number` conversion of a string.
   */
  function GetNumberAttribute(value: Option<string>, numberOf: string -> JsNumber, def: JsNumber): (r: JsNumber)
    ensures !Controls.IsTruthy(value) ==> r == def
    ensures Controls.IsTruthy(value) && numberOf(value.value).NaN? ==> r == def
    ensures Controls.IsTruthy(value) && !numberOf(value.value).NaN? ==> r == numberOf(value.value)
    ensures !def.NaN? ==> !r.NaN?
  {
    if !Controls.IsTruthy(value) then def
    else
      var number := numberOf(value.value);
      if number.NaN? then def else number
  }

  // ---------------------------------------------------------------------------
  // Custom SIP headers

  /** A local name that, lower-cased, starts with `x-`. */
  predicate IsCustomHeaderName(name: string) {
    |name| >= 2 && (name[0] == 'x' || name[0] == 'X') && name[1] == '-'
  }

  /** The custom SIP headers the attributes carry, in attribute order. */
  function CustomHeaders(attributes: seq<Attr>): HeaderList {
    if attributes == [] then []
    else
      var last := attributes[|attributes| - 1];
      CustomHeaders(attributes[..|attributes| - 1])
        + (if IsCustomHeaderName(last.localName) then [(last.localName, last.value)] else [])
  }

  /**
   * The headers are exactly the `x-` attributes as `[localName, value]`, and
   * the attributes' order is kept: the headers of two runs of attributes are
   * the headers of the first followed by those of the second.
   */
  lemma {:induction false} CustomHeadersSpec(attributes: seq<Attr>, more: seq<Attr>)
    ensures forall h :: h in CustomHeaders(attributes) <==>
      exists i | 0 <= i < |attributes| :: IsCustomHeaderName(attributes[i].localName) && h == (attributes[i].localName, attributes[i].value)
    ensures CustomHeaders(attributes + more) == CustomHeaders(attributes) + CustomHeaders(more)
    ensures |CustomHeaders(attributes)| <= |attributes|
    decreases |more|, |attributes|
  {
    if attributes != [] {
      var init := attributes[..|attributes| - 1];
      CustomHeadersSpec(init, []);
      forall h ensures h in CustomHeaders(attributes) <==>
        exists i | 0 <= i < |attributes| :: IsCustomHeaderName(attributes[i].localName) && h == (attributes[i].localName, attributes[i].value)
      {
        if h in CustomHeaders(attributes) && h !in CustomHeaders(init) {
          var i := |attributes| - 1;
          assert IsCustomHeaderName(attributes[i].localName) && h == (attributes[i].localName, attributes[i].value);
        }
        if h in CustomHeaders(init) {
          var i :| 0 <= i < |init| && IsCustomHeaderName(init[i].localName) && h == (init[i].localName, init[i].value);
          assert attributes[i] == init[i];
        }
        if exists i | 0 <= i < |attributes| :: IsCustomHeaderName(attributes[i].localName) && h == (attributes[i].localName, attributes[i].value) {
          var i :| 0 <= i < |attributes| && IsCustomHeaderName(attributes[i].localName) && h == (attributes[i].localName, attributes[i].value);
          if i < |init| {
            assert init[i] == attributes[i];
          }
        }
      }
    }
    if more == [] {
      assert attributes + more == attributes;
    } else {
      var moreInit := more[..|more| - 1];
      CustomHeadersSpec(attributes, moreInit);
      assert (attributes + more)[..|attributes + more| - 1] == attributes + moreInit;
    }
  }

  // ---------------------------------------------------------------------------
  // Enumerated attributes

  /** `dark-mode`: one of the three literals, anything else gives no value. */
  function ParseDarkMode(value: Option<string>): Option<Controls.DarkMode> {
    if value == Some("yes") then Some(Controls.Yes)
    else if value == Some("no") then Some(Controls.No)
    else if value == Some("auto") then Some(Controls.Auto)
    else None
  }

  function DarkModeName(mode: Controls.DarkMode): string {
    match mode
    case Yes => "yes"
    case No => "no"
    case Auto => "auto"
  }

  /** `keypad`: one of the three literals, anything else gives no value. */
  function ParseKeypadMode(value: Option<string>): Option<Controls.KeypadMode> {
    if value == Some("none") then Some(Controls.NoKeypad)
    else if value == Some("standard") then Some(Controls.Standard)
    else if value == Some("full") then Some(Controls.Full)
    else None
  }

  function KeypadModeName(mode: Controls.KeypadMode): string {
    match mode
    case NoKeypad => "none"
    case Standard => "standard"
    case Full => "full"
  }

  /** The side of the trigger button the call controls are placed on. */
  datatype UiPositionSide = Top | Right | Bottom | Left

  /** `controls-side`: one of the four literals, `'right'` otherwise. */
  function ParseControlsSide(value: Option<string>): UiPositionSide {
    if value == Some("top") then Top
    else if value == Some("right") then Right
    else if value == Some("bottom") then Bottom
    else if value == Some("left") then Left
    else Right
  }

  function SideName(side: UiPositionSide): string {
    match side
    case Top => "top"
    case Right => "right"
    case Bottom => "bottom"
    case Left => "left"
  }

  /**
   * Each enumerated attribute accepts exactly the names of its values and
   * reads each name back as that value; any other text (or no attribute)
   * gives no dark mode, no keypad mode, and the right-hand side.
   */
  lemma EnumAttributesRoundTrip(value: Option<string>)
    ensures forall m :: ParseDarkMode(Some(DarkModeName(m))) == Some(m)
    ensures ParseDarkMode(value).Some? ==> value == Some(DarkModeName(ParseDarkMode(value).value))
    ensures forall m :: ParseKeypadMode(Some(KeypadModeName(m))) == Some(m)
    ensures ParseKeypadMode(value).Some? ==> value == Some(KeypadModeName(ParseKeypadMode(value).value))
    ensures forall side :: ParseControlsSide(Some(SideName(side))) == side
    ensures (forall side :: value != Some(SideName(side))) ==> ParseControlsSide(value) == Right
  {
    forall side ensures ParseControlsSide(Some(SideName(side))) == side {
      match side
      case Top =>
      case Right =>
      case Bottom =>
      case Left =>
    }
    if forall side :: value != Some(SideName(side)) {
      assert value != Some(SideName(Top)) && value != Some(SideName(Bottom)) && value != Some(SideName(Left));
    }
  }

  // ---------------------------------------------------------------------------
  // Forced codec

  function LowerChar(c: char): char {
    if 'A' <= c <= 'Z' then (c as int + 32) as char else c
  }

  /** `toLowerCase()` on ASCII letters. */
  function LowerAscii(s: string): (r: string)
    ensures |r| == |s| && forall i | 0 <= i < |s| :: r[i] == LowerChar(s[i])
  {
    seq(|s|, i requires 0 <= i < |s| => LowerChar(s[i]))
  }

  /** The codec filter of the call options: none, or one codec name compared ignoring case. */
  datatype CodecFilter = NoFilter | SameCodecAs(codec: string)

  /** `force-codec`: a filter only when the attribute is present and not empty. */
  function CodecFilterFor(forceCodec: Option<string>): (f: CodecFilter)
    ensures f.SameCodecAs? <==> Controls.IsTruthy(forceCodec)
    ensures f.SameCodecAs? ==> f.codec == forceCodec.value
  {
    if Controls.IsTruthy(forceCodec) then SameCodecAs(forceCodec.value) else NoFilter
  }

  predicate Accepts(filter: CodecFilter, name: string)
    requires filter.SameCodecAs?
  {
    LowerAscii(name) == LowerAscii(filter.codec)
  }

  /**
   * The forced codec is compared ignoring case: it accepts its own name in
   * any capitalisation, and two names that differ only in case are accepted
   * or refused together.
   */
  lemma CodecFilterIgnoresCase(codec: string, a: string, b: string)
    ensures Accepts(SameCodecAs(codec), codec)
    ensures Accepts(SameCodecAs(codec), LowerAscii(codec))
    ensures LowerAscii(a) == LowerAscii(b) ==> (Accepts(SameCodecAs(codec), a) <==> Accepts(SameCodecAs(codec), b))
    ensures Accepts(SameCodecAs(codec), a) <==> Accepts(SameCodecAs(a), codec)
  {
    assert LowerAscii(LowerAscii(codec)) == LowerAscii(codec);
  }

  // ---------------------------------------------------------------------------
  // The trigger button

  const EnabledPart := "trigger-enabled"
  const DisabledPart := "trigger-disabled"

  /** The `error` a `call_ended` event carries. */
  datatype JsValue = Undefined | Null | Error(message: string)

  /** The events the element dispatches. */
  datatype ElementEvent =
    | NewCall
    | CallEnded(detail: JsValue)
    | AttributeValidationFailed(attributeName: string, error: string)

  /** `new CallEndedEvent(error)`: an undefined error is reported as `null`. */
  function CallEndedDetail(error: JsValue): (detail: JsValue)
    ensures !detail.Undefined?
    ensures error.Undefined? ==> detail == Null
    ensures !error.Undefined? ==> detail == error
  {
    if error.Undefined? then Null else error
  }

  /** The call options `onButtonClicked` derives from the attributes. */
  datatype ButtonOptions = ButtonOptions(
    side: UiPositionSide,
    dark: Option<Controls.DarkMode>,
    keypad: Option<Controls.KeypadMode>,
    sipHeaders: HeaderList,
    codecFilter: CodecFilter)

  function OptionsFrom(attributes: seq<Attr>): ButtonOptions {
    ButtonOptions(
      ParseControlsSide(GetAttribute(attributes, "controls-side")),
      ParseDarkMode(GetAttribute(attributes, "dark-mode")),
      ParseKeypadMode(GetAttribute(attributes, "keypad")),
      CustomHeaders(attributes),
      CodecFilterFor(GetAttribute(attributes, "force-codec")))
  }

  /**
   * The required attributes, in the order they are checked: a missing or
   * empty `reseller-token` is reported first, then a missing or empty
   * `destination`; `environment` falls back to the default service.
   */
  function ValidateAttributes(attributes: seq<Attr>): (r: Result<Controls.TriggerArguments, string>)
    ensures var token := GetAttribute(attributes, "reseller-token");
            var destination := GetAttribute(attributes, "destination");
            && (r.Ok? <==> Controls.IsTruthy(token) && Controls.IsTruthy(destination))
            && (!Controls.IsTruthy(token) ==> r == Err("reseller-token"))
            && (Controls.IsTruthy(token) && !Controls.IsTruthy(destination) ==> r == Err("destination"))
            && (r.Ok? ==> r.value.resellerToken == token.value && r.value.destination == destination.value && r.value.environment != "")
  ensures var environment := GetAttribute(attributes, "environment");
          r.Ok? ==> r.value.environment == (if Controls.IsTruthy(environment) then environment.value else Controls.DefaultEnvironment)
  {
    var environment := GetAttribute(attributes, "environment");
    var token := GetAttribute(attributes, "reseller-token");
    var destination := GetAttribute(attributes, "destination");
    if !Controls.IsTruthy(token) then Err("reseller-token")
    else if !Controls.IsTruthy(destination) then Err("destination")
    else Ok(Controls.TriggerArguments(
      if Controls.IsTruthy(environment) then environment.value else Controls.DefaultEnvironment,
      token.value, destination.value))
  }

  /** Where a call `triggerControls` was started for stands. */
  datatype CallPhase = SettingUp | Accepted | Ended

  datatype StartedCall = StartedCall(args: Controls.TriggerArguments, options: ButtonOptions)

  /**
   * The element's state: `currentCall` is the index of the accepted call it
   * holds, `disabled` and `parts` its trigger button, `dispatched` the events
   * it dispatched, `started`/`phases` the calls it started and where each
   * stands, `dropped` the calls it dropped, `connected` whether it is in the
   * document (and listens for `beforeunload`).
   */
  datatype ButtonState = ButtonState(
    attributes: seq<Attr>,
    currentCall: Option<nat>,
    disabled: bool,
    parts: seq<string>,
    dispatched: seq<ElementEvent>,
    started: seq<StartedCall>,
    phases: seq<CallPhase>,
    dropped: seq<nat>,
    connected: bool)

  function ButtonInit(attributes: seq<Attr>): ButtonState {
    ButtonState(attributes, None, false, ["trigger", EnabledPart], [], [], [], [], false)
  }

  datatype ButtonEvent =
    /** A user's click, which a disabled button does not receive. */
    | UserClick
    /** The `trigger()` method, which calls the click handler directly. */
    | Trigger
    | TriggerResolved(call: nat)
    | TriggerRejected(call: nat, reason: JsValue)
    | CallCompleted(call: nat)
    | Connect
    | Disconnect
    | BeforeUnload

  /** `part.replace(token, newToken)`, which changes nothing when `token` is absent. */
  function ReplacePart(parts: seq<string>, token: string, newToken: string): seq<string> {
    if token in parts then Controls.ReplaceTokens(parts, token, newToken) else parts
  }

  /** `setTriggerButtonEnabled(enabled)`. */
  function WithTriggerEnabled(s: ButtonState, enabled: bool): ButtonState {
    s.(disabled := !enabled,
       parts := if enabled then ReplacePart(s.parts, DisabledPart, EnabledPart)
                else ReplacePart(s.parts, EnabledPart, DisabledPart))
  }

  /** The click handler past its guard: validate, then start a call with the button disabled. */
  function StartCall(s: ButtonState): ButtonState {
    match ValidateAttributes(s.attributes)
    case Err(name) => s.(dispatched := s.dispatched + [AttributeValidationFailed(name, "missing")])
    case Ok(args) =>
      WithTriggerEnabled(s, false).(
        dispatched := s.dispatched + [NewCall],
        started := s.started + [StartedCall(args, OptionsFrom(s.attributes))],
        phases := s.phases + [SettingUp])
  }

  /** `onButtonClicked` as written: only an accepted call blocks a new one. */
  function ClickAsWritten(s: ButtonState): ButtonState {
    if s.currentCall.Some? then s else StartCall(s)
  }

  /** `onButtonClicked` that also refuses while the button is disabled, as a call is being set up. */
  function Click(s: ButtonState): ButtonState {
    if s.currentCall.Some? || s.disabled then s else StartCall(s)
  }

  /** Drop and forget the current call, as `disconnectedCallback` and the `beforeunload` listener do. */
  function WithoutCurrentCall(s: ButtonState): ButtonState {
    if s.currentCall.Some? then s.(dropped := s.dropped + [s.currentCall.value], currentCall := None) else s
  }

  /** Everything but the click itself: the outcome of a started call, and the element's life cycle. */
  function CallStep(s: ButtonState, e: ButtonEvent): ButtonState {
    match e
    case UserClick => s
    case Trigger => s
    case TriggerResolved(i) =>
      if i < |s.phases| && s.phases[i] == SettingUp then
        s.(currentCall := Some(i), phases := s.phases[i := Accepted])
      else s
    case TriggerRejected(i, reason) =>
      if i < |s.phases| && s.phases[i] == SettingUp then
        WithTriggerEnabled(s, true).(
          phases := s.phases[i := Ended],
          dispatched := s.dispatched + [CallEnded(CallEndedDetail(reason))])
      else s
    case CallCompleted(i) =>
      if i < |s.phases| && s.phases[i] == Accepted then
        WithTriggerEnabled(s, true).(
          currentCall := None,
          phases := s.phases[i := Ended],
          dispatched := s.dispatched + [CallEnded(Null)])
      else s
    case Connect => s.(connected := true)
    case Disconnect => WithoutCurrentCall(s.(connected := false))
    case BeforeUnload => if s.connected then WithoutCurrentCall(s) else s
  }

  function ButtonStepAsWritten(s: ButtonState, e: ButtonEvent): ButtonState {
    match e
    case UserClick => if s.disabled then s else ClickAsWritten(s)
    case Trigger => ClickAsWritten(s)
    case _ => CallStep(s, e)
  }

  function ButtonStep(s: ButtonState, e: ButtonEvent): ButtonState {
    match e
    case UserClick => if s.disabled then s else Click(s)
    case Trigger => Click(s)
    case _ => CallStep(s, e)
  }

  function ButtonRun(asWritten: bool, s: ButtonState, trace: seq<ButtonEvent>): ButtonState
    decreases |trace|
  {
    if trace == [] then s
    else ButtonRun(asWritten, if asWritten then ButtonStepAsWritten(s, trace[0]) else ButtonStep(s, trace[0]), trace[1..])
  }

  /** Number of calls not yet ended. */
  function LiveCalls(phases: seq<CallPhase>): nat {
    Count(phases, SettingUp) + Count(phases, Accepted)
  }

  function CallEndedEvents(events: seq<ElementEvent>): nat {
    if events == [] then 0 else (if events[0].CallEnded? then 1 else 0) + CallEndedEvents(events[1..])
  }

  /**
   * One call at a time: at most one call is live, the button is disabled
   * exactly while one is, the parts show the button's state, the current
   * call is an accepted one, and every started call is announced by one
   * `new_call` and ended by at most one `call_ended`.
   */
  predicate ButtonValid(s: ButtonState) {
    && |s.phases| == |s.started|
    && "trigger" in s.parts
    && Controls.ShowsState(s.parts, DisabledPart, EnabledPart, s.disabled)
    && LiveCalls(s.phases) <= 1
    && (s.disabled <==> LiveCalls(s.phases) == 1)
    && (s.currentCall.Some? ==> s.currentCall.value < |s.phases| && s.phases[s.currentCall.value] == Accepted)
    && Count(s.dispatched, NewCall) == |s.started|
    && CallEndedEvents(s.dispatched) == Count(s.phases, Ended)
  }

  lemma {:induction false} CallEndedEventsSnoc(events: seq<ElementEvent>, e: ElementEvent)
    ensures CallEndedEvents(events + [e]) == CallEndedEvents(events) + (if e.CallEnded? then 1 else 0)
  {
    if events == [] {
      assert events + [e] == [e];
      assert [e][1..] == [];
    } else {
      assert (events + [e])[1..] == events[1..] + [e];
      CallEndedEventsSnoc(events[1..], e);
    }
  }

  lemma ButtonPartsSwitch(s: ButtonState, enabled: bool)
    requires "trigger" in s.parts && Controls.ShowsState(s.parts, DisabledPart, EnabledPart, enabled)
    ensures var t := WithTriggerEnabled(s, enabled);
            "trigger" in t.parts && Controls.ShowsState(t.parts, DisabledPart, EnabledPart, !enabled)
            && t.disabled == !enabled
  {
    var from, to := if enabled then DisabledPart else EnabledPart, if enabled then EnabledPart else DisabledPart;
    assert from != to by { assert from[8] != to[8]; }
    assert "trigger" != from && "trigger" != to by { assert |"trigger"| != |from| && |"trigger"| != |to|; }
    Controls.ReplaceTokensSpec(s.parts, from, to);
  }

  lemma ButtonStepValid(s: ButtonState, e: ButtonEvent)
    requires ButtonValid(s)
    ensures ButtonValid(ButtonStep(s, e))
  {
    match e
    case UserClick => ClickValid(s);
    case Trigger => ClickValid(s);
    case TriggerResolved(i) =>
      if i < |s.phases| && s.phases[i] == SettingUp {
        CountUpdate(s.phases, i, Accepted, SettingUp);
        CountUpdate(s.phases, i, Accepted, Accepted);
        CountUpdate(s.phases, i, Accepted, Ended);
      }
    case TriggerRejected(i, reason) =>
      if i < |s.phases| && s.phases[i] == SettingUp {
        CountUpdate(s.phases, i, Ended, SettingUp);
        CountUpdate(s.phases, i, Ended, Accepted);
        CountUpdate(s.phases, i, Ended, Ended);
        ButtonPartsSwitch(s, true);
        CountSnoc(s.dispatched, CallEnded(CallEndedDetail(reason)), NewCall);
        CallEndedEventsSnoc(s.dispatched, CallEnded(CallEndedDetail(reason)));
      }
    case CallCompleted(i) =>
      if i < |s.phases| && s.phases[i] == Accepted {
        CountUpdate(s.phases, i, Ended, SettingUp);
        CountUpdate(s.phases, i, Ended, Accepted);
        CountUpdate(s.phases, i, Ended, Ended);
        ButtonPartsSwitch(s, true);
        CountSnoc(s.dispatched, CallEnded(Null), NewCall);
        CallEndedEventsSnoc(s.dispatched, CallEnded(Null));
      }
    case Connect =>
    case Disconnect =>
    case BeforeUnload =>
  }

  lemma ClickValid(s: ButtonState)
    requires ButtonValid(s)
    ensures ButtonValid(Click(s))
  {
    if s.currentCall.None? && !s.disabled {
      match ValidateAttributes(s.attributes)
      case Err(name) =>
        CountSnoc(s.dispatched, AttributeValidationFailed(name, "missing"), NewCall);
        CallEndedEventsSnoc(s.dispatched, AttributeValidationFailed(name, "missing"));
      case Ok(args) =>
        ButtonPartsSwitch(s, false);
        CountSnoc(s.dispatched, NewCall, NewCall);
        CallEndedEventsSnoc(s.dispatched, NewCall);
        CountSnoc(s.phases, SettingUp, SettingUp);
        CountSnoc(s.phases, SettingUp, Accepted);
        CountSnoc(s.phases, SettingUp, Ended);
    }
  }

  /**
   * With the disabled check, the element runs one call at a time whatever
   * happens: every reachable state satisfies `ButtonValid`.
   */
  lemma {:induction false} ButtonRunValid(s: ButtonState, trace: seq<ButtonEvent>)
    requires ButtonValid(s)
    ensures ButtonValid(ButtonRun(false, s, trace))
    decreases |trace|
  {
    if trace != [] {
      ButtonStepValid(s, trace[0]);
      ButtonRunValid(ButtonStep(s, trace[0]), trace[1..]);
    }
  }

  lemma ButtonInitValid(attributes: seq<Attr>)
    ensures ButtonValid(ButtonInit(attributes))
  {
    assert ButtonInit(attributes).parts[0] == "trigger";
  }

  /**
   * A click with a missing reseller token or destination reports that
   * attribute and changes nothing else: no `new_call`, no call, the button
   * stays enabled.
   */
  lemma ClickWithMissingAttribute(s: ButtonState)
    requires ButtonValid(s) && s.currentCall.None? && !s.disabled
    requires ValidateAttributes(s.attributes).Err?
    ensures var t := ButtonStep(s, UserClick);
            && t == s.(dispatched := s.dispatched + [AttributeValidationFailed(ValidateAttributes(s.attributes).error, "missing")])
            && !t.disabled && t.started == s.started
  {
  }

  /** While a call is held, neither a click nor `trigger()` does anything. */
  lemma ClickIgnoredDuringCall(s: ButtonState)
    requires s.currentCall.Some?
    ensures ButtonStep(s, UserClick) == s && ButtonStep(s, Trigger) == s
    ensures ButtonStepAsWritten(s, UserClick) == s && ButtonStepAsWritten(s, Trigger) == s
  {
  }

  /**
   * A valid click announces the call, disables the button before the call
   * is set up, and starts exactly one call with the attributes' arguments
   * and options.
   */
  lemma ClickStartsCall(s: ButtonState)
    requires ButtonValid(s) && s.currentCall.None? && !s.disabled && ValidateAttributes(s.attributes).Ok?
    ensures var t := ButtonStep(s, UserClick);
            && t.disabled && DisabledPart in t.parts && EnabledPart !in t.parts
            && t.dispatched == s.dispatched + [NewCall]
            && t.started == s.started + [StartedCall(ValidateAttributes(s.attributes).value, OptionsFrom(s.attributes))]
            && t.phases[|t.phases| - 1] == SettingUp
            && LiveCalls(t.phases) == 1
  {
    ClickValid(s);
  }

  /**
   * When the call being set up fails, the button is enabled again and
   * `call_ended` carries the reason, `null` for an undefined one; when an
   * accepted call completes, the element also forgets it and `call_ended`
   * carries `null`. Either way no call is left.
   */
  lemma CallEndReenablesButton(s: ButtonState, i: nat, reason: JsValue)
    requires ButtonValid(s) && i < |s.phases|
    ensures s.phases[i] == SettingUp ==>
              var t := ButtonStep(s, TriggerRejected(i, reason));
              && !t.disabled && EnabledPart in t.parts && DisabledPart !in t.parts
              && t.dispatched == s.dispatched + [CallEnded(CallEndedDetail(reason))]
              && LiveCalls(t.phases) == 0
    ensures s.phases[i] == Accepted ==>
              var t := ButtonStep(s, CallCompleted(i));
              && !t.disabled && EnabledPart in t.parts && DisabledPart !in t.parts && t.currentCall.None?
              && t.dispatched == s.dispatched + [CallEnded(Null)]
              && LiveCalls(t.phases) == 0
  {
    ButtonStepValid(s, TriggerRejected(i, reason));
    ButtonStepValid(s, CallCompleted(i));
  }

  /** Attributes that let a click start a call. */
  lemma CallAttributesAreValid()
    ensures ValidateAttributes([Attr("reseller-token", "token"), Attr("destination", "+4930123456")]).Ok?
  {
    var attributes := [Attr("reseller-token", "token"), Attr("destination", "+4930123456")];
    assert GetAttribute(attributes, "reseller-token") == Some("token");
    assert GetAttribute(attributes, "destination") == Some("+4930123456");
  }

  lemma RejectionEnables(s: ButtonState, i: nat, reason: JsValue)
    requires i < |s.phases| && s.phases[i] == SettingUp
    ensures var t := ButtonStepAsWritten(s, TriggerRejected(i, reason));
            !t.disabled && t.phases == s.phases[i := Ended]
  {
  }

  /**
   * As written, `trigger()` while a call is still being set up starts a
   * second one, and the first call's failure then re-enables the button
   * while the second is still being set up; with the disabled check the
   * second `trigger()` is ignored.
   */
  lemma TriggerDuringSetupStartsSecondCall(s: ButtonState)
    requires ButtonValid(s) && !s.disabled && s.currentCall.None? && ValidateAttributes(s.attributes).Ok?
    ensures var t := ButtonRun(true, s, [Trigger, Trigger]);
            && LiveCalls(t.phases) == 2
            && !ButtonValid(t)
            && var u := ButtonStepAsWritten(t, TriggerRejected(|s.phases|, Undefined));
               !u.disabled && LiveCalls(u.phases) == 1
    ensures LiveCalls(ButtonRun(false, s, [Trigger, Trigger]).phases) == 1
  {
    var trace := [Trigger, Trigger];
    var a1 := ButtonStepAsWritten(s, Trigger);
    assert a1.phases == s.phases + [SettingUp] && a1.currentCall.None?;
    var a2 := ButtonStepAsWritten(a1, Trigger);
    assert a2.phases == a1.phases + [SettingUp];
    CountSnoc(s.phases, SettingUp, SettingUp);
    CountSnoc(s.phases, SettingUp, Accepted);
    CountSnoc(a1.phases, SettingUp, SettingUp);
    CountSnoc(a1.phases, SettingUp, Accepted);
    calc {
      ButtonRun(true, s, trace);
      ButtonRun(true, a1, trace[1..]);
      { assert trace[1..] == [Trigger]; }
      ButtonRun(true, a1, [Trigger]);
      { assert [Trigger][1..] == []; }
      a2;
    }
    var i := |s.phases|;
    assert a2.phases[i] == SettingUp;
    RejectionEnables(a2, i, Undefined);
    CountUpdate(a2.phases, i, Ended, SettingUp);
    CountUpdate(a2.phases, i, Ended, Accepted);
    var c1 := ButtonStep(s, Trigger);
    assert c1 == a1 && c1.disabled;
    calc {
      ButtonRun(false, s, trace);
      ButtonRun(false, c1, trace[1..]);
      { assert trace[1..] == [Trigger]; }
      ButtonRun(false, c1, [Trigger]);
      { assert [Trigger][1..] == []; }
      ButtonStep(c1, Trigger);
      c1;
    }
  }

  /** The `cvg-webrtc-button` element. */
  class CvgWebRtcButton {
    var attributes: seq<Attr>
    var currentCall: Option<nat>
    var disabled: bool
    const part: Controls.TokenList
    var dispatched: seq<ElementEvent>
    var started: seq<StartedCall>
    var phases: seq<CallPhase>
    var dropped: seq<nat>
    var connected: bool

    function State(): ButtonState
      reads this, part
    {
      ButtonState(attributes, currentCall, disabled, part.tokens, dispatched, started, phases, dropped, connected)
    }

    constructor (attributes: seq<Attr>)
      ensures State() == ButtonInit(attributes) && fresh(part)
    {
      this.attributes := attributes;
      currentCall := None;
      disabled := false;
      part := new Controls.TokenList(["trigger", EnabledPart]);
      dispatched := [];
      started := [];
      phases := [];
      dropped := [];
      connected := false;
    }

    /** `getCustomSipHeadersFromAttributes()`. */
    method GetCustomSipHeadersFromAttributes() returns (headerList: HeaderList)
      ensures headerList == CustomHeaders(attributes)
    {
      headerList := [];
      var i := 0;
      while i < |attributes|
        invariant 0 <= i <= |attributes|
        invariant headerList == CustomHeaders(attributes[..i])
      {
        var attribute := attributes[i];
        assert attributes[..i + 1][..i] == attributes[..i];
        if IsCustomHeaderName(attribute.localName) {
          headerList := headerList + [(attribute.localName, attribute.value)];
        }
        i := i + 1;
      }
      assert attributes[..i] == attributes;
    }

    method SetTriggerButtonEnabled(enabled: bool)
      requires part.Valid()
      modifies this, part
      ensures part.Valid()
      ensures State() == WithTriggerEnabled(old(State()), enabled)
    {
      disabled := !enabled;
      if enabled {
        var _ := part.Replace(DisabledPart, EnabledPart);
      } else {
        var _ := part.Replace(EnabledPart, DisabledPart);
      }
    }

    /**
     * `onButtonClicked()`, reached by a click on the enabled button or by
     * `trigger()`, with the corrected guard of `Click`: it also refuses while
     * the button is disabled, so `trigger()` during set-up starts no second
     * call. The handler as written is `ClickAsWritten`.
     */
    method OnButtonClicked()
      requires part.Valid()
      modifies this, part
      ensures part.Valid()
      ensures State() == Click(old(State()))
    {
      if currentCall.Some? || disabled {
        return;
      }
      var validated := ValidateAttributes(attributes);
      if validated.Err? {
        dispatched := dispatched + [AttributeValidationFailed(validated.error, "missing")];
        return;
      }
      var sipHeaders := GetCustomSipHeadersFromAttributes();
      var options := ButtonOptions(
        ParseControlsSide(GetAttribute(attributes, "controls-side")),
        ParseDarkMode(GetAttribute(attributes, "dark-mode")),
        ParseKeypadMode(GetAttribute(attributes, "keypad")),
        sipHeaders,
        CodecFilterFor(GetAttribute(attributes, "force-codec")));
      dispatched := dispatched + [NewCall];
      SetTriggerButtonEnabled(false);
      started := started + [StartedCall(validated.value, options)];
      phases := phases + [SettingUp];
    }

    /** The call that `triggerControls` set up for call `i` was accepted. */
    method OnTriggerResolved(i: nat)
      modifies this
      ensures State() == ButtonStep(old(State()), TriggerResolved(i))
    {
      if i < |phases| && phases[i] == SettingUp {
        currentCall := Some(i);
        phases := phases[i := Accepted];
      }
    }

    method OnTriggerRejected(i: nat, reason: JsValue)
      requires part.Valid()
      modifies this, part
      ensures part.Valid()
      ensures State() == ButtonStep(old(State()), TriggerRejected(i, reason))
    {
      if i < |phases| && phases[i] == SettingUp {
        SetTriggerButtonEnabled(true);
        phases := phases[i := Ended];
        dispatched := dispatched + [CallEnded(CallEndedDetail(reason))];
      }
    }

    /** The `callCompletion` of accepted call `i` fulfilled. */
    method OnCallCompleted(i: nat)
      requires part.Valid()
      modifies this, part
      ensures part.Valid()
      ensures State() == ButtonStep(old(State()), CallCompleted(i))
    {
      if i < |phases| && phases[i] == Accepted {
        currentCall := None;
        SetTriggerButtonEnabled(true);
        phases := phases[i := Ended];
        dispatched := dispatched + [CallEnded(Null)];
      }
    }

    method ConnectedCallback()
      modifies this
      ensures State() == ButtonStep(old(State()), Connect)
    {
      connected := true;
    }

    method DropCurrentCall()
      modifies this
      ensures State() == WithoutCurrentCall(old(State()))
    {
      if currentCall.Some? {
        dropped := dropped + [currentCall.value];
        currentCall := None;
      }
    }

    method DisconnectedCallback()
      modifies this
      ensures State() == ButtonStep(old(State()), Disconnect)
    {
      connected := false;
      DropCurrentCall();
    }

    method OnBeforeUnload()
      modifies this
      ensures State() == ButtonStep(old(State()), BeforeUnload)
    {
      if connected {
        DropCurrentCall();
      }
    }
  }
}
