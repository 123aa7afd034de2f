# Click-to-call WebRTC client, modelled in Dafny

This project models the core of a browser click-to-call client. The client registers a SIP user agent with the service's proxy, places one call, and waits for four things:
- the RTC session;
- its confirmation;
- a connected media path;
- supervision of ICE candidate gathering.

It races all of this against deadlines that abort with tagged records. Around the call it offers:
- a DTMF keypad with a press state machine;
- a mute toggle;
- dark-mode classes;
- the `triggerControls` and `mountControlsTo` entry points;
- the `cvg-webrtc-button` custom element.

Two demo pages are modelled as well: a load test that counts greetings, and a Web Audio page that plays dropped files into calls.

Modules:

- `Common`: `Option`, `Result` and the occurrence count `Count`.
- `Client`: tones and `ToneMap`, the rejection reasons, promise settlement, header lists, and the ICE server list.
- `Registration`: `setupRegisteredUserAgent` and the registration deadline of `setupSipClient`.
- `CallSetup`:
  - `awaitRtcSession`, ICE supervision, confirmation and the media-connected wait;
  - audio-track collection;
  - the `setupCall` composite with its deadline and completion;
  - the call handle's `setMicrophoneMuted`.
- `Controls`:
  - DTMF frequencies and keypads, the token-list operations, dark mode and the mute button;
  - the press state machine;
  - `triggerControls` and `mountControlsTo`.
- `CustomElement`: attribute reading and the trigger button's call cycle.
- `LoadTest`: greeting counting and progress counters.
- `WebAudio`:
  - channel validation and the hexadecimal hash;
  - file gathering and call headers;
  - the completed/failed partition and the summary.

Events from the browser, JsSIP and timers are inputs to pure step functions over explicit states:
- A `Run` over a trace of events gives the state after them.
- A `Valid` invariant is proved preserved by every step.

Where the source keeps mutable state (flags, timer ids, `DOMTokenList`s, counters, arrays pushed to), a class holds that state. Each handler method is proved to leave the class in exactly the state the step function gives. A promise continuation runs atomically with the event that triggers it.

## Model

| member | source | states |
|---|---|---|
| Client.KeyOf | src/client.ts:104-185 | every tone value has the `ToneMap` entry whose `value` it is |
| Client.ToneMapIsBijective | src/client.ts:95-185 | `ToneMap` has 16 entries, one per `Tone`, with distinct values; kind is digit for 0-9, control for `*` `#`, letter for A-D |
| Client.Settle | src/client.ts:206-246 | a promise settles once: a pending one takes the outcome, a settled one keeps its outcome |
| Client.ExtraHeaders | src/client.ts:415 | one `"name: value"` field per header, same count and order |
| Client.CallHeaders | src/client.ts:564 | a missing header list becomes the empty list, a given one is passed unchanged |
| Client.HeaderFieldRoundTrip | src/client.ts:415 | a field `"name: value"` parses back to the header it was made from |
| Client.ExtraHeadersRoundTrip | src/client.ts:415 | field i is header i's `"name: value"` and parses back to header i |
| Client.BuildIceServers | src/client.ts:407-413 | a STUN entry iff there are STUN URIs, a TURN entry with username and password iff there are TURN URIs, STUN first, length = number of non-empty lists |
| Registration.RegStepValid | src/client.ts:197-246 | every user-agent event keeps the registration invariant (settled once, `ua.stop()` at most once and only before a rejection) |
| Registration.RegRunValid | src/client.ts:197-246 | the registration invariant holds after any sequence of events |
| Registration.SettlementOfValid | src/client.ts:206-244 | pending iff not `resolved`; fulfilled iff resolved without `ua.stop()`; rejected iff `ua.stop()` came first, rejecting with the event's reason; `ua.stop()` at most once |
| Registration.AllResolvesCount | src/client.ts:220-226 | a run of successful registrations never stops the user agent |
| Registration.RegRunExtends | src/client.ts:206-244 | effects are only appended, and `resolved` is never reset |
| Registration.RegistrationSettlesOnce | src/client.ts:206-244 | once settled the outcome never changes; `ua.stop()` happens at most once, exactly when rejected, and before the rejection |
| Registration.LateRejectionsIgnored | src/client.ts:208-244 | after `resolved`, disconnected/unregistered/abort events cause no effect at all |
| Registration.UserAgentRegistration.constructor | src/client.ts:204-207 | starts unresolved with no effects |
| Registration.UserAgentRegistration.RejectUserAgent | src/client.ts:208-213 | `rejectUserAgent` as the rejection step: stop, mark resolved, reject, only when unresolved |
| Registration.UserAgentRegistration.OnRegistered | src/client.ts:220-226 | the `registered` handler is the step for that event and keeps the invariant |
| Registration.UserAgentRegistration.OnDisconnected | src/client.ts:227-233 | the `disconnected` handler is the step for that event and keeps the invariant |
| Registration.UserAgentRegistration.OnUnregistered | src/client.ts:234-240 | the `unregistered` handler is the step for that event and keeps the invariant |
| Registration.UserAgentRegistration.OnAbort | src/client.ts:242-244 | the abort listener is the step for that event and keeps the invariant |
| Registration.SipClientInitValid | src/client.ts:544-554 | the registration deadline starts armed with nothing settled |
| Registration.SipClientStepValid | src/client.ts:544-556 | the client exists iff registration succeeded; the timer is cleared only after it fired or registration succeeded; a timeout rejects with `{user-agent-creation-timeout, sipAddress, timeout}` |
| Registration.SipClientRunValid | src/client.ts:544-556 | the deadline invariant holds after any trace |
| CallSetup.IceRunValid | src/client.ts:271-312 | the ICE supervision invariant holds after any trace of candidates, gathering-state changes and timer firings |
| CallSetup.IceReadyAtMostOnce | src/client.ts:274-310 | only the first candidate arms a timer: at most one timer is armed and `ready` is called at most once |
| CallSetup.IceCompletionIsFinal | src/client.ts:296-302 | once gathering completed and its listener is removed, no further event changes anything |
| CallSetup.IceGathering.constructor | src/client.ts:272-276 | no candidate captured, no timer |
| CallSetup.IceGathering.ClearReadyTimeout | src/client.ts:284-289 | clears any timer; clearing twice is the same as clearing once |
| CallSetup.IceGathering.ResetReadyTimeout | src/client.ts:291-294 | clears then arms a fresh timer of length `timeout` |
| CallSetup.IceGathering.OnIceCandidate | src/client.ts:305-310 | only the first candidate captures `ready` and arms the timer; later ones are only logged |
| CallSetup.IceGathering.OnGatheringStateChange | src/client.ts:296-302 | `complete` clears the timer and removes its own listener |
| CallSetup.IceGathering.OnReadyTimerFired | src/client.ts:291-294 | the timer calls `ready` once |
| CallSetup.ConfFirstEventWins | src/client.ts:314-338 | the first of `confirmed`/`failed` settles the confirmation; a failure while aborted rejects with the abort reason; the `resolved` flag is never set |
| CallSetup.MediaFirstEventWins | src/client.ts:340-396 | the first of connectionState connected, iceConnectionState connected or abort settles the media wait; connected while aborted rejects with the abort reason; later events change nothing |
| CallSetup.MediaConnectionWait.constructor | src/client.ts:341-344 | unsettled, listening, and the invariant holds |
| CallSetup.MediaConnectionWait.ResolvePromise | src/client.ts:345-354 | `resolvePromise` as the step: settles once, fulfilled or rejected with the abort reason |
| CallSetup.MediaConnectionWait.OnConnectionStateChanged | src/client.ts:356-362 | the connection-state handler is its step and keeps the invariant |
| CallSetup.MediaConnectionWait.OnIceConnectionStateChange | src/client.ts:373-379 | the ICE-connection-state handler is its step and keeps the invariant |
| CallSetup.MediaConnectionWait.OnAbort | src/client.ts:385-394 | the abort listener removes the listeners (but `track`'s wrong handler) and rejects once |
| CallSetup.AudioStreamContents | src/client.ts:434-441 | the stream holds exactly the receivers' audio tracks, without repeats, in receiver order |
| CallSetup.CollectAudioTracks | src/client.ts:434-441 | the receiver loop builds the audio-only stream of `AudioStream` |
| CallSetup.CallInitValid | src/client.ts:451-472 | the call starts with its deadline armed and nothing settled, satisfying the call invariant |
| CallSetup.HandleEventValid | src/client.ts:451-522 | each event keeps abort, waits and outcome consistent (setup fulfilled only after session, confirmation and media; failure carries a call failure reason) |
| CallSetup.CallStepValid | src/client.ts:451-522 | the call invariant survives every event |
| CallSetup.CallRunValid | src/client.ts:451-522 | the call invariant holds after any trace |
| CallSetup.CallStepSettles | src/client.ts:459-498 | one step never changes a settled setup or completion, nor undoes a termination |
| CallSetup.CallSettlesOnce | src/client.ts:459-498 | setup and `callCompletion` settle once; `terminateSessions()` runs at most once (once-listener) |
| CallSetup.CompletionOnFirstEnded | src/client.ts:479-498 | after a successful set-up the first `'ended'` fulfils `callCompletion` and later ones change nothing; no other event, and no `'ended'` before set-up succeeded, moves the completion |
| CallSetup.DeadlineAborts | src/client.ts:461-472 | the deadline aborts with `{call-creation-timeout, sipAddress, timeout}`, terminates the sessions once, and rejects a setup still waiting |
| CallSetup.MuteCalls | src/client.ts:505-515 | `mute()` only when unmuted and muting, `unmute()` only when muted and unmuting, nothing otherwise |
| CallSetup.SetMicrophoneMutedIdempotent | src/client.ts:505-515 | afterwards the mute state equals the request, and repeating the request calls nothing |
| CallSetup.CallSession.constructor | src/client.ts:500-504 | a call handle with the given mute state and no calls |
| CallSetup.CallSession.SetMicrophoneMuted | src/client.ts:505-515 | the mute state becomes the request, issuing exactly `MuteCalls` |
| CallSetup.CallSession.SendTone | src/client.ts:516-518 | sends one DTMF tone, mute state unchanged |
| CallSetup.CallSession.Drop | src/client.ts:519-521 | terminates the session, mute state unchanged |
| Controls.ToneFrequenciesDistinct | src/controls.ts:191-211 | the 16 tones map to 16 distinct frequency pairs |
| Controls.FullKeypadLayout | src/controls.ts:129-211 | the full keypad has 16 tones covering all keys, and the tone at row r, column c sounds (row[r], column[c]) |
| Controls.FullKeypadCoversAllTones | src/controls.ts:129-136 | the full keypad lists every `ToneMap` entry |
| Controls.StandardKeypadIsFullWithoutLetters | src/controls.ts:129-144 | any mode but `full` gives the same 12 tones, the full layout without the letter column |
| Controls.KeypadsByRows | src/controls.ts:129-144 | both keypads list their rows 1 2 3 (A) / 4 5 6 (B) / 7 8 9 (C) / * 0 # (D) in row-major order |
| Controls.DtmfControlTones | src/controls.ts:321-329 | no keypad option gives the full keypad, `standard` and `full` give their keypads, and `none` and only `none` gives no DTMF controls |
| Controls.Without | src/controls.ts:240-244 | removes exactly the given token and keeps a list free of duplicates |
| Controls.ReplaceTokensSpec | src/controls.ts:241 | `replace` of a present token yields the new token plus all others, without duplicates |
| Controls.ReplaceOrAddSpec | src/controls.ts:240-244 | after `replaceOrAdd` the new value is in, the old one out, other tokens untouched, no duplicates |
| Controls.ReplaceOrAddRoundTrip | src/controls.ts:240-244 | replacing a by b and then b by a restores the list |
| Controls.ReplaceSwapBack | src/controls.ts:241 | `replace(a, b)` then `replace(b, a)` restores the list |
| Controls.TokenList.constructor | src/controls.ts:240 | a token list without duplicates |
| Controls.TokenList.Replace | src/controls.ts:241 | `DOMTokenList.replace`: true iff the token was present, the list replaced in place then |
| Controls.TokenList.Add | src/controls.ts:242 | `DOMTokenList.add`: appends a token not yet present |
| Controls.ReplaceOrAdd | src/controls.ts:240-244 | the list becomes `ReplaceOrAddTokens` of the old list |
| Controls.SwitchTokensShowsState | src/controls.ts:246-260 | `muteButtonSetState` leaves the requested state's token present and the opposite one absent, other tokens unchanged |
| Controls.SwitchTokensTwice | src/controls.ts:246-260 | switching to the other state and back restores the list |
| Controls.StartsDark | src/controls.ts:276-290 | `yes` is dark, `no` is light; an explicit `auto` and a missing option both follow the system scheme, and they are the only ones that do |
| Controls.OnColorSchemeChange | src/controls.ts:291-298 | the auto-mode listener switches classes and parts to the preferred scheme |
| Controls.MuteClickTwiceRestores | src/controls.ts:350-360 | a click flips `dataset.muted` and keeps the button's classes and parts consistent; two clicks restore the button |
| Controls.MuteButton.constructor | src/controls.ts:345-349 | an unmuted button |
| Controls.MuteButton.SetState | src/controls.ts:246-260 | `muteButtonSetState` as the view step |
| Controls.MuteButton.Click | src/controls.ts:350-360 | flips the state and passes the new state to `setMicrophoneMuted` |
| Controls.DispatchAllEffect | src/controls.ts:152-166 | reporting an event to n pending presses records it n times, sends the tone n times for `complete` only, and sets playing for `start` |
| Controls.PressStepValid | src/controls.ts:152-172 | mousedown emits `start`; mouseup emits `complete` iff hovering else `cancel`; blur emits `cancel`; starts = terminals + pending; tones sent = completes; plays iff a press is pending |
| Controls.PressRunValid | src/controls.ts:152-172 | the press invariant holds after any pointer trace: one terminal event per start |
| Controls.ReleaseSendsOnlyWhenHovering | src/controls.ts:155-166 | releasing sends the tone only when hovering, blur never sends, and both stop the local tone |
| Controls.DtmfKey.constructor | src/controls.ts:145-151 | a key not hovered, with no press |
| Controls.DtmfKey.Report | src/controls.ts:321-327 | `onDtmf` as its step |
| Controls.DtmfKey.ReportToPending | src/controls.ts:155-166 | reports the event once per pending window listener |
| Controls.DtmfKey.OnMouseDown | src/controls.ts:152-166 | the mousedown handler is its step |
| Controls.DtmfKey.OnMouseUp | src/controls.ts:155-160 | the window mouseup handler is its step |
| Controls.DtmfKey.OnWindowBlur | src/controls.ts:161-163 | the window blur handlers are their step |
| Controls.DtmfKey.OnMouseOver | src/controls.ts:167-169 | sets hovering |
| Controls.DtmfKey.OnMouseLeave | src/controls.ts:170-172 | clears hovering |
| Controls.CallTimeouts | src/controls.ts:432-433 | the invite timeout defaults to 10000 and the ICE timeout to 250 |
| Controls.TriggerControlsOutcome | src/controls.ts:421-459 | settles once; resolves iff the call was established; a failed call disconnects then rejects; a completed call cleans up then disconnects; controls mounted iff established |
| Controls.ResolveTriggerElement | src/controls.ts:462-471 | an element is used as given; a selector resolves iff it matches, else the error is `Failed to fine element using selector ` followed by the selector |
| Controls.ReadTriggerAttributes | src/controls.ts:475-484 | missing reseller token rejected first, then missing destination, with their messages; the environment defaults to `https://cognitivevoice.io` |
| Controls.MountNeverResolves | src/controls.ts:473-494 | as written, the mounted promise is never fulfilled, whatever happens |
| Controls.MountValidClickCounterexample | src/controls.ts:473-494 | as written, a valid click followed by a successful call leaves the promise pending; with the result chained it is fulfilled |
| Controls.MountSettlesWithTrigger | src/controls.ts:473-494 | with the result chained, once a call is started the promise settles exactly when `triggerControls` settles |
| CustomElement.GetAttribute | src/custom-element.ts:96-103 | the value of the first attribute with that name, none iff no attribute has it |
| CustomElement.GetNumberAttribute | src/custom-element.ts:66-76 | the default when the attribute is absent, empty or NaN, else the parsed number; never NaN unless the default is |
| CustomElement.CustomHeadersSpec | src/custom-element.ts:78-89 | exactly the attributes whose lower-cased name starts with `x-`, as `[localName, value]`, in attribute order |
| CustomElement.EnumAttributesRoundTrip | src/custom-element.ts:113-153 | `dark-mode` and `keypad` accept exactly their three literals; `controls-side` reads its four names and defaults to right |
| CustomElement.CodecFilterFor | src/custom-element.ts:110-175 | a codec filter iff `force-codec` is set and non-empty |
| CustomElement.CodecFilterIgnoresCase | src/custom-element.ts:175 | the filter compares names ignoring case, symmetrically |
| CustomElement.CallEndedDetail | src/custom-element.ts:259-266 | an undefined error is reported as `null`, any other as given |
| CustomElement.ValidateAttributes | src/custom-element.ts:96-108 | a missing token is reported first, then a missing destination; the environment is the attribute when it is non-empty, else `https://cognitivevoice.io` |
| CustomElement.ButtonInitValid | src/custom-element.ts:57 | the button starts enabled with parts `trigger trigger-enabled` |
| CustomElement.ButtonStepValid | src/custom-element.ts:91-218 | with the disabled check, every event keeps one call at a time, the button disabled iff a call is live, the parts showing the state, and one `new_call` per call |
| CustomElement.ButtonRunValid | src/custom-element.ts:91-218 | that invariant holds after any trace |
| CustomElement.ClickWithMissingAttribute | src/custom-element.ts:97-108 | a validation failure dispatches `AttributeValidationFailed(name, 'missing')` and changes nothing else |
| CustomElement.ClickIgnoredDuringCall | src/custom-element.ts:92-94 | with a current call, clicking does nothing |
| CustomElement.ClickStartsCall | src/custom-element.ts:188-190 | a valid click dispatches `new_call`, disables the button before setup and starts one call with the attributes' options |
| CustomElement.CallEndReenablesButton | src/custom-element.ts:191-202 | failure re-enables and emits `call_ended(reason)`; completion clears `currentCall`, re-enables and emits `call_ended(null)` |
| CustomElement.TriggerDuringSetupStartsSecondCall | src/custom-element.ts:91-230 | as written, `trigger()` during setup starts a second call; with the disabled check it is ignored |
| CustomElement.CvgWebRtcButton.constructor | src/custom-element.ts:45-64 | the initial button state |
| CustomElement.CvgWebRtcButton.GetCustomSipHeadersFromAttributes | src/custom-element.ts:78-89 | the loop returns `CustomHeaders` of the attributes |
| CustomElement.CvgWebRtcButton.SetTriggerButtonEnabled | src/custom-element.ts:179-186 | sets `disabled` and replaces the enabled/disabled part |
| CustomElement.CvgWebRtcButton.OnButtonClicked | src/custom-element.ts:91-190 | the click step with the corrected guard (refuses while a call is current or the button is disabled; as written only the former, see `ClickAsWritten`): validation, options, `new_call`, disable, start |
| CustomElement.CvgWebRtcButton.OnTriggerResolved | src/custom-element.ts:191-193 | holds the accepted call |
| CustomElement.CvgWebRtcButton.OnTriggerRejected | src/custom-element.ts:199-202 | re-enables and emits `call_ended(reason)` |
| CustomElement.CvgWebRtcButton.OnCallCompleted | src/custom-element.ts:194-198 | clears the call, re-enables and emits `call_ended(null)` |
| CustomElement.CvgWebRtcButton.ConnectedCallback | src/custom-element.ts:205-208 | starts listening for `beforeunload` |
| CustomElement.CvgWebRtcButton.DropCurrentCall | src/custom-element.ts:34-39 | drops and forgets a current call |
| CustomElement.CvgWebRtcButton.DisconnectedCallback | src/custom-element.ts:210-218 | stops listening, drops and clears any current call |
| CustomElement.CvgWebRtcButton.OnBeforeUnload | src/custom-element.ts:34-39 | while connected, drops and clears any current call |
| LoadTest.CountSynthesis | src/loadtest-example.ts:52-57 | the loop counts the dialog entries of type `Synthesis` |
| LoadTest.SynthesisEntriesSpec | src/loadtest-example.ts:52-57 | the count is at most the entries, zero iff none is a synthesis, additive over concatenation |
| LoadTest.PerformCallStages | src/loadtest-example.ts:30-58 | a thrown error ends the call at that stage; otherwise all stages run |
| LoadTest.PerformCallOrder | src/loadtest-example.ts:45-51 | drop only after the pre-drop delay, post-drop delay only after completion, dialog data fetched last |
| LoadTest.Classify | src/loadtest-example.ts:89-102 | 0 greetings to `noGreeting`, 1 to `singleGreeting`, more to `multiGreeting`, a thrown error to `failedCalls` |
| LoadTest.TaskCount | src/loadtest-example.ts:84 | the loop submits the least natural number of tasks not below `numberOfCalls`, which equals it iff it is whole and non-negative |
| LoadTest.ProgressInitValid | src/loadtest-example.ts:71-84 | all tasks submitted and counters zero satisfy the invariant, for any `numberOfCalls` |
| LoadTest.ProgressStepValid | src/loadtest-example.ts:85-106 | for any `numberOfCalls`, starting or finishing a task keeps the buckets summing to `completed` and `remaining + completed + inProgress = numberOfCalls`; each report has `remaining > -1`, and `remaining >= 0` when the count is whole |
| LoadTest.ProgressRunValid | src/loadtest-example.ts:78-106 | for any `numberOfCalls` and any order of starts and finishes, the counters and every report stay consistent, and the last report shows the current counters |
| LoadTest.AllDoneCountsEveryCall | src/loadtest-example.ts:109-110 | once all tasks are done, the returned buckets sum to the number of tasks run; that equals `numberOfCalls` iff it is whole and non-negative, and otherwise the last report has a negative `remaining` |
| LoadTest.LoadTestRun.constructor | src/loadtest-example.ts:71-84 | counters start at zero with one task queued per loop iteration |
| LoadTest.LoadTestRun.ApplyUpdate | src/loadtest-example.ts:78-80 | reports the counters with `remaining = numberOfCalls - completed - inProgress` |
| LoadTest.LoadTestRun.StartTask | src/loadtest-example.ts:86-87 | increments `inProgress` and reports |
| LoadTest.LoadTestRun.FinishTask | src/loadtest-example.ts:88-105 | increments the call's bucket, moves it from in progress to completed, and reports |
| WebAudio.Decode | src/webaudio-example.ts:39-49 | rejects a negative channel first, then one not below the channel count, else keeps the file with the channel rounded down |
| WebAudio.PadStart | src/webaudio-example.ts:178 | pads to at least the length |
| WebAudio.ByteToHex | src/webaudio-example.ts:177-178 | a byte is two lowercase hex digits, zero-padded, high digit first |
| WebAudio.HashHexRoundTrip | src/webaudio-example.ts:176-179 | the hash is 2 characters per byte, all lowercase hex, and decodes back to the digest |
| WebAudio.GatherFiles | src/webaudio-example.ts:167-193 | the loop gathers one list per `audio/` file, in order |
| WebAudio.ReduceConcat | src/webaudio-example.ts:195 | fails iff there is nothing to reduce, else concatenates |
| WebAudio.FilesDroppedSpec | src/webaudio-example.ts:165-196 | rejects iff no file is audio; otherwise exactly the loaded audio files, hashed, on channel 0, in order |
| WebAudio.DecimalTextRoundTrip | src/webaudio-example.ts:90 | the channel's decimal text reads back as the channel |
| WebAudio.FileCallHeaders | src/webaudio-example.ts:87-91 | the custom headers, then `x-filename`, then `x-channel` carrying the channel |
| WebAudio.BatchInitValid | src/webaudio-example.ts:143-158 | every file starts pending, in neither list |
| WebAudio.BatchStepValid | src/webaudio-example.ts:147-157 | settling a call keeps every file in exactly one of pending, `completed`, `failed` |
| WebAudio.BatchPartition | src/webaudio-example.ts:147-162 | once nothing is pending each file is in exactly one list, and the lists together have one entry per file |
| WebAudio.CallBatch.constructor | src/webaudio-example.ts:143-148 | one pending call per file |
| WebAudio.CallBatch.Settle | src/webaudio-example.ts:149-156 | pushes the file to `completed` or `failed` once |
| WebAudio.SummaryOf | src/webaudio-example.ts:321-327 | no failure gives all-success; else no completion gives all-failed; else mixed with total = completed + failed |
| WebAudio.SummaryCountsEveryFile | src/webaudio-example.ts:321-327 | the summary of a settled batch counts every file |

## Left out

- `fetchWebRtcAuthDetails` (src/client.ts:36-52) is HTTP I/O. The authentication details are an input.
- JsSIP's `UA`, `RTCSession` and `RTCPeerConnection` are foreign code. Their callbacks are events in the traces, and no SIP or ICE is re-implemented.
- Real timers are left out. A timer firing is an event, and a timeout is a number that is only carried into the error records.
- The Web Audio graph, gains and oscillators (src/controls.ts:179-229, 303-319) are left out, and so is the DTMF volume. They are floating-point signal work on foreign objects. Only the frequency table is modelled.
- Positioning arithmetic (src/controls.ts:366-414) and the `controls-*-distance` attributes are floating-point layout. `getNumberAttribute` is modelled, but its results are not recorded in the started call's options.
- DOM and shadow-DOM construction, CSS and SVG are UI glue. So is query-string and localStorage syncing in the demo pages.
- The SDP codec filter, `createCall`, `concurrencyLimitedWorkQueue`, `getDialogId`, `fetchDialogData` and `delay` have no implementation in the source. The work queue's concurrency limit is therefore not modelled, and tasks start and finish in any order.
- src/controls.ts:429,441 call `setupSipClient(details, options)` and `telephony.createCall`, which src/client.ts:544 does not provide. `triggerControls` is modelled by its outcomes only.
- SHA-1 and `decodeAudioData` are foreign calls. The digest and the channel count are inputs.
- src/example.ts, src/web-call-example.ts and src/common-example.ts are not part of this model. They are stale or UI demo code.
- JavaScript's `Number` conversion of a string is a parameter of `GetNumberAttribute`.
- LoadTest.TaskCount: `numberOfCalls` is a real number. A NaN count, which submits no task, and an infinite one, which never stops submitting, are not modelled.
- CustomElement.LowerAscii: only ASCII letters are lower-cased, while `toLowerCase` covers all of Unicode. For the `x-` prefix this is exact.
- Controls.DtmfKey: one key's press state is modelled. The window-level listeners of different keys are not interleaved.
- WebAudio.Decode: `Promise.all` over all decodes rejects with whichever failure settles first. That timing is not modelled.
- `mountControlsTo` throws synchronously for an unknown selector. Controls.ResolveTriggerElement returns that as an error value.
- Controls.TriggerControlsOutcome: a throw from `generateCallControls` (src/controls.ts:443) reaches the inner `.catch` (src/controls.ts:450-453), which disconnects and rejects while the created call stays up. The outcome table has no such case, because control generation is DOM work that is not modelled.
- CustomElement.CvgWebRtcButton.OnButtonClicked: the class uses the corrected guard, which also refuses while the button is disabled. The handler as written, which `trigger()` can re-enter during set-up, is `ClickAsWritten` (see Findings).

## Findings

| source | as written | input that shows it | evidently intended | confidence | as-written member | corrected member |
|---|---|---|---|---|---|---|
| src/controls.ts:473-494 | the click listener returns the `triggerControls` promise to the event dispatcher, which drops it; the promise from `mountControlsTo` is rejected on validation errors but never fulfilled | a click with `data-resellerToken` and `data-destination` set, followed by a call that is set up | the returned promise settles with the call `triggerControls` sets up | high (not executed) | Controls.MountNeverResolves, Controls.MountValidClickCounterexample | Controls.MountSettlesWithTrigger |
| src/custom-element.ts:91-94, 192, 228-230 | `onButtonClicked` only refuses while `currentCall` is set, and `currentCall` is set only once the call is accepted; `trigger()` calls the handler directly, bypassing the disabled button | `trigger()` twice while the first call is being set up | one call at a time: a click during setup is ignored, as the disabled button does for user clicks | medium (not executed) | CustomElement.TriggerDuringSetupStartsSecondCall | CustomElement.ButtonRunValid, CustomElement.CvgWebRtcButton.OnButtonClicked |
