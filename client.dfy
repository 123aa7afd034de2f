/**
 * The value-level parts of the WebRTC client: the DTMF tone table, the
 * rejection reasons a call set-up can produce, the SIP extra-header
 * formatting and the ICE-server list handed to the peer connection.
 */
module Client {
  import opened Common

  /** The `Tone` union: the sixteen DTMF symbols. */
  type Tone = c: char | IsToneSymbol(c) witness '0'

  predicate IsToneSymbol(c: char) {
    ('0' <= c <= '9') || c == '*' || c == '#' || c == 'A' || c == 'B' || c == 'C' || c == 'D'
  }

  datatype ToneKind = Digit | Control | Letter

  datatype DtmfTone = DtmfTone(value: Tone, kind: ToneKind, name: string)

  /** The keys of the `ToneMap` object, in declaration order. */
  datatype ToneKey =
    | ZERO | ONE | TWO | THREE | FOUR | FIVE | SIX | SEVEN | EIGHT | NINE
    | STAR | POUND | A | B | C | D

  const ToneKeys: seq<ToneKey> :=
    [ZERO, ONE, TWO, THREE, FOUR, FIVE, SIX, SEVEN, EIGHT, NINE, STAR, POUND, A, B, C, D]

  /** The `ToneMap` constant: one entry per key. */
  function ToneMap(key: ToneKey): DtmfTone {
    match key
    case ZERO => DtmfTone('0', Digit, "zero")
    case ONE => DtmfTone('1', Digit, "one")
    case TWO => DtmfTone('2', Digit, "two")
    case THREE => DtmfTone('3', Digit, "three")
    case FOUR => DtmfTone('4', Digit, "four")
    case FIVE => DtmfTone('5', Digit, "five")
    case SIX => DtmfTone('6', Digit, "six")
    case SEVEN => DtmfTone('7', Digit, "seven")
    case EIGHT => DtmfTone('8', Digit, "eight")
    case NINE => DtmfTone('9', Digit, "nine")
    case STAR => DtmfTone('*', Control, "star")
    case POUND => DtmfTone('#', Control, "pound")
    case A => DtmfTone('A', Letter, "letter-a")
    case B => DtmfTone('B', Letter, "letter-b")
    case C => DtmfTone('C', Letter, "letter-c")
    case D => DtmfTone('D', Letter, "letter-d")
  }

  /** The kind a DTMF symbol belongs to: digits, the two control keys, letters. */
  function KindOf(t: Tone): ToneKind {
    if '0' <= t <= '9' then Digit
    else if t == '*' || t == '#' then Control
    else Letter
  }

  /** The entry of `ToneMap` whose value is `t` (reverse lookup). */
  function KeyOf(t: Tone): (k: ToneKey)
    ensures ToneMap(k).value == t
  {
    if t == '0' then ZERO else if t == '1' then ONE else if t == '2' then TWO
    else if t == '3' then THREE else if t == '4' then FOUR else if t == '5' then FIVE
    else if t == '6' then SIX else if t == '7' then SEVEN else if t == '8' then EIGHT
    else if t == '9' then NINE else if t == '*' then STAR else if t == '#' then POUND
    else if t == 'A' then A else if t == 'B' then B else if t == 'C' then C else D
  }

  /**
   * `ToneMap` has sixteen distinct keys, its values are pairwise distinct and
   * cover the whole `Tone` union, and each entry's kind is the kind of its
   * symbol.
   */
  lemma ToneMapIsBijective()
    ensures |ToneKeys| == 16
    ensures forall i, j :: 0 <= i < j < |ToneKeys| ==> ToneKeys[i] != ToneKeys[j]
    ensures forall k: ToneKey :: k in ToneKeys
    ensures forall k: ToneKey :: KeyOf(ToneMap(k).value) == k
    ensures forall k1: ToneKey, k2: ToneKey :: ToneMap(k1).value == ToneMap(k2).value ==> k1 == k2
    ensures forall k: ToneKey :: ToneMap(k).kind == KindOf(ToneMap(k).value)
  {
    forall k: ToneKey
      ensures k in ToneKeys
    {
      match k
      case ZERO => assert ToneKeys[0] == k;
      case ONE => assert ToneKeys[1] == k;
      case TWO => assert ToneKeys[2] == k;
      case THREE => assert ToneKeys[3] == k;
      case FOUR => assert ToneKeys[4] == k;
      case FIVE => assert ToneKeys[5] == k;
      case SIX => assert ToneKeys[6] == k;
      case SEVEN => assert ToneKeys[7] == k;
      case EIGHT => assert ToneKeys[8] == k;
      case NINE => assert ToneKeys[9] == k;
      case STAR => assert ToneKeys[10] == k;
      case POUND => assert ToneKeys[11] == k;
      case A => assert ToneKeys[12] == k;
      case B => assert ToneKeys[13] == k;
      case C => assert ToneKeys[14] == k;
      case D => assert ToneKeys[15] == k;
    }
    forall k1: ToneKey, k2: ToneKey | ToneMap(k1).value == ToneMap(k2).value
      ensures k1 == k2
    {
      assert KeyOf(ToneMap(k1).value) == k1;
      assert KeyOf(ToneMap(k2).value) == k2;
    }
  }

  /** Why a promise of the set-up chain is rejected. */
  datatype Reason =
    /** The `UserAgentCreationTimedOut` record of the registration deadline. */
    | UserAgentCreationTimedOut(sipAddress: string, timeout: int)
    /** The `CallCreationTimedOut` record of the call deadline. */
    | CallCreationTimedOut(sipAddress: string, timeout: int)
    /** The event object of a user agent `disconnected` / `unregistered` event. */
    | UaEvent(payload: string)
    /** The `EndEvent` of a session `failed` event. */
    | SessionEnd(cause: string)

  /** The state of a JavaScript promise: it settles at most once. */
  datatype PromiseState = Pending | Fulfilled | Rejected(reason: Reason)

  /** Calling `resolve`/`reject`: only the first call settles the promise. */
  function Settle(p: PromiseState, outcome: PromiseState): (r: PromiseState)
    requires !outcome.Pending?
    ensures !r.Pending?
    ensures p.Pending? ==> r == outcome
    ensures !p.Pending? ==> r == p
  {
    if p.Pending? then outcome else p
  }

  /** Milliseconds to wait for further ICE candidates when the caller gives no other value. */
  const DefaultIceGatheringTimeout: nat := 250

  datatype WebRtcAuthenticationDetails = WebRtcAuthenticationDetails(
    username: string,
    password: string,
    sipAddress: string,
    websocketUris: seq<string>,
    stunUris: seq<string>,
    turnUris: seq<string>)

  /** A SIP header as a (name, value) pair: the `HeaderList` element type. */
  type HeaderList = seq<(string, string)>

  /** A header field `name: value` as built by the template string. */
  function HeaderField(name: string, value: string): string {
    name + ": " + value
  }

  /** `extraSipHeaders.map(([name, value]) => `${name}: ${value}`)`. */
  function ExtraHeaders(headers: HeaderList): (fields: seq<string>)
    ensures |fields| == |headers|
  {
    if headers == [] then []
    else [HeaderField(headers[0].0, headers[0].1)] + ExtraHeaders(headers[1..])
  }

  /** `call(..., extraHeaders)` passes `extraHeaders ?? []` on to the set-up. */
  function CallHeaders(extraHeaders: Option<HeaderList>): (h: HeaderList)
    ensures extraHeaders.None? ==> h == []
    ensures extraHeaders.Some? ==> h == extraHeaders.value
  {
    extraHeaders.GetOr([])
  }

  // ---------------------------------------------------------------------------
  // Reading a header field back, following the grammar of section 7.3 of
  // RFC 3261: header = field-name HCOLON field-value, where HCOLON is
  // optional whitespace, a colon and optional whitespace, and the field name
  // is a token (so it contains no colon and no whitespace).

  predicate IsWhitespace(c: char) { c == ' ' || c == '\t' }

  /** The characters of a `token` (section 25.1 of RFC 3261). */
  predicate IsTokenChar(c: char) {
    ('a' <= c <= 'z') || ('A' <= c <= 'Z') || ('0' <= c <= '9')
    || c in "-.!%*_+`'~"
  }

  predicate IsToken(s: string) {
    |s| > 0 && forall i :: 0 <= i < |s| ==> IsTokenChar(s[i])
  }

  /** Index of the first colon in `s`, if any. */
  function FirstColon(s: string): (r: Option<nat>)
    ensures r.Some? ==> r.value < |s| && s[r.value] == ':' && ':' !in s[..r.value]
    ensures r.None? ==> ':' !in s
  {
    if s == [] then None
    else if s[0] == ':' then Some(0)
    else
      match FirstColon(s[1..])
      case None => None
      case Some(i) => Some(i + 1)
  }

  function TrimStart(s: string): (r: string)
    ensures |r| <= |s|
  {
    if s != [] && IsWhitespace(s[0]) then TrimStart(s[1..]) else s
  }

  function TrimEnd(s: string): (r: string)
    ensures |r| <= |s|
  {
    if s != [] && IsWhitespace(s[|s| - 1]) then TrimEnd(s[..|s| - 1]) else s
  }

  /** Splits a header field at its HCOLON into name and value. */
  function ParseHeaderField(field: string): Option<(string, string)> {
    match FirstColon(field)
    case None => None
    case Some(i) => Some((TrimEnd(field[..i]), TrimStart(field[i + 1..])))
  }

  lemma {:induction false} FirstColonAfter(name: string, rest: string)
    requires ':' !in name
    ensures FirstColon(name + ":" + rest) == Some(|name|)
  {
    if name == [] {
      assert (name + ":" + rest)[0] == ':';
    } else {
      assert (name + ":" + rest)[1..] == name[1..] + ":" + rest;
      FirstColonAfter(name[1..], rest);
    }
  }

  /**
   * A header whose name is a token and whose value does not start with
   * whitespace is read back from its formatted field unchanged.
   */
  lemma HeaderFieldRoundTrip(name: string, value: string)
    requires IsToken(name)
    requires value == [] || !IsWhitespace(value[0])
    ensures ParseHeaderField(HeaderField(name, value)) == Some((name, value))
  {
    var field := HeaderField(name, value);
    forall i | 0 <= i < |name|
      ensures name[i] != ':'
    {
      assert IsTokenChar(name[i]);
    }
    assert field == name + ":" + (" " + value);
    FirstColonAfter(name, " " + value);
    assert field[..|name|] == name;
    assert field[|name| + 1..] == " " + value;
    assert IsTokenChar(name[|name| - 1]);
    assert TrimEnd(name) == name;
    assert (" " + value)[1..] == value;
    assert TrimStart(value) == value;
    assert TrimStart(" " + value) == value;
  }

  /**
   * Formatting keeps order and count: the i-th field is the i-th header, and
   * every header with a token name and a value not starting with whitespace
   * is recovered from its field.
   */
  lemma {:induction false} ExtraHeadersRoundTrip(headers: HeaderList, i: nat)
    requires i < |headers|
    ensures ExtraHeaders(headers)[i] == HeaderField(headers[i].0, headers[i].1)
    ensures IsToken(headers[i].0) && (headers[i].1 == [] || !IsWhitespace(headers[i].1[0]))
      ==> ParseHeaderField(ExtraHeaders(headers)[i]) == Some(headers[i])
  {
    if i > 0 {
      ExtraHeadersRoundTrip(headers[1..], i - 1);
    }
    if IsToken(headers[i].0) && (headers[i].1 == [] || !IsWhitespace(headers[i].1[0])) {
      HeaderFieldRoundTrip(headers[i].0, headers[i].1);
    }
  }

  // ---------------------------------------------------------------------------
  // ICE servers

  datatype IceServer = IceServer(urls: seq<string>, credentials: Option<(string, string)>)

  /**
   * The `iceServers` list of `setupSessionAndMedia`: a STUN entry when there
   * are STUN URIs, then a TURN entry carrying username and password when there
   * are TURN URIs.
   */
  method BuildIceServers(details: WebRtcAuthenticationDetails) returns (iceServers: seq<IceServer>)
    ensures |iceServers| == (if |details.stunUris| > 0 then 1 else 0) + (if |details.turnUris| > 0 then 1 else 0)
    ensures (|details.stunUris| > 0) <==>
      (exists i :: 0 <= i < |iceServers| && iceServers[i] == IceServer(details.stunUris, None))
    ensures (|details.turnUris| > 0) <==>
      (exists i :: 0 <= i < |iceServers| &&
        iceServers[i] == IceServer(details.turnUris, Some((details.username, details.password))))
    ensures forall i :: 0 <= i < |iceServers| && iceServers[i].credentials.None? ==> i == 0
  {
    var stun := IceServer(details.stunUris, None);
    var turn := IceServer(details.turnUris, Some((details.username, details.password)));
    iceServers := [];
    if |details.stunUris| > 0 {
      iceServers := iceServers + [stun];
    }
    if |details.turnUris| > 0 {
      iceServers := iceServers + [turn];
    }
    assert |details.stunUris| > 0 ==> iceServers[0] == stun;
    assert |details.turnUris| > 0 ==> iceServers[|iceServers| - 1] == turn;
  }
}
