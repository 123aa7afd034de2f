/**
 * The call controls widget: the DTMF keypad and its tone frequencies, the
 * class/part token lists that carry the widget's visual state, the mute
 * toggle, the press-and-release behaviour of a keypad button, and the
 * option defaulting and outcome handling of `triggerControls` and
 * `mountControlsTo`.
 */
module Controls {
  import opened Common
  import opened Client
  import CallSetup

  // ---------------------------------------------------------------------------
  // Keypad tones and their dual-tone frequencies

  /** Row (low group) frequencies of the DTMF keypad, in Hz (ITU-T Q.23). */
  const VerticalFrequencies: seq<int> := [697, 770, 852, 941]
  /** Column (high group) frequencies of the DTMF keypad, in Hz (ITU-T Q.23). */
  const HorizontalFrequencies: seq<int> := [1209, 1336, 1477, 1633]

  /** The `toneToFrequency` table of `dtmfPlayer`: the (row, column) frequency pair of a tone. */
  function ToneToFrequency(t: Tone): (int, int) {
    if t == '1' then (VerticalFrequencies[0], HorizontalFrequencies[0])
    else if t == '2' then (VerticalFrequencies[0], HorizontalFrequencies[1])
    else if t == '3' then (VerticalFrequencies[0], HorizontalFrequencies[2])
    else if t == 'A' then (VerticalFrequencies[0], HorizontalFrequencies[3])
    else if t == '4' then (VerticalFrequencies[1], HorizontalFrequencies[0])
    else if t == '5' then (VerticalFrequencies[1], HorizontalFrequencies[1])
    else if t == '6' then (VerticalFrequencies[1], HorizontalFrequencies[2])
    else if t == 'B' then (VerticalFrequencies[1], HorizontalFrequencies[3])
    else if t == '7' then (VerticalFrequencies[2], HorizontalFrequencies[0])
    else if t == '8' then (VerticalFrequencies[2], HorizontalFrequencies[1])
    else if t == '9' then (VerticalFrequencies[2], HorizontalFrequencies[2])
    else if t == 'C' then (VerticalFrequencies[2], HorizontalFrequencies[3])
    else if t == '*' then (VerticalFrequencies[3], HorizontalFrequencies[0])
    else if t == '0' then (VerticalFrequencies[3], HorizontalFrequencies[1])
    else if t == '#' then (VerticalFrequencies[3], HorizontalFrequencies[2])
    else (VerticalFrequencies[3], HorizontalFrequencies[3])
  }

  /** Every tone is a distinct pair of one row and one column frequency. */
  lemma ToneFrequenciesDistinct()
    ensures forall t: Tone :: ToneToFrequency(t).0 in VerticalFrequencies && ToneToFrequency(t).1 in HorizontalFrequencies
    ensures forall t1: Tone, t2: Tone :: ToneToFrequency(t1) == ToneToFrequency(t2) ==> t1 == t2
  {
  }

  /** The `keypad` UI option; `NoKeypad` is the source's `'none'`. */
  datatype KeypadMode = NoKeypad | Standard | Full

  const DefaultKeypad: KeypadMode := Full

  /** The tones `generateDtmfControls` lays out, row by row. */
  function KeypadTones(keypad: KeypadMode): seq<DtmfTone> {
    if keypad == Full then
      [ ToneMap(ONE), ToneMap(TWO), ToneMap(THREE), ToneMap(A),
        ToneMap(FOUR), ToneMap(FIVE), ToneMap(SIX), ToneMap(B),
        ToneMap(SEVEN), ToneMap(EIGHT), ToneMap(NINE), ToneMap(C),
        ToneMap(STAR), ToneMap(ZERO), ToneMap(POUND), ToneMap(D) ]
    else
      [ ToneMap(ONE), ToneMap(TWO), ToneMap(THREE),
        ToneMap(FOUR), ToneMap(FIVE), ToneMap(SIX),
        ToneMap(SEVEN), ToneMap(EIGHT), ToneMap(NINE),
        ToneMap(STAR), ToneMap(ZERO), ToneMap(POUND) ]
  }

  /** The button in row `r`, column `c` of the full keypad. */
  function FullKeypadCell(r: nat, c: nat): DtmfTone
    requires r < 4 && c < 4
  {
    KeypadTones(Full)[4 * r + c]
  }

  /**
   * The full keypad holds all sixteen tones, and the button in row `r`,
   * column `c` plays the `r`-th row and `c`-th column frequency: the layout
   * of the keypad and the frequency grid of the player agree.
   */
  lemma FullKeypadLayout()
    ensures |KeypadTones(Full)| == 16
    ensures forall k: ToneKey :: ToneMap(k) in KeypadTones(Full)
    ensures forall r: nat, c: nat | r < 4 && c < 4 ::
      ToneToFrequency(FullKeypadCell(r, c).value) == (VerticalFrequencies[r], HorizontalFrequencies[c])
  {
    FullKeypadCoversAllTones();
    forall r: nat, c: nat | r < 4 && c < 4
      ensures ToneToFrequency(FullKeypadCell(r, c).value) == (VerticalFrequencies[r], HorizontalFrequencies[c])
    {
      FullKeypadRow(r, c);
    }
  }

  lemma FullKeypadCoversAllTones()
    ensures |KeypadTones(Full)| == 16
    ensures forall k: ToneKey :: ToneMap(k) in KeypadTones(Full)
  {
    var full := KeypadTones(Full);
    forall k: ToneKey ensures ToneMap(k) in full {
      var i := match k
        case ONE => 0 case TWO => 1 case THREE => 2 case A => 3
        case FOUR => 4 case FIVE => 5 case SIX => 6 case B => 7
        case SEVEN => 8 case EIGHT => 9 case NINE => 10 case C => 11
        case STAR => 12 case ZERO => 13 case POUND => 14 case D => 15;
      assert full[i] == ToneMap(k);
    }
  }

  /** The rows of the full keypad, top to bottom. */
  function FullKeypadRows(): seq<seq<DtmfTone>> {
    [ [ToneMap(ONE), ToneMap(TWO), ToneMap(THREE), ToneMap(A)],
      [ToneMap(FOUR), ToneMap(FIVE), ToneMap(SIX), ToneMap(B)],
      [ToneMap(SEVEN), ToneMap(EIGHT), ToneMap(NINE), ToneMap(C)],
      [ToneMap(STAR), ToneMap(ZERO), ToneMap(POUND), ToneMap(D)] ]
  }

  lemma FullKeypadRow(r: nat, c: nat)
    requires r < 4 && c < 4
    ensures ToneToFrequency(FullKeypadCell(r, c).value) == (VerticalFrequencies[r], HorizontalFrequencies[c])
  {
    var rows: seq<seq<DtmfTone>> := FullKeypadRows();
    KeypadsByRows();
    assert FullKeypadCell(r, c) == rows[r][c];
    RowFrequencies(r, c);
  }

  lemma RowFrequencies(r: nat, c: nat)
    requires r < 4 && c < 4
    ensures ToneToFrequency(FullKeypadRows()[r][c].value) == (VerticalFrequencies[r], HorizontalFrequencies[c])
  {
    var row := FullKeypadRows()[r];
    if r == 0 {
      assert row == [ToneMap(ONE), ToneMap(TWO), ToneMap(THREE), ToneMap(A)];
    } else if r == 1 {
      assert row == [ToneMap(FOUR), ToneMap(FIVE), ToneMap(SIX), ToneMap(B)];
    } else if r == 2 {
      assert row == [ToneMap(SEVEN), ToneMap(EIGHT), ToneMap(NINE), ToneMap(C)];
    } else {
      assert row == [ToneMap(STAR), ToneMap(ZERO), ToneMap(POUND), ToneMap(D)];
    }
  }

  /** The button in row `r`, column `c` of the twelve-button keypad. */
  function StandardKeypadCell(r: nat, c: nat): DtmfTone
    requires r < 4 && c < 3
  {
    KeypadTones(Standard)[3 * r + c]
  }

  /**
   * Any keypad mode other than `'full'` that reaches `generateDtmfControls`
   * gets the full keypad without its last column: the same tones in the
   * same rows and columns, and the dropped column holds exactly the letters
   * A to D.
   */
  lemma StandardKeypadIsFullWithoutLetters()
    ensures KeypadTones(NoKeypad) == KeypadTones(Standard)
    ensures |KeypadTones(Standard)| == 12
    ensures forall r: nat, c: nat | r < 4 && c < 3 :: StandardKeypadCell(r, c) == FullKeypadCell(r, c)
    ensures forall r: nat, c: nat | r < 4 && c < 4 :: FullKeypadCell(r, c).kind == Letter <==> c == 3
  {
    forall r: nat, c: nat | r < 4 && c < 4
      ensures c < 3 ==> StandardKeypadCell(r, c) == FullKeypadCell(r, c)
      ensures FullKeypadCell(r, c).kind == Letter <==> c == 3
    {
      StandardKeypadRow(r, c);
    }
  }

  lemma StandardKeypadRow(r: nat, c: nat)
    requires r < 4 && c < 4
    ensures c < 3 ==> StandardKeypadCell(r, c) == FullKeypadCell(r, c)
    ensures FullKeypadCell(r, c).kind == Letter <==> c == 3
  {
    var rows: seq<seq<DtmfTone>> := FullKeypadRows();
    KeypadsByRows();
    assert FullKeypadCell(r, c) == rows[r][c];
    if c < 3 {
      StandardKeypadCellInRow(r, c);
    }
    LetterColumn(r, c);
  }

  lemma StandardKeypadCellInRow(r: nat, c: nat)
    requires r < 4 && c < 3
    ensures StandardKeypadCell(r, c) == FullKeypadRows()[r][c]
  {
    var rows: seq<seq<DtmfTone>> := FullKeypadRows();
    KeypadsByRows();
    assert StandardKeypadCell(r, c) == rows[r][c];
  }

  lemma LetterColumn(r: nat, c: nat)
    requires r < 4 && c < 4
    ensures FullKeypadRows()[r][c].kind == Letter <==> c == 3
  {
  }

  /** Both keypads, read row by row. */
  lemma KeypadsByRows()
    ensures var rows := FullKeypadRows();
            && KeypadTones(Full) == rows[0] + rows[1] + rows[2] + rows[3]
            && KeypadTones(Standard) == rows[0][..3] + rows[1][..3] + rows[2][..3] + rows[3][..3]
  {
    var rows: seq<seq<DtmfTone>> := FullKeypadRows();
    assert KeypadTones(Full) == rows[0] + rows[1] + rows[2] + rows[3];
    assert KeypadTones(Standard) == rows[0][..3] + rows[1][..3] + rows[2][..3] + rows[3][..3];
  }

  /**
   * The tones of the DTMF controls `generateCallControls` builds for the
   * `keypad` option: none for `'none'`, otherwise the keypad's tones, with
   * `'full'` when the option is absent.
   */
  function DtmfControlTones(keypad: Option<KeypadMode>): (tones: seq<DtmfTone>)
    ensures keypad.None? ==> tones == KeypadTones(Full)
    ensures tones == [] <==> keypad == Some(NoKeypad)
    ensures keypad.Some? && keypad.value != NoKeypad ==> tones == KeypadTones(keypad.value)
  {
    var mode := keypad.GetOr(DefaultKeypad);
    if mode == NoKeypad then [] else KeypadTones(mode)
  }

  // ---------------------------------------------------------------------------
  // DOMTokenList: an ordered set of class names or part names

  predicate NoDuplicates<T(==)>(s: seq<T>) {
    forall i, j | 0 <= i < j < |s| :: s[i] != s[j]
  }

  lemma NoDuplicatesCons<T>(x: T, s: seq<T>)
    ensures NoDuplicates([x] + s) <==> x !in s && NoDuplicates(s)
  {
    var xs := [x] + s;
    if x !in s && NoDuplicates(s) {
      forall i, j | 0 <= i < j < |xs| ensures xs[i] != xs[j] {
        if i == 0 {
          assert xs[j] == s[j - 1];
        } else {
          assert xs[i] == s[i - 1] && xs[j] == s[j - 1];
        }
      }
    }
    if NoDuplicates(xs) {
      forall i, j | 0 <= i < j < |s| ensures s[i] != s[j] {
        assert s[i] == xs[i + 1] && s[j] == xs[j + 1];
      }
      forall j | 0 <= j < |s| ensures s[j] != x {
        assert s[j] == xs[j + 1] && xs[0] == x;
      }
    }
  }

  /** `s` with every occurrence of `x` removed. */
  function Without(s: seq<string>, x: string): (r: seq<string>)
    ensures forall y :: y in r <==> y in s && y != x
    ensures x !in s ==> r == s
    ensures NoDuplicates(s) ==> NoDuplicates(r)
  {
    if s == [] then []
    else
      assert s == [s[0]] + s[1..];
      NoDuplicatesCons(s[0], s[1..]);
      var rest := Without(s[1..], x);
      NoDuplicatesCons(s[0], rest);
      if s[0] == x then rest else [s[0]] + rest
  }

  /**
   * `list.replace(token, newToken)` when `token` is present: the first of
   * `token` or `newToken` becomes `newToken` and every other occurrence of
   * either is removed.
   */
  function ReplaceTokens(tokens: seq<string>, token: string, newToken: string): seq<string> {
    if tokens == [] then []
    else if tokens[0] == token || tokens[0] == newToken then
      [newToken] + Without(Without(tokens[1..], token), newToken)
    else [tokens[0]] + ReplaceTokens(tokens[1..], token, newToken)
  }

  /** `list.add(token)`: appended unless already present. */
  function AddToken(tokens: seq<string>, token: string): seq<string> {
    if token in tokens then tokens else tokens + [token]
  }

  /**
   * `add` keeps the list free of duplicates, keeps every token where it
   * was, and leaves the token present.
   */
  lemma AddTokenSpec(tokens: seq<string>, token: string)
    requires NoDuplicates(tokens)
    ensures var r := AddToken(tokens, token);
            && NoDuplicates(r)
            && tokens <= r
            && (forall t :: t in r <==> t in tokens || t == token)
            && |r| == |tokens| + (if token in tokens then 0 else 1)
  {
    if token !in tokens {
      var r := tokens + [token];
      forall i, j | 0 <= i < j < |r| ensures r[i] != r[j] {
        if j == |tokens| {
          assert r[i] == tokens[i];
        }
      }
    }
  }

  /** `replaceOrAdd(list, oldValue, newValue)`. */
  function ReplaceOrAddTokens(tokens: seq<string>, oldValue: string, newValue: string): seq<string> {
    if oldValue in tokens then ReplaceTokens(tokens, oldValue, newValue) else AddToken(tokens, newValue)
  }

  lemma {:induction false} ReplaceTokensSpec(tokens: seq<string>, token: string, newToken: string)
    requires NoDuplicates(tokens) && token in tokens
    ensures var r := ReplaceTokens(tokens, token, newToken);
            && NoDuplicates(r)
            && forall x :: x in r <==> x == newToken || (x in tokens && x != token)
  {
    assert tokens == [tokens[0]] + tokens[1..];
    NoDuplicatesCons(tokens[0], tokens[1..]);
    if tokens[0] == token || tokens[0] == newToken {
      var rest := Without(Without(tokens[1..], token), newToken);
      NoDuplicatesCons(newToken, rest);
    } else {
      var rest := ReplaceTokens(tokens[1..], token, newToken);
      ReplaceTokensSpec(tokens[1..], token, newToken);
      NoDuplicatesCons(tokens[0], rest);
    }
  }

  /**
   * After `replaceOrAdd(list, oldValue, newValue)` the list holds
   * `newValue`, no longer holds a different `oldValue`, holds every other
   * token it held before and nothing else, and is still free of duplicates.
   */
  lemma ReplaceOrAddSpec(tokens: seq<string>, oldValue: string, newValue: string)
    requires NoDuplicates(tokens)
    ensures var r := ReplaceOrAddTokens(tokens, oldValue, newValue);
            && NoDuplicates(r)
            && newValue in r
            && (oldValue != newValue ==> oldValue !in r)
            && forall x | x != oldValue && x != newValue :: x in r <==> x in tokens
  {
    if oldValue in tokens {
      ReplaceTokensSpec(tokens, oldValue, newValue);
    } else if newValue !in tokens {
      var r := tokens + [newValue];
      assert NoDuplicates(r) by {
        forall i, j | 0 <= i < j < |r| ensures r[i] != r[j] {
          if j == |tokens| {
            assert r[i] == tokens[i];
          }
        }
      }
    }
  }

  /**
   * Swapping a present token for an absent one and back restores the list
   * exactly, in its original order.
   */
  lemma {:induction false} ReplaceOrAddRoundTrip(tokens: seq<string>, a: string, b: string)
    requires NoDuplicates(tokens) && a in tokens && b !in tokens
    ensures ReplaceOrAddTokens(ReplaceOrAddTokens(tokens, a, b), b, a) == tokens
  {
    ReplaceSwapBack(tokens, a, b);
    ReplaceTokensSpec(tokens, a, b);
  }

  lemma {:induction false} ReplaceSwapBack(tokens: seq<string>, a: string, b: string)
    requires NoDuplicates(tokens) && a in tokens && b !in tokens
    ensures b in ReplaceTokens(tokens, a, b)
    ensures ReplaceTokens(ReplaceTokens(tokens, a, b), b, a) == tokens
  {
    assert tokens == [tokens[0]] + tokens[1..];
    assert NoDuplicates(tokens[1..]);
    if tokens[0] == a {
      assert a !in tokens[1..] by {
        forall j | 0 <= j < |tokens[1..]| ensures tokens[1..][j] != a {
          assert tokens[1..][j] == tokens[j + 1];
        }
      }
      assert ReplaceTokens(tokens, a, b) == [b] + tokens[1..];
    } else {
      assert tokens[0] != b;
      ReplaceSwapBack(tokens[1..], a, b);
    }
  }

  /** A DOM token list (`classList` or `part`) that its owner changes in place. */
  class TokenList {
    var tokens: seq<string>

    predicate Valid()
      reads this
    {
      NoDuplicates(tokens)
    }

    constructor (initial: seq<string>)
      requires NoDuplicates(initial)
      ensures tokens == initial && Valid()
    {
      tokens := initial;
    }

    /** `replace(token, newToken)`: false, and no change, when `token` is absent. */
    method Replace(token: string, newToken: string) returns (replaced: bool)
      requires Valid()
      modifies this
      ensures Valid()
      ensures replaced == (token in old(tokens))
      ensures tokens == if replaced then ReplaceTokens(old(tokens), token, newToken) else old(tokens)
    {
      replaced := token in tokens;
      if replaced {
        ReplaceTokensSpec(tokens, token, newToken);
        tokens := ReplaceTokens(tokens, token, newToken);
      }
    }

    method Add(token: string)
      requires Valid()
      modifies this
      ensures Valid()
      ensures tokens == AddToken(old(tokens), token)
    {
      AddTokenSpec(tokens, token);
      if token !in tokens {
        tokens := tokens + [token];
      }
    }
  }

  method ReplaceOrAdd(list: TokenList, oldValue: string, newValue: string)
    requires list.Valid()
    modifies list
    ensures list.Valid()
    ensures list.tokens == ReplaceOrAddTokens(old(list.tokens), oldValue, newValue)
  {
    var replaced := list.Replace(oldValue, newValue);
    if !replaced {
      list.Add(newValue);
    }
  }

  /**
   * Switch a two-state token pair: `on` replaces (or joins) `off` when
   * `flag` holds, and the other way round otherwise. The mute toggle and the
   * dark/light colour scheme both keep their state this way.
   */
  function SwitchTokens(tokens: seq<string>, on: string, off: string, flag: bool): seq<string> {
    if flag then ReplaceOrAddTokens(tokens, off, on) else ReplaceOrAddTokens(tokens, on, off)
  }

  /** The list shows exactly one state of the pair: `on` iff `flag`. */
  predicate ShowsState(tokens: seq<string>, on: string, off: string, flag: bool) {
    NoDuplicates(tokens) && (on in tokens <==> flag) && (off in tokens <==> !flag)
  }

  lemma SwitchTokensShowsState(tokens: seq<string>, on: string, off: string, flag: bool)
    requires NoDuplicates(tokens) && on != off
    ensures ShowsState(SwitchTokens(tokens, on, off, flag), on, off, flag)
    ensures forall x | x != on && x != off :: x in SwitchTokens(tokens, on, off, flag) <==> x in tokens
  {
    if flag {
      ReplaceOrAddSpec(tokens, off, on);
    } else {
      ReplaceOrAddSpec(tokens, on, off);
    }
  }

  /** Switching to the other state and back restores the list exactly. */
  lemma SwitchTokensTwice(tokens: seq<string>, on: string, off: string, flag: bool)
    requires ShowsState(tokens, on, off, flag) && on != off
    ensures SwitchTokens(SwitchTokens(tokens, on, off, !flag), on, off, flag) == tokens
  {
    if flag {
      ReplaceOrAddRoundTrip(tokens, on, off);
    } else {
      ReplaceOrAddRoundTrip(tokens, off, on);
    }
  }

  // ---------------------------------------------------------------------------
  // Colour scheme of the controls container

  /** The `dark` UI option. */
  datatype DarkMode = Yes | No | Auto

  const DefaultDarkMode: DarkMode := Auto

  const DarkModeClass := "dark-mode"
  const LightModeClass := "light-mode"

  /**
   * Whether `generateCallControls` starts the container in dark mode, given
   * the `dark` option and whether the system currently prefers a dark scheme;
   * only `'auto'` (the default) follows later changes of the preference.
   */
  function StartsDark(dark: Option<DarkMode>, prefersDark: bool): (isDark: bool)
    ensures dark == Some(Yes) ==> isDark
    ensures dark == Some(No) ==> !isDark
    ensures dark.None? ==> isDark == prefersDark
    ensures dark == Some(Auto) ==> isDark == prefersDark
    ensures FollowsSystemScheme(dark) <==> dark.None? || dark == Some(Auto)
  {
    match dark.GetOr(DefaultDarkMode)
    case Yes => true
    case No => false
    case Auto => prefersDark
  }

  function FollowsSystemScheme(dark: Option<DarkMode>): bool {
    dark.GetOr(DefaultDarkMode) == Auto
  }

  /**
   * The `change` listener of the `'auto'` mode: the container's classes and
   * parts switch to the scheme the system now prefers.
   */
  method OnColorSchemeChange(classList: TokenList, part: TokenList, matches: bool)
    requires classList.Valid() && part.Valid() && classList != part
    modifies classList, part
    ensures classList.Valid() && part.Valid()
    ensures classList.tokens == SwitchTokens(old(classList.tokens), DarkModeClass, LightModeClass, matches)
    ensures part.tokens == SwitchTokens(old(part.tokens), "call-controls-" + DarkModeClass, "call-controls-" + LightModeClass, matches)
  {
    if matches {
      ReplaceOrAdd(classList, LightModeClass, DarkModeClass);
      ReplaceOrAdd(part, "call-controls-" + LightModeClass, "call-controls-" + DarkModeClass);
    } else {
      ReplaceOrAdd(classList, DarkModeClass, LightModeClass);
      ReplaceOrAdd(part, "call-controls-" + DarkModeClass, "call-controls-" + LightModeClass);
    }
  }

  // ---------------------------------------------------------------------------
  // The mute toggle

  const MutedClass := "muted"
  const UnmutedClass := "unmuted"
  const MuteButtonPart := "call-action-mute-toggle"

  /** The icon a button shows (its `innerHTML`). */
  datatype ButtonImage = MutedImage | UnmutedImage

  /** JavaScript truthiness of an optional `dataset` entry. */
  predicate IsTruthy(value: Option<string>) {
    value.Some? && value.value != ""
  }

  /** Everything of the mute button that its click handler changes. */
  datatype MuteButtonView = MuteButtonView(
    mutedData: Option<string>,
    classes: seq<string>,
    parts: seq<string>,
    image: ButtonImage)

  /**
   * `muteButtonSetState(button, part, muted)` on the view: the requested
   * state's class and `part`-state part replace the opposite ones, and the
   * icon follows.
   */
  function SetStateView(v: MuteButtonView, part: string, muted: bool): MuteButtonView {
    v.(classes := SwitchTokens(v.classes, MutedClass, UnmutedClass, muted),
       parts := SwitchTokens(v.parts, part + "-" + MutedClass, part + "-" + UnmutedClass, muted),
       image := if muted then MutedImage else UnmutedImage)
  }

  /** The click handler of the mute button on the view. */
  function MuteClickView(v: MuteButtonView): MuteButtonView {
    var isCurrentlyMuted := IsTruthy(v.mutedData);
    var v' := v.(mutedData := if isCurrentlyMuted then None else Some("yes"));
    SetStateView(v', MuteButtonPart, !isCurrentlyMuted)
  }

  /** A mute button whose classes, parts and icon all show its `dataset.muted` state. */
  predicate MuteViewValid(v: MuteButtonView) {
    var muted := IsTruthy(v.mutedData);
    && (v.mutedData == None || v.mutedData == Some("yes"))
    && ShowsState(v.classes, MutedClass, UnmutedClass, muted)
    && ShowsState(v.parts, MuteButtonPart + "-" + MutedClass, MuteButtonPart + "-" + UnmutedClass, muted)
    && v.image == (if muted then MutedImage else UnmutedImage)
  }

  /**
   * A click flips the mute state and keeps the button consistent; a second
   * click restores the button exactly as it was.
   */
  lemma MuteClickTwiceRestores(v: MuteButtonView)
    requires MuteViewValid(v)
    ensures MuteViewValid(MuteClickView(v))
    ensures IsTruthy(MuteClickView(v).mutedData) == !IsTruthy(v.mutedData)
    ensures MuteClickView(MuteClickView(v)) == v
  {
    var muted := IsTruthy(v.mutedData);
    var mp, up := MuteButtonPart + "-" + MutedClass, MuteButtonPart + "-" + UnmutedClass;
    assert mp != up by { assert mp[|MuteButtonPart| + 1] != up[|MuteButtonPart| + 1]; }
    SwitchTokensShowsState(v.classes, MutedClass, UnmutedClass, !muted);
    SwitchTokensShowsState(v.parts, mp, up, !muted);
    SwitchTokensTwice(v.classes, MutedClass, UnmutedClass, muted);
    SwitchTokensTwice(v.parts, mp, up, muted);
  }

  /** The mute toggle of the call controls, wired to the call's session. */
  class MuteButton {
    var mutedData: Option<string>
    var image: ButtonImage
    const classList: TokenList
    const part: TokenList

    function View(): MuteButtonView
      reads this, classList, part
    {
      MuteButtonView(mutedData, classList.tokens, part.tokens, image)
    }

    predicate Valid()
      reads this, classList, part
    {
      classList != part && classList.Valid() && part.Valid()
    }

    /** `createButton()` with class `mute-toggle`, then `muteButtonSetState(…, false)`. */
    constructor ()
      ensures Valid() && MuteViewValid(View()) && !IsTruthy(mutedData)
      ensures fresh(classList) && fresh(part)
    {
      mutedData := None;
      image := UnmutedImage;
      classList := new TokenList(["mute-toggle"]);
      part := new TokenList([MuteButtonPart]);
      new;
      SetState(MuteButtonPart, false);
      assert MuteButtonPart + "-" + UnmutedClass == "call-action-mute-toggle-unmuted";
      assert MuteButtonPart + "-" + MutedClass == "call-action-mute-toggle-muted";
    }

    /** `muteButtonSetState(button, part, muted)`. */
    method SetState(partName: string, muted: bool)
      requires Valid()
      modifies this, classList, part
      ensures Valid()
      ensures View() == SetStateView(old(View()), partName, muted)
    {
      if muted {
        ReplaceOrAdd(classList, UnmutedClass, MutedClass);
        ReplaceOrAdd(part, partName + "-" + UnmutedClass, partName + "-" + MutedClass);
        image := MutedImage;
      } else {
        ReplaceOrAdd(classList, MutedClass, UnmutedClass);
        ReplaceOrAdd(part, partName + "-" + MutedClass, partName + "-" + UnmutedClass);
        image := UnmutedImage;
      }
    }

    /**
     * The click handler: flip `dataset.muted`, show the new state and pass it
     * to `setMicrophoneMuted`, so that the session's audio mute state then
     * agrees with the button.
     */
    method Click(session: CallSetup.CallSession)
      requires Valid()
      modifies this, classList, part, session
      ensures Valid()
      ensures View() == MuteClickView(old(View()))
      ensures session.audioMuted == IsTruthy(mutedData)
      ensures session.calls == old(session.calls) + CallSetup.MuteCalls(old(session.audioMuted), IsTruthy(mutedData))
    {
      var isCurrentlyMuted := IsTruthy(mutedData);
      if isCurrentlyMuted {
        mutedData := None;
      } else {
        mutedData := Some("yes");
      }
      SetState(MuteButtonPart, !isCurrentlyMuted);
      session.SetMicrophoneMuted(!isCurrentlyMuted);
    }
  }

  // ---------------------------------------------------------------------------
  // Pressing a keypad button

  /** What a keypad button reports to the controls. */
  datatype DtmfEvent = Start | Complete | Cancel

  /** The pointer and focus events a keypad button reacts to. */
  datatype PointerEvent =
    | MouseDown
    /** `mouseup` anywhere in the window. */
    | MouseUp
    /** The window loses focus. */
    | WindowBlur
    | MouseOver
    | MouseLeave

  /**
   * One keypad button together with what the controls did with its events:
   * `hovering` is the button's flag, `pending` the number of `mouseup`/`blur`
   * listener pairs a `mousedown` left on the window, `events` the reported
   * events, `sent` the tones passed to `sendTone`, and `playing` whether the
   * local DTMF player is sounding.
   */
  datatype PressState = PressState(
    hovering: bool,
    pending: nat,
    events: seq<DtmfEvent>,
    sent: seq<Tone>,
    playing: bool)

  const PressInit := PressState(false, 0, [], [], false)

  /**
   * The `onDtmf` callback of `generateCallControls`: send the tone on
   * `'complete'`, and play it locally on `'start'` and stop it otherwise.
   */
  function OnDtmf(s: PressState, tone: Tone, event: DtmfEvent): PressState {
    s.(events := s.events + [event],
       sent := if event == Complete then s.sent + [tone] else s.sent,
       playing := event == Start)
  }

  /** `n` pending listeners of the same window event each report `event`. */
  function DispatchAll(s: PressState, tone: Tone, event: DtmfEvent, n: nat): PressState
    decreases n
  {
    if n == 0 then s else OnDtmf(DispatchAll(s, tone, event, n - 1), tone, event)
  }

  /**
   * The button's listeners: `mousedown` sets `hovering`, reports a start and
   * leaves a `mouseup`/`blur` pair on the window, each of which removes the
   * other; `mouseup` reports a completion when the pointer is still over the
   * button and a cancellation otherwise; `blur` cancels (and the player's
   * own `blur` listener silences it).
   */
  function PressStep(s: PressState, tone: Tone, e: PointerEvent): PressState {
    match e
    case MouseDown => OnDtmf(s.(hovering := true), tone, Start).(pending := s.pending + 1)
    case MouseUp => DispatchAll(s, tone, if s.hovering then Complete else Cancel, s.pending).(pending := 0)
    case WindowBlur => DispatchAll(s, tone, Cancel, s.pending).(pending := 0, playing := false)
    case MouseOver => s.(hovering := true)
    case MouseLeave => s.(hovering := false)
  }

  function PressRun(s: PressState, tone: Tone, trace: seq<PointerEvent>): PressState
    decreases |trace|
  {
    if trace == [] then s else PressRun(PressStep(s, tone, trace[0]), tone, trace[1..])
  }

  /** Number of `'complete'` and `'cancel'` events. */
  function Terminals(events: seq<DtmfEvent>): nat {
    Count(events, Complete) + Count(events, Cancel)
  }

  /**
   * Every start is matched by exactly one completion or cancellation, except
   * for the presses still pending; the tone is sent once per completion and
   * never otherwise; the local tone sounds exactly while a press is pending.
   */
  predicate PressValid(s: PressState, tone: Tone) {
    && Count(s.events, Start) == Terminals(s.events) + s.pending
    && |s.sent| == Count(s.events, Complete)
    && (forall i | 0 <= i < |s.sent| :: s.sent[i] == tone)
    && (s.playing <==> s.pending > 0)
  }

  lemma {:induction false} DispatchAllEffect(s: PressState, tone: Tone, event: DtmfEvent, n: nat)
    ensures var t := DispatchAll(s, tone, event, n);
            && t.hovering == s.hovering && t.pending == s.pending
            && (forall x :: Count(t.events, x) == Count(s.events, x) + (if x == event then n else 0))
            && t.sent == (if event == Complete then s.sent + seq(n, _ => tone) else s.sent)
            && t.playing == (if n == 0 then s.playing else event == Start)
    decreases n
  {
    if n > 0 {
      var u := DispatchAll(s, tone, event, n - 1);
      DispatchAllEffect(s, tone, event, n - 1);
      forall x ensures Count(u.events + [event], x) == Count(u.events, x) + (if x == event then 1 else 0) {
        CountAppend(u.events, [event], x);
        assert [event][1..] == [];
      }
      if event == Complete {
        assert s.sent + seq(n - 1, _ => tone) + [tone] == s.sent + seq(n, _ => tone);
      }
    }
  }

  lemma PressStepValid(s: PressState, tone: Tone, e: PointerEvent)
    requires PressValid(s, tone)
    ensures PressValid(PressStep(s, tone, e), tone)
  {
    match e
    case MouseDown =>
      forall x ensures Count(s.events + [Start], x) == Count(s.events, x) + (if x == Start then 1 else 0) {
        CountAppend(s.events, [Start], x);
        assert [Start][1..] == [];
      }
    case MouseUp =>
      DispatchAllEffect(s, tone, if s.hovering then Complete else Cancel, s.pending);
    case WindowBlur =>
      DispatchAllEffect(s, tone, Cancel, s.pending);
    case MouseOver =>
    case MouseLeave =>
  }

  /**
   * Whatever the user does with a keypad button, each `'start'` is followed
   * by exactly one `'complete'` or `'cancel'` (bar the press in progress),
   * the tone is sent exactly once per `'complete'`, and the local tone plays
   * only between a start and its terminal event.
   */
  lemma {:induction false} PressRunValid(s: PressState, tone: Tone, trace: seq<PointerEvent>)
    requires PressValid(s, tone)
    ensures PressValid(PressRun(s, tone, trace), tone)
    decreases |trace|
  {
    if trace != [] {
      PressStepValid(s, tone, trace[0]);
      PressRunValid(PressStep(s, tone, trace[0]), tone, trace[1..]);
    }
  }

  /** A release over the button sends the tone; a release elsewhere or a blur does not. */
  lemma ReleaseSendsOnlyWhenHovering(s: PressState, tone: Tone)
    requires PressValid(s, tone) && s.pending == 1
    ensures PressStep(s, tone, MouseUp).sent == (if s.hovering then s.sent + [tone] else s.sent)
    ensures PressStep(s, tone, WindowBlur).sent == s.sent
    ensures !PressStep(s, tone, MouseUp).playing && !PressStep(s, tone, WindowBlur).playing
  {
    DispatchAllEffect(s, tone, if s.hovering then Complete else Cancel, 1);
    DispatchAllEffect(s, tone, Cancel, 1);
    assert seq(1, _ => tone) == [tone];
  }

  /** A keypad button of the call controls, with the controls' reaction to it. */
  class DtmfKey {
    const tone: DtmfTone
    var hovering: bool
    var pending: nat
    var events: seq<DtmfEvent>
    var sent: seq<Tone>
    var playing: bool

    function State(): PressState
      reads this
    {
      PressState(hovering, pending, events, sent, playing)
    }

    constructor (tone: DtmfTone)
      ensures this.tone == tone && State() == PressInit
    {
      this.tone := tone;
      hovering := false;
      pending := 0;
      events := [];
      sent := [];
      playing := false;
    }

    method Report(event: DtmfEvent)
      modifies this
      ensures State() == OnDtmf(old(State()), tone.value, event)
    {
      events := events + [event];
      if event == Complete {
        sent := sent + [tone.value];
      }
      playing := event == Start;
    }

    /** The window delivers one event to every pending listener, in turn. */
    method ReportToPending(event: DtmfEvent)
      modifies this
      ensures State() == DispatchAll(old(State()), tone.value, event, old(pending)).(pending := 0)
    {
      ghost var s0 := State();
      var n := pending;
      var k := 0;
      while k < n
        invariant 0 <= k <= n && pending == n
        invariant State() == DispatchAll(s0, tone.value, event, k)
      {
        Report(event);
        k := k + 1;
      }
      pending := 0;
    }

    method OnMouseDown()
      modifies this
      ensures State() == PressStep(old(State()), tone.value, MouseDown)
    {
      hovering := true;
      Report(Start);
      pending := pending + 1;
    }

    method OnMouseUp()
      modifies this
      ensures State() == PressStep(old(State()), tone.value, MouseUp)
    {
      ReportToPending(if hovering then Complete else Cancel);
    }

    method OnWindowBlur()
      modifies this
      ensures State() == PressStep(old(State()), tone.value, WindowBlur)
    {
      ReportToPending(Cancel);
      playing := false;
    }

    method OnMouseOver()
      modifies this
      ensures State() == PressStep(old(State()), tone.value, MouseOver)
    {
      hovering := true;
    }

    method OnMouseLeave()
      modifies this
      ensures State() == PressStep(old(State()), tone.value, MouseLeave)
    {
      hovering := false;
    }
  }

  // ---------------------------------------------------------------------------
  // triggerControls

  /** Milliseconds a call may take to set up when the caller gives no other value. */
  const DefaultTimeout: nat := 10000

  /** The `timeout` options of the call controls. */
  datatype TimeoutOptions = TimeoutOptions(register: Option<int>, invite: Option<int>, iceGatheringTimeout: Option<int>)

  /** The call set-up timeout and ICE gathering timeout `triggerControls` passes on. */
  function CallTimeouts(options: Option<TimeoutOptions>): (timeouts: (int, int))
    ensures options.None? ==> timeouts == (DefaultTimeout, DefaultIceGatheringTimeout)
    ensures options.Some? ==>
      && timeouts.0 == (if options.value.invite.Some? then options.value.invite.value else DefaultTimeout)
      && timeouts.1 == (if options.value.iceGatheringTimeout.Some? then options.value.iceGatheringTimeout.value else DefaultIceGatheringTimeout)
  {
    match options
    case None => (DefaultTimeout, DefaultIceGatheringTimeout)
    case Some(o) => (o.invite.GetOr(DefaultTimeout), o.iceGatheringTimeout.GetOr(DefaultIceGatheringTimeout))
  }

  /** How far `triggerControls` gets. */
  datatype TriggerRun =
    | AuthDetailsFailed(error: string)
    | SipClientFailed(error: string)
    | CallFailed(error: string)
    /** The call was set up; `completed` once its `callCompletion` fulfilled. */
    | CallEstablished(completed: bool)

  /** What `triggerControls` does, in order. */
  datatype TriggerEffect = Disconnect | Reject(error: string) | MountControls | Resolve | CleanupControls

  function TriggerEffects(run: TriggerRun): seq<TriggerEffect> {
    match run
    case AuthDetailsFailed(e) => [Reject(e)]
    case SipClientFailed(e) => [Reject(e)]
    case CallFailed(e) => [Disconnect, Reject(e)]
    case CallEstablished(completed) =>
      [MountControls, Resolve] + (if completed then [CleanupControls, Disconnect] else [])
  }

  function Settlements(effects: seq<TriggerEffect>): nat {
    if effects == [] then 0
    else (if effects[0].Resolve? || effects[0].Reject? then 1 else 0) + Settlements(effects[1..])
  }

  /**
   * `triggerControls` settles its promise exactly once, resolving iff the
   * call was set up and otherwise rejecting with the error of the failed
   * step; it disconnects the SIP client exactly when it has one and the call
   * failed (before rejecting) or completed (after removing the controls),
   * and never otherwise.
   */
  lemma TriggerControlsOutcome(run: TriggerRun)
    ensures var effects := TriggerEffects(run);
            && Settlements(effects) == 1
            && (Resolve in effects <==> run.CallEstablished?)
            && (!run.CallEstablished? ==> Reject(run.error) in effects)
            && (Count(effects, Disconnect) == (if run.CallFailed? || run == CallEstablished(true) then 1 else 0))
            && (run.CallFailed? ==> effects == [Disconnect, Reject(run.error)])
            && (run == CallEstablished(true) ==> effects[|effects| - 2..] == [CleanupControls, Disconnect])
            && (MountControls in effects <==> run.CallEstablished?)
  {
    match run
    case AuthDetailsFailed(e) =>
      assert TriggerEffects(run)[1..] == [];
    case SipClientFailed(e) =>
      assert TriggerEffects(run)[1..] == [];
    case CallFailed(e) =>
      var effects := TriggerEffects(run);
      assert effects[1..] == [Reject(e)] && effects[2..] == [];
      assert Settlements(effects[2..]) == 0 && Settlements(effects[1..]) == 1;
      assert Count(effects[1..], Disconnect) == 0;
    case CallEstablished(completed) =>
      var effects := TriggerEffects(run);
      if completed {
        assert effects == [MountControls, Resolve, CleanupControls, Disconnect];
        assert effects[1..] == [Resolve, CleanupControls, Disconnect];
        assert effects[2..] == [CleanupControls, Disconnect];
        assert effects[3..] == [Disconnect];
        assert effects[4..] == [];
        assert Settlements(effects[3..]) == 0 && Settlements(effects[2..]) == 0;
        assert Settlements(effects[1..]) == 1;
        assert Count(effects[3..], Disconnect) == 1 && Count(effects[2..], Disconnect) == 1;
        assert Count(effects[1..], Disconnect) == 1;
      } else {
        assert effects == [MountControls, Resolve];
        assert effects[1..] == [Resolve];
        assert effects[2..] == [];
        assert Count(effects[1..], Disconnect) == 0;
      }
  }

  // ---------------------------------------------------------------------------
  // mountControlsTo

  const DefaultEnvironment := "https://cognitivevoice.io"

  /** The element `mountControlsTo` attaches to: given directly or by a CSS selector. */
  datatype TriggerElement = Selector(selector: string) | Element(id: nat)

  /**
   * The element to listen on, where `found` is what `querySelector` returns
   * for a selector; an unmatched selector throws at once.
   */
  function ResolveTriggerElement(trigger: TriggerElement, found: Option<nat>): (r: Result<nat, string>)
    ensures trigger.Element? ==> r == Ok(trigger.id)
    ensures trigger.Selector? ==> (r.Ok? <==> found.Some?)
    ensures trigger.Selector? && found.Some? ==> r == Ok(found.value)
    ensures trigger.Selector? && found.None? ==> r == Err("Failed to fine element using selector " + trigger.selector)
  {
    match trigger
    case Element(id) => Ok(id)
    case Selector(sel) =>
      if found.None? then Err("Failed to fine element using selector " + sel) else Ok(found.value)
  }

  /** The arguments a click passes on to `triggerControls`. */
  datatype TriggerArguments = TriggerArguments(environment: string, resellerToken: string, destination: string)

  /**
   * The click handler's reading of the `data-environment`,
   * `data-resellerToken` and `data-destination` attributes: an absent or
   * empty token, then an absent or empty destination, rejects; an absent or
   * empty environment falls back to the default one.
   */
  function ReadTriggerAttributes(environment: Option<string>, resellerToken: Option<string>, destination: Option<string>): (r: Result<TriggerArguments, string>)
    ensures r.Ok? <==> IsTruthy(resellerToken) && IsTruthy(destination)
    ensures !IsTruthy(resellerToken) ==> r == Err("No reseller token configured!")
    ensures IsTruthy(resellerToken) && !IsTruthy(destination) ==> r == Err("No destination configured!")
    ensures r.Ok? ==>
      && r.value.resellerToken == resellerToken.value
      && r.value.destination == destination.value
      && r.value.environment == (if IsTruthy(environment) then environment.value else DefaultEnvironment)
      && r.value.environment != ""
  {
    var env := if IsTruthy(environment) then environment.value else DefaultEnvironment;
    if !IsTruthy(resellerToken) then Err("No reseller token configured!")
    else if !IsTruthy(destination) then Err("No destination configured!")
    else Ok(TriggerArguments(env, resellerToken.value, destination.value))
  }

  /** The outcome of a promise that resolves with a call or rejects with an error message. */
  datatype CallOutcome = Waiting | Resolved | Failed(error: string)

  datatype MountEvent =
    /** A click on the trigger element, with its three attributes. */
    | Click(environment: Option<string>, resellerToken: Option<string>, destination: Option<string>)
    /** The promise of the `triggerControls` call a click started settles. */
    | TriggerSettled(outcome: CallOutcome)

  /**
   * The promise of `mountControlsTo` (`outcome`), its `once` click listener,
   * the `triggerControls` calls it started and how those settled.
   */
  datatype MountState = MountState(listening: bool, outcome: CallOutcome, started: seq<TriggerArguments>, triggerOutcome: CallOutcome)

  const MountInit := MountState(true, Waiting, [], Waiting)

  function SettleOutcome(p: CallOutcome, o: CallOutcome): CallOutcome {
    if p.Waiting? then o else p
  }

  /**
   * The click listener as written: the promise returned by `triggerControls`
   * is returned from the listener and dropped, so only a validation failure
   * ever settles the promise of `mountControlsTo`.
   */
  function MountStepAsWritten(s: MountState, e: MountEvent): MountState {
    match e
    case Click(env, token, dest) =>
      if !s.listening then s
      else (match ReadTriggerAttributes(env, token, dest)
            case Err(msg) => s.(listening := false, outcome := SettleOutcome(s.outcome, Failed(msg)))
            case Ok(args) => s.(listening := false, started := s.started + [args]))
    case TriggerSettled(o) =>
      if |s.started| == 1 && s.triggerOutcome.Waiting? && !o.Waiting? then s.(triggerOutcome := o) else s
  }

  /** The click listener with the call's promise chained to `mountControlsTo`'s own. */
  function MountStep(s: MountState, e: MountEvent): MountState {
    var t := MountStepAsWritten(s, e);
    if e.TriggerSettled? && t.triggerOutcome != s.triggerOutcome then t.(outcome := SettleOutcome(t.outcome, t.triggerOutcome))
    else t
  }

  function MountRun(step: bool, s: MountState, trace: seq<MountEvent>): MountState
    decreases |trace|
  {
    if trace == [] then s
    else MountRun(step, if step then MountStep(s, trace[0]) else MountStepAsWritten(s, trace[0]), trace[1..])
  }

  /** A click that passes validation, and the call that it starts being set up. */
  const ValidClick := Click(Some(""), Some("token"), Some("+4930123456"))

  /**
   * As written, `mountControlsTo` never resolves: no sequence of events
   * whatsoever makes its promise resolve.
   */
  lemma {:induction false} MountNeverResolves(s: MountState, trace: seq<MountEvent>)
    requires !s.outcome.Resolved?
    ensures !MountRun(false, s, trace).outcome.Resolved?
    decreases |trace|
  {
    if trace != [] {
      MountNeverResolves(MountStepAsWritten(s, trace[0]), trace[1..]);
    }
  }

  /**
   * The input that shows it: a valid click whose call is then set up leaves
   * the promise of `mountControlsTo` pending as written, and resolves it
   * once the call's promise is chained.
   */
  lemma MountValidClickCounterexample()
    ensures MountRun(false, MountInit, [ValidClick, TriggerSettled(Resolved)]).outcome == Waiting
    ensures MountRun(true, MountInit, [ValidClick, TriggerSettled(Resolved)]).outcome == Resolved
  {
    var trace := [ValidClick, TriggerSettled(Resolved)];
    assert ReadTriggerAttributes(Some(""), Some("token"), Some("+4930123456")).Ok?;
    assert trace[1..] == [TriggerSettled(Resolved)];
    assert trace[1..][1..] == [];
    var a1 := MountStepAsWritten(MountInit, ValidClick);
    assert |a1.started| == 1 && a1.outcome == Waiting;
    assert MountRun(false, MountInit, trace) == MountRun(false, a1, trace[1..]);
    assert MountRun(false, a1, trace[1..]) == MountStepAsWritten(a1, TriggerSettled(Resolved));
    var c1 := MountStep(MountInit, ValidClick);
    assert c1 == a1;
    assert MountRun(true, MountInit, trace) == MountRun(true, c1, trace[1..]);
    assert MountRun(true, c1, trace[1..]) == MountStep(c1, TriggerSettled(Resolved));
  }

  /** The click listener is `once`: at most one `triggerControls` call, and only after a valid click. */
  predicate MountValid(s: MountState) {
    && |s.started| <= 1
    && (s.listening ==> s.started == [] && s.outcome.Waiting?)
    && (s.started == [] ==> s.triggerOutcome.Waiting?)
    && (!s.outcome.Waiting? && s.started != [] ==> s.outcome == s.triggerOutcome)
    && (s.started != [] && !s.triggerOutcome.Waiting? ==> s.outcome == s.triggerOutcome)
  }

  /**
   * With the call's promise chained, `mountControlsTo` settles exactly as
   * the `triggerControls` call its click started, and a second click is
   * ignored.
   */
  lemma {:induction false} MountSettlesWithTrigger(s: MountState, trace: seq<MountEvent>)
    requires MountValid(s)
    ensures MountValid(MountRun(true, s, trace))
    ensures var t := MountRun(true, s, trace); t.started != [] ==> (t.outcome.Waiting? <==> t.triggerOutcome.Waiting?)
    decreases |trace|
  {
    if trace != [] {
      var e := trace[0];
      var t := MountStep(s, e);
      assert MountValid(t);
      MountSettlesWithTrigger(t, trace[1..]);
    }
  }
}
