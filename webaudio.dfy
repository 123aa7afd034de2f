/**
 * The Web Audio page: dropped audio files are hashed and gathered, each is
 * played into a call on one of its channels, and the page reports how many
 * calls completed and how many failed.
 */
module WebAudio {
  import opened Common
  import opened Client

  newtype byte = x: int | 0 <= x < 256

  // ---------------------------------------------------------------------------
  // Dropped files

  /** A gathered file; `channel` is the number the page's channel selector last set. */
  datatype DroppedAudioFile = DroppedAudioFile(name: string, mimeType: string, hash: string, channel: real)

  datatype DecodedAudioFile = DecodedAudioFile(name: string, mimeType: string, hash: string, channel: int)

  datatype DecodeError = NegativeChannel | ChannelUnavailable

  /**
   * `decode`, given the decoded buffer's number of channels: a negative
   * channel is refused first, then one past the buffer's channels; the
   * selected channel is rounded down.
   */
  function Decode(file: DroppedAudioFile, numberOfChannels: nat): (r: Result<DecodedAudioFile, DecodeError>)
    ensures file.channel < 0.0 ==> r == Err(NegativeChannel)
    ensures 0.0 <= file.channel && file.channel >= numberOfChannels as real ==> r == Err(ChannelUnavailable)
    ensures r.Ok? <==> 0.0 <= file.channel < numberOfChannels as real
    ensures r.Ok? ==> && r.value.name == file.name && r.value.mimeType == file.mimeType && r.value.hash == file.hash
                      && r.value.channel as real <= file.channel < r.value.channel as real + 1.0
                      && 0 <= r.value.channel < numberOfChannels
  {
    if file.channel < 0.0 then Err(NegativeChannel)
    else if file.channel >= numberOfChannels as real then Err(ChannelUnavailable)
    else Ok(DecodedAudioFile(file.name, file.mimeType, file.hash, file.channel.Floor))
  }

  // ---------------------------------------------------------------------------
  // The hash in hexadecimal

  const HexDigits := "0123456789abcdef"

  function HexDigit(d: int): char
    requires 0 <= d < 16
  {
    HexDigits[d]
  }

  /** `b.toString(16)`: the digits in base 16, without leading zeros. */
  function ToStringRadix16(b: byte): string {
    if b < 16 then [HexDigit(b as int)] else [HexDigit(b as int / 16), HexDigit(b as int % 16)]
  }

  /** `s.padStart(length, '0')`. */
  function PadStart(s: string, length: nat): (r: string)
    ensures |r| == if |s| < length then length else |s|
    decreases length - |s|
  {
    if |s| < length then PadStart("0" + s, length) else s
  }

  /** One byte of the hash: two lowercase hexadecimal digits, the high one first. */
  function ByteToHex(b: byte): (r: string)
    ensures r == [HexDigit(b as int / 16), HexDigit(b as int % 16)]
  {
    assert b < 16 ==> PadStart(ToStringRadix16(b), 2) == PadStart("0" + ToStringRadix16(b), 2);
    PadStart(ToStringRadix16(b), 2)
  }

  /** The hash as the page names it: the digest's bytes in hexadecimal, concatenated. */
  function HashHex(bytes: seq<byte>): string {
    if bytes == [] then "" else ByteToHex(bytes[0]) + HashHex(bytes[1..])
  }

  function HexValue(c: char): Option<int> {
    if '0' <= c <= '9' then Some(c as int - '0' as int)
    else if 'a' <= c <= 'f' then Some(c as int - 'a' as int + 10)
    else None
  }

  /** Reads a hash back: pairs of lowercase hexadecimal digits. */
  function ParseHashHex(s: string): Option<seq<byte>>
    decreases |s|
  {
    if s == [] then Some([])
    else if |s| == 1 then None
    else match (HexValue(s[0]), HexValue(s[1]), ParseHashHex(s[2..]))
      case (Some(high), Some(low), Some(rest)) => Some([(high * 16 + low) as byte] + rest)
      case _ => None
  }

  lemma HexDigitValue(d: int)
    requires 0 <= d < 16
    ensures HexValue(HexDigit(d)) == Some(d)
    ensures '0' <= HexDigit(d) <= '9' || 'a' <= HexDigit(d) <= 'f'
  {
  }

  /**
   * The hash has two characters per byte, only digits and lowercase
   * letters `a` to `f`, and reads back as the digest it encodes.
   */
  lemma {:induction false} HashHexRoundTrip(bytes: seq<byte>)
    ensures |HashHex(bytes)| == 2 * |bytes|
    ensures forall i | 0 <= i < |HashHex(bytes)| :: HexValue(HashHex(bytes)[i]).Some?
    ensures ParseHashHex(HashHex(bytes)) == Some(bytes)
  {
    if bytes != [] {
      var b := bytes[0];
      HashHexRoundTrip(bytes[1..]);
      HexDigitValue(b as int / 16);
      HexDigitValue(b as int % 16);
      var s := HashHex(bytes);
      assert s == ByteToHex(b) + HashHex(bytes[1..]);
      assert s[2..] == HashHex(bytes[1..]);
      assert forall i | 2 <= i < |s| :: s[i] == HashHex(bytes[1..])[i - 2];
      assert bytes == [b] + bytes[1..];
    }
  }

  // ---------------------------------------------------------------------------
  // Gathering dropped files

  /** What reading a dropped file and digesting it yields. */
  datatype Load = Loaded(digest: seq<byte>) | LoadFailed

  /** A dropped file: its name, MIME type and what loading it yields. */
  datatype DroppedFile = DroppedFile(name: string, mimeType: string, load: Load)

  predicate IsAudio(mimeType: string) {
    |mimeType| >= 6 && mimeType[..6] == "audio/"
  }

  /** What one audio file contributes: itself, hashed, or nothing when it failed to load. */
  function Gathered(file: DroppedFile): seq<DroppedAudioFile> {
    match file.load
    case Loaded(digest) => [DroppedAudioFile(file.name, file.mimeType, HashHex(digest), 0.0)]
    case LoadFailed => []
  }

  /** One list per audio file, in drop order; other files are skipped. */
  function GatheringLists(files: seq<DroppedFile>): seq<seq<DroppedAudioFile>> {
    if files == [] then []
    else
      var last := files[|files| - 1];
      GatheringLists(files[..|files| - 1]) + (if IsAudio(last.mimeType) then [Gathered(last)] else [])
  }

  /** The loop of `filesDropped` that collects one promise per audio file. */
  method GatherFiles(files: seq<DroppedFile>) returns (gatheringFiles: seq<seq<DroppedAudioFile>>)
    ensures gatheringFiles == GatheringLists(files)
  {
    gatheringFiles := [];
    for i := 0 to |files|
      invariant gatheringFiles == GatheringLists(files[..i])
    {
      assert files[..i + 1][..i] == files[..i];
      var file := files[i];
      if IsAudio(file.mimeType) {
        gatheringFiles := gatheringFiles + [Gathered(file)];
      }
    }
    assert files[..|files|] == files;
  }

  function Concat(lists: seq<seq<DroppedAudioFile>>): seq<DroppedAudioFile> {
    if lists == [] then [] else lists[0] + Concat(lists[1..])
  }

  /** `reduce` without an initial value fails on an empty array. */
  datatype ReduceError = EmptyArrayWithNoInitialValue

  /** `arrays.reduce((a, b) => a.concat(b))`. */
  function ReduceConcat(lists: seq<seq<DroppedAudioFile>>): (r: Result<seq<DroppedAudioFile>, ReduceError>)
    ensures r.Err? <==> lists == []
    ensures r.Ok? ==> r.value == Concat(lists)
  {
    if lists == [] then Err(EmptyArrayWithNoInitialValue) else Ok(Concat(lists))
  }

  /** `filesDropped`, once every gathered file has loaded or failed to. */
  function FilesDropped(files: seq<DroppedFile>): Result<seq<DroppedAudioFile>, ReduceError> {
    ReduceConcat(GatheringLists(files))
  }

  /** The audio files that loaded, in drop order. */
  function LoadedAudioFiles(files: seq<DroppedFile>): (loaded: seq<DroppedFile>)
    ensures forall k | 0 <= k < |loaded| :: loaded[k] in files && IsAudio(loaded[k].mimeType) && loaded[k].load.Loaded?
    ensures |loaded| <= |files|
  {
    if files == [] then []
    else
      var last := files[|files| - 1];
      var init := LoadedAudioFiles(files[..|files| - 1]);
      assert forall k | 0 <= k < |init| :: init[k] in files by {
        forall k | 0 <= k < |init| ensures init[k] in files {
          assert init[k] in files[..|files| - 1];
        }
      }
      init + (if IsAudio(last.mimeType) && last.load.Loaded? then [last] else [])
  }

  function HashedFile(file: DroppedFile): DroppedAudioFile
    requires file.load.Loaded?
  {
    DroppedAudioFile(file.name, file.mimeType, HashHex(file.load.digest), 0.0)
  }

  lemma {:induction false} ConcatSnoc(lists: seq<seq<DroppedAudioFile>>, last: seq<DroppedAudioFile>)
    ensures Concat(lists + [last]) == Concat(lists) + last
  {
    if lists == [] {
      assert [last][1..] == [];
    } else {
      assert (lists + [last])[1..] == lists[1..] + [last];
      ConcatSnoc(lists[1..], last);
    }
  }

  /**
   * `filesDropped` fails exactly when no dropped file is an audio file;
   * otherwise it yields one hashed file, on channel 0, per audio file that
   * loaded, in drop order: files of other types and files that failed to
   * load contribute nothing.
   */
  lemma {:induction false} FilesDroppedSpec(files: seq<DroppedFile>)
    ensures FilesDropped(files).Err? <==> forall i | 0 <= i < |files| :: !IsAudio(files[i].mimeType)
    ensures FilesDropped(files).Ok? ==>
      FilesDropped(files).value == seq(|LoadedAudioFiles(files)|, k requires 0 <= k < |LoadedAudioFiles(files)| => HashedFile(LoadedAudioFiles(files)[k]))
    ensures forall f | f in LoadedAudioFiles(files) :: f in files && IsAudio(f.mimeType) && f.load.Loaded?
  {
    GatheringMatchesLoaded(files);
    if files != [] {
      var init := files[..|files| - 1];
      FilesDroppedSpec(init);
      assert forall i | 0 <= i < |init| :: init[i] == files[i];
      if forall i | 0 <= i < |files| :: !IsAudio(files[i].mimeType) {
        assert forall i | 0 <= i < |init| :: !IsAudio(init[i].mimeType);
      }
    }
  }

  lemma {:induction false} GatheringMatchesLoaded(files: seq<DroppedFile>)
    ensures Concat(GatheringLists(files)) ==
      seq(|LoadedAudioFiles(files)|, k requires 0 <= k < |LoadedAudioFiles(files)| => HashedFile(LoadedAudioFiles(files)[k]))
  {
    if files != [] {
      var init := files[..|files| - 1];
      var last := files[|files| - 1];
      GatheringMatchesLoaded(init);
      var before := LoadedAudioFiles(init);
      var after := LoadedAudioFiles(files);
      if IsAudio(last.mimeType) {
        ConcatSnoc(GatheringLists(init), Gathered(last));
        if last.load.Loaded? {
          assert after == before + [last];
          assert Gathered(last) == [HashedFile(last)];
          assert seq(|after|, k requires 0 <= k < |after| => HashedFile(after[k]))
              == seq(|before|, k requires 0 <= k < |before| => HashedFile(before[k])) + [HashedFile(last)];
        } else {
          assert after == before;
          assert Gathered(last) == [];
          assert Concat(GatheringLists(init)) + [] == Concat(GatheringLists(init));
        }
      } else {
        assert GatheringLists(files) == GatheringLists(init) + [];
        assert GatheringLists(init) + [] == GatheringLists(init);
        assert after == before;
      }
    }
  }

  // ---------------------------------------------------------------------------
  // Calls

  /** `${n}` for a whole number. */
  function DecimalText(n: int): string
    decreases if n < 0 then 1 - n else n
  {
    if n < 0 then "-" + DecimalText(-n)
    else if n < 10 then [HexDigit(n)]
    else DecimalText(n / 10) + [HexDigit(n % 10)]
  }

  /** Reads a natural number written in decimal. */
  function DecimalValue(s: string): Option<nat>
    decreases |s|
  {
    if s == [] then None
    else
      var last := s[|s| - 1];
      if !('0' <= last <= '9') then None
      else if |s| == 1 then Some(last as int - '0' as int)
      else match DecimalValue(s[..|s| - 1])
        case Some(v) => Some(10 * v + (last as int - '0' as int))
        case None => None
  }

  /** The channel header carries the channel in decimal, which reads back as that channel. */
  lemma {:induction false} DecimalTextRoundTrip(n: nat)
    ensures DecimalValue(DecimalText(n)) == Some(n)
    decreases n
  {
    if n >= 10 {
      DecimalTextRoundTrip(n / 10);
      var s := DecimalText(n);
      assert s[..|s| - 1] == DecimalText(n / 10);
    }
  }

  /**
   * The headers of one file's call: the page's custom headers, then the
   * file name, then the channel.
   */
  function FileCallHeaders(extraCustomSipHeaders: HeaderList, file: DecodedAudioFile): (headers: HeaderList)
    ensures |headers| == |extraCustomSipHeaders| + 2
    ensures headers[..|extraCustomSipHeaders|] == extraCustomSipHeaders
    ensures headers[|extraCustomSipHeaders|] == ("x-filename", file.name)
    ensures headers[|extraCustomSipHeaders| + 1].0 == "x-channel"
    ensures file.channel >= 0 ==> DecimalValue(headers[|extraCustomSipHeaders| + 1].1) == Some(file.channel)
  {
    assert file.channel >= 0 ==> DecimalValue(DecimalText(file.channel)) == Some(file.channel) by {
      if file.channel >= 0 {
        DecimalTextRoundTrip(file.channel);
      }
    }
    extraCustomSipHeaders + [("x-filename", file.name), ("x-channel", DecimalText(file.channel))]
  }

  /** What a file's call ended with. */
  datatype CallOutcome = Completed | Failed(reason: string)

  /**
   * `performAllCalls`: the files, the calls not yet settled, and the
   * `completed` and `failed` arrays, which hold indices into `files`.
   */
  datatype Batch = Batch(
    files: seq<DecodedAudioFile>,
    pending: set<nat>,
    completed: seq<nat>,
    failed: seq<(nat, string)>)

  /** The indices below `n`. */
  function Indices(n: nat): (indices: set<nat>)
    ensures forall i: nat :: i in indices <==> i < n
  {
    if n == 0 then {} else Indices(n - 1) + {n - 1}
  }

  function BatchInit(files: seq<DecodedAudioFile>): Batch {
    Batch(files, Indices(|files|), [], [])
  }

  /** The call for file `i` settled with `outcome`; the work queue decides when. */
  function BatchStep(b: Batch, i: nat, outcome: CallOutcome): Batch {
    if i !in b.pending then b
    else match outcome
      case Completed => b.(pending := b.pending - {i}, completed := b.completed + [i])
      case Failed(reason) => b.(pending := b.pending - {i}, failed := b.failed + [(i, reason)])
  }

  function FailedIndices(failed: seq<(nat, string)>): seq<nat> {
    seq(|failed|, k requires 0 <= k < |failed| => failed[k].0)
  }

  /**
   * Every file is in exactly one place: still pending, once in
   * `completed`, or once in `failed`.
   */
  predicate BatchValid(b: Batch) {
    && (forall i | i in b.pending :: i < |b.files|)
    && (forall k | 0 <= k < |b.completed| :: b.completed[k] < |b.files|)
    && (forall k | 0 <= k < |b.failed| :: b.failed[k].0 < |b.files|)
    && (forall i: nat | i < |b.files| ::
          (if i in b.pending then 1 else 0) + Count<nat>(b.completed, i) + Count<nat>(FailedIndices(b.failed), i) == 1)
  }

  lemma BatchInitValid(files: seq<DecodedAudioFile>)
    ensures BatchValid(BatchInit(files))
  {
  }

  lemma BatchStepValid(b: Batch, i: nat, outcome: CallOutcome)
    requires BatchValid(b)
    ensures BatchValid(BatchStep(b, i, outcome))
  {
    if i in b.pending {
      var c := BatchStep(b, i, outcome);
      forall j: nat | j < |b.files|
        ensures (if j in c.pending then 1 else 0) + Count<nat>(c.completed, j) + Count<nat>(FailedIndices(c.failed), j) == 1
      {
        assert (if j in b.pending then 1 else 0) + Count<nat>(b.completed, j) + Count<nat>(FailedIndices(b.failed), j) == 1;
        assert (j in c.pending) == (j in b.pending && j != i);
        match outcome {
          case Completed =>
            CountSnoc<nat>(b.completed, i, j);
            assert c.completed == b.completed + [i];
            assert c.failed == b.failed;
          case Failed(reason) =>
            assert FailedIndices(c.failed) == FailedIndices(b.failed) + [i];
            CountSnoc<nat>(FailedIndices(b.failed), i, j);
            assert c.completed == b.completed;
        }
      }
    }
  }

  lemma {:induction false} CountInSeq(s: seq<nat>, x: nat)
    ensures x in s <==> Count<nat>(s, x) > 0
  {
    if s != [] {
      CountInSeq(s[1..], x);
    }
  }

  /**
   * Once no call is pending, each file is in exactly one of the two
   * arrays, and together they hold as many entries as there are files.
   */
  lemma BatchPartition(b: Batch)
    requires BatchValid(b) && b.pending == {}
    ensures forall i: nat | i < |b.files| :: (i in b.completed) != (i in FailedIndices(b.failed))
    ensures |b.completed| + |b.failed| == |b.files|
  {
    forall i: nat | i < |b.files| ensures (i in b.completed) != (i in FailedIndices(b.failed)) {
      assert (if i in b.pending then 1 else 0) + Count<nat>(b.completed, i) + Count<nat>(FailedIndices(b.failed), i) == 1;
      CountInSeq(b.completed, i);
      CountInSeq(FailedIndices(b.failed), i);
    }
    var all := b.completed + FailedIndices(b.failed);
    forall i: nat | i < |b.files| ensures Count<nat>(all, i) == 1 {
      assert (if i in b.pending then 1 else 0) + Count<nat>(b.completed, i) + Count<nat>(FailedIndices(b.failed), i) == 1;
      CountAppend<nat>(b.completed, FailedIndices(b.failed), i);
    }
    forall k | 0 <= k < |all| ensures all[k] < |b.files| {
      if k >= |b.completed| {
        assert all[k] == b.failed[k - |b.completed|].0;
      }
    }
    CountsOfIndices(all, |b.files|);
  }

  function CountBelow(s: seq<nat>, n: nat): nat {
    if n == 0 then 0 else CountBelow(s, n - 1) + Count<nat>(s, n - 1)
  }

  lemma {:induction false} CountBelowAll(s: seq<nat>, n: nat)
    requires forall k | 0 <= k < |s| :: s[k] < n
    ensures CountBelow(s, n) == |s|
    decreases |s|
  {
    if s != [] {
      assert s == [s[0]] + s[1..];
      CountBelowAll(s[1..], n);
      CountBelowCons(s[0], s[1..], n);
    } else {
      CountBelowEmpty(n);
    }
  }

  lemma {:induction false} CountBelowEmpty(n: nat)
    ensures CountBelow([], n) == 0
  {
    if n > 0 {
      CountBelowEmpty(n - 1);
    }
  }

  lemma {:induction false} CountBelowCons(x: nat, s: seq<nat>, n: nat)
    ensures CountBelow([x] + s, n) == CountBelow(s, n) + (if x < n then 1 else 0)
  {
    if n > 0 {
      CountBelowCons(x, s, n - 1);
      assert ([x] + s)[1..] == s;
    }
  }

  lemma {:induction false} CountBelowOnes(s: seq<nat>, n: nat, m: nat)
    requires m <= n
    requires forall i: nat | i < n :: Count<nat>(s, i) == 1
    ensures CountBelow(s, m) == m
  {
    if m > 0 {
      CountBelowOnes(s, n, m - 1);
    }
  }

  lemma CountsOfIndices(s: seq<nat>, n: nat)
    requires forall k | 0 <= k < |s| :: s[k] < n
    requires forall i: nat | i < n :: Count<nat>(s, i) == 1
    ensures |s| == n
  {
    CountBelowAll(s, n);
    CountBelowOnes(s, n, n);
  }

  /** The arrays `performAllCalls` pushes to, in settling order. */
  class CallBatch {
    const files: seq<DecodedAudioFile>
    var pending: set<nat>
    var completed: seq<nat>
    var failed: seq<(nat, string)>

    function State(): Batch
      reads this
    {
      Batch(files, pending, completed, failed)
    }

    /** Submits one call per file. */
    constructor (files: seq<DecodedAudioFile>)
      ensures State() == BatchInit(files)
    {
      this.files := files;
      pending := Indices(|files|);
      completed := [];
      failed := [];
    }

    /** The `then`/`catch` of file `i`'s call. */
    method Settle(i: nat, outcome: CallOutcome)
      modifies this
      ensures State() == BatchStep(old(State()), i, outcome)
    {
      if i in pending {
        pending := pending - {i};
        match outcome {
          case Completed => completed := completed + [i];
          case Failed(reason) => failed := failed + [(i, reason)];
        }
      }
    }
  }

  // ---------------------------------------------------------------------------
  // Summary

  /** The message shown when all calls have settled. */
  datatype Summary =
    | AllSucceeded(count: nat)
    | AllFailed(count: nat)
    | SomeFailed(total: nat, failedCount: nat)

  /**
   * No failure gives the all-success message; otherwise no completion gives
   * the all-failed message; otherwise the mixed message counts every call
   * and the failed ones.
   */
  function SummaryOf(completedCount: nat, failedCount: nat): (s: Summary)
    ensures s.AllSucceeded? <==> failedCount == 0
    ensures s.AllFailed? <==> failedCount > 0 && completedCount == 0
    ensures s.SomeFailed? <==> failedCount > 0 && completedCount > 0
    ensures s.AllSucceeded? ==> s.count == completedCount
    ensures s.AllFailed? ==> s.count == failedCount
    ensures s.SomeFailed? ==> s.total == completedCount + failedCount && 0 < s.failedCount < s.total
  {
    if failedCount == 0 then AllSucceeded(completedCount)
    else if completedCount == 0 then AllFailed(failedCount)
    else SomeFailed(completedCount + failedCount, failedCount)
  }

  /** The summary of a settled batch accounts for every file. */
  lemma SummaryCountsEveryFile(b: Batch)
    requires BatchValid(b) && b.pending == {}
    ensures var s := SummaryOf(|b.completed|, |b.failed|);
            match s
            case AllSucceeded(count) => count == |b.files|
            case AllFailed(count) => count == |b.files|
            case SomeFailed(total, _) => total == |b.files|
  {
    BatchPartition(b);
  }
}
