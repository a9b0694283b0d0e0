/** The screencast recorder (src/pipeline/plugins/screencast-capture.ts): length-prefixed frames
    packed into rolling chunks, with a manifest of offsets. Storage is the log of chunks handed to
    writeChunk; when and how a write settles is a separate event. */
module Replay {
  import opened Basics
  import opened Buffers
  import Fnv

  // ---------------------------------------------------------------- the chunk format

  /** `setUint32(0, n, false)`: big-endian, modulo 2^32. */
  function PrefixOf(n: nat): Bytes {
    [(n / 0x100_0000 % 256) as byte, (n / 0x1_0000 % 256) as byte, (n / 0x100 % 256) as byte, (n % 256) as byte]
  }

  function ReadPrefix(b: Bytes): nat
    requires |b| == 4
  {
    b[0] as int * 0x100_0000 + b[1] as int * 0x1_0000 + b[2] as int * 0x100 + b[3] as int
  }

  const FRAME_LIMIT := 0x1_0000_0000

  lemma PrefixRoundTrip(n: nat)
    requires n < FRAME_LIMIT
    ensures ReadPrefix(PrefixOf(n)) == n
  {
    var low, middle, high := n / 0x100, n / 0x1_0000, n / 0x100_0000;
    assert n == low * 0x100 + n % 256;
    assert low == middle * 0x100 + low % 256;
    assert middle == high * 0x100 + middle % 256;
    assert high % 256 == high;
  }

  function Encoded(frames: seq<Bytes>): Bytes {
    if frames == [] then [] else
      var last := frames[|frames| - 1];
      Encoded(frames[..|frames| - 1]) + PrefixOf(|last|) + last
  }

  function Flatten(parts: seq<Bytes>): Bytes {
    if parts == [] then [] else Flatten(parts[..|parts| - 1]) + parts[|parts| - 1]
  }

  /** A reader that knows nothing but the format: it takes frame after frame off the front, and
      fails on bytes that are not whole frames. */
  function Scan(data: Bytes): Option<seq<Bytes>>
    decreases |data|
  {
    if data == [] then Some([])
    else if |data| < 4 || |data| < 4 + ReadPrefix(data[..4]) then None
    else
      var end := 4 + ReadPrefix(data[..4]);
      var rest := Scan(data[end..]);
      if rest.None? then None else Some([data[4..end]] + rest.value)
  }

  predicate Small(frames: seq<Bytes>) {
    forall i :: 0 <= i < |frames| ==> |frames[i]| < FRAME_LIMIT
  }

  /** The same bytes, read from the front. */
  lemma {:induction false} EncodedFront(frames: seq<Bytes>)
    requires frames != []
    ensures Encoded(frames) == PrefixOf(|frames[0]|) + frames[0] + Encoded(frames[1..])
  {
    var n := |frames| - 1;
    if n != 0 {
      EncodedFront(frames[..n]);
      assert frames[..n][1..] == frames[1..][..n - 1];
    }
  }

  lemma {:induction false} ScanEncoded(frames: seq<Bytes>)
    requires Small(frames)
    ensures Scan(Encoded(frames)) == Some(frames)
    decreases |frames|
  {
    if frames != [] {
      EncodedFront(frames);
      var data, first := Encoded(frames), frames[0];
      PrefixRoundTrip(|first|);
      assert data[..4] == PrefixOf(|first|);
      assert data[4..4 + |first|] == first;
      assert data[4 + |first|..] == Encoded(frames[1..]);
      ScanEncoded(frames[1..]);
      assert [first] + frames[1..] == frames;
    }
  }

  // ---------------------------------------------------------------- the recorder's state

  datatype Limits = Limits(
    maxBytesPerSession: nat,
    chunkMaxBytes: nat,
    chunkMaxElapsedMs: int,
    maxInFlight: nat,
    filterEmptyUrl: bool)

  datatype FrameRecord = FrameRecord(
    frame: nat,
    url: string,
    targetId: string,
    chunkIndex: nat,
    byteOffset: nat,
    length: nat)

  datatype Target = Target(targetId: string, frameCount: nat, sizeBytes: nat, lastUrl: string,
                           lastFrameHash: Option<int>)

  datatype Manifest = Manifest(
    frames: seq<FrameRecord>,
    sizeBytes: nat,
    droppedFrames: nat,
    duplicatesSkipped: nat,
    truncated: Option<string>)

  /** `written` is the storage log: entry c is the data of chunk c. `captured` is history: the bytes
      of every recorded frame. */
  datatype Recorder = Recorder(
    targets: map<string, Target>,
    frames: seq<FrameRecord>,
    droppedFrames: nat,
    duplicatesSkipped: nat,
    totalBytes: nat,
    capStopped: bool,
    truncationReason: Option<string>,
    ending: bool,
    failedChunks: set<nat>,
    chunkIndex: nat,
    chunkBuffer: seq<Bytes>,
    chunkBufferBytes: nat,
    chunkOpenedAt: int,
    pendingWrites: set<nat>,
    manifest: Option<Manifest>,
    written: seq<Bytes>,
    captured: seq<Bytes>)

  /** The recorder after onSessionStart. */
  function Started(now: int): Recorder {
    Recorder(map[], [], 0, 0, 0, false, None, false, {}, 0, [], 0, now, {}, None, [], [])
  }

  function Units(data: Bytes): (r: seq<nat>)
    ensures |r| == |data|
  {
    seq(|data|, i requires 0 <= i < |data| => data[i] as int)
  }

  // ---------------------------------------------------------------- the steps

  function Flushed(r: Recorder): Recorder {
    if r.chunkBufferBytes == 0 then r
    else r.(written := r.written + [Flatten(r.chunkBuffer)], pendingWrites := r.pendingWrites + {r.chunkIndex},
            chunkIndex := r.chunkIndex + 1, chunkBuffer := [], chunkBufferBytes := 0, chunkOpenedAt := 0)
  }

  predicate MustRoll(o: Limits, r: Recorder, length: nat, now: int) {
    0 < r.chunkBufferBytes &&
      (r.chunkBufferBytes + length + 4 > o.chunkMaxBytes || now - r.chunkOpenedAt > o.chunkMaxElapsedMs)
  }

  /** Prefix and bytes go behind what the open chunk holds. */
  function Pushed(r: Recorder, data: Bytes, now: int): Recorder {
    r.(chunkBuffer := r.chunkBuffer + [PrefixOf(|data|), data],
       chunkBufferBytes := r.chunkBufferBytes + 4 + |data|,
       chunkOpenedAt := if r.chunkBufferBytes == 0 then now else r.chunkOpenedAt)
  }

  /** The frame goes behind what the open chunk holds, and its record says where. */
  function Packed(r: Recorder, key: string, data: Bytes, now: int): Recorder
    requires key in r.targets
  {
    Noted(Pushed(r, data, now), key, r.chunkBufferBytes, data)
  }

  function Noted(r: Recorder, key: string, byteOffset: nat, data: Bytes): Recorder
    requires key in r.targets
  {
    var t := r.targets[key];
    r.(frames := r.frames + [FrameRecord(|r.frames| + 1, t.lastUrl, t.targetId, r.chunkIndex, byteOffset, |data|)],
       targets := r.targets[key := t.(frameCount := t.frameCount + 1, sizeBytes := t.sizeBytes + |data|)],
       totalBytes := r.totalBytes + |data|,
       captured := r.captured + [data])
  }

  function Appended(o: Limits, r: Recorder, key: string, data: Bytes, now: int): Recorder
    requires key in r.targets
  {
    Packed(if MustRoll(o, r, |data|, now) then Flushed(r) else r, key, data, now)
  }

  function StoppedWith(r: Recorder, reason: string): Recorder {
    if r.capStopped then r else r.(capStopped := true, truncationReason := Some(reason))
  }

  /** What becomes of an arriving frame. */
  datatype Verdict = Ignore | Trip | Skip | Drop | Record

  function Judge(o: Limits, r: Recorder, key: string, hash: int): Verdict {
    if r.capStopped || r.ending || key !in r.targets then Ignore
    else if o.maxBytesPerSession <= r.totalBytes then Trip
    else if o.filterEmptyUrl && r.targets[key].lastUrl == "" then Skip
    else if o.maxInFlight <= |r.pendingWrites| then Drop
    else if r.targets[key].lastFrameHash == Some(hash) then Skip
    else Record
  }

  /** The state a recorded frame is appended to. */
  function Prepared(r: Recorder, key: string, hash: int): Recorder
    requires key in r.targets
  {
    r.(targets := r.targets[key := r.targets[key].(lastFrameHash := Some(hash))])
  }

  /** handleScreencastFrame: counted as recorded, dropped or skipped, or trips the byte cap. */
  function Framed(o: Limits, r: Recorder, key: string, data: Bytes, now: int): Recorder {
    var hash := Fnv.HashByShifts(Units(data));
    match Judge(o, r, key, hash)
    case Ignore => r
    case Trip => StoppedWith(r, "byte-cap")
    case Skip => r.(duplicatesSkipped := r.duplicatesSkipped + 1)
    case Drop => r.(droppedFrames := r.droppedFrames + 1)
    case Record => Appended(o, Prepared(r, key, hash), key, data, now)
  }

  function SumLengths(frames: seq<FrameRecord>): nat {
    if frames == [] then 0 else SumLengths(frames[..|frames| - 1]) + frames[|frames| - 1].length
  }

  /** The records whose chunk did not fail. */
  function Surviving(frames: seq<FrameRecord>, failed: set<nat>): seq<FrameRecord> {
    if frames == [] then [] else
      Surviving(frames[..|frames| - 1], failed) +
      if frames[|frames| - 1].chunkIndex in failed then [] else [frames[|frames| - 1]]
  }

  datatype Event =
    | Attached(key: string, targetId: string)
    | Detached(key: string)
    | Navigated(key: string, url: string)
    | Frame(key: string, data: Bytes, now: int)
    | Abort(reason: string)
    | WriteSettled(chunk: nat, ok: bool)
    | SessionEnd
    | WritesDone

  function Step(o: Limits, r: Recorder, e: Event): Recorder {
    match e
    case Attached(key, targetId) =>
      if r.capStopped || r.ending || key in r.targets then r
      else r.(targets := r.targets[key := Target(targetId, 0, 0, "", None)])
    case Detached(key) =>
      if r.capStopped || r.ending then r else r.(targets := r.targets - {key})
    case Navigated(key, url) =>
      if r.capStopped || r.ending || key !in r.targets || url == "" then r
      else r.(targets := r.targets[key := r.targets[key].(lastUrl := url)])
    case Frame(key, data, now) => Framed(o, r, key, data, now)
    case Abort(reason) => if r.ending then r else StoppedWith(r, reason)
    case WriteSettled(chunk, ok) =>
      if chunk !in r.pendingWrites then r
      else r.(pendingWrites := r.pendingWrites - {chunk},
              failedChunks := if ok then r.failedChunks else r.failedChunks + {chunk})
    case SessionEnd => if r.ending then r else Flushed(r.(ending := true))
    case WritesDone =>
      if !r.ending || r.pendingWrites != {} || r.manifest.Some? then r
      else
        var kept := Surviving(r.frames, r.failedChunks);
        r.(manifest := Some(Manifest(kept, SumLengths(kept), r.droppedFrames, r.duplicatesSkipped, r.truncationReason)))
  }

  function Run(o: Limits, r: Recorder, es: seq<Event>): Recorder {
    if es == [] then r else Step(o, Run(o, r, es[..|es| - 1]), es[|es| - 1])
  }

  // ---------------------------------------------------------------- the layout of the chunks

  /** The bytes of chunk c: as written, or as buffered so far. */
  function Data(r: Recorder, c: nat): Bytes {
    if c < |r.written| then r.written[c] else Flatten(r.chunkBuffer)
  }

  /** The captured frames whose record names chunk c, in order. */
  function FramesIn(frames: seq<FrameRecord>, captured: seq<Bytes>, c: nat): seq<Bytes>
    requires |frames| == |captured|
  {
    if frames == [] then [] else
      var n := |frames| - 1;
      FramesIn(frames[..n], captured[..n], c) + if frames[n].chunkIndex == c then [captured[n]] else []
  }

  /** Record k leads to frame k: its prefix at byteOffset, its bytes right behind. */
  ghost predicate RecordLeads(r: Recorder, k: nat)
    requires k < |r.frames| && |r.frames| == |r.captured|
  {
    var f, data := r.frames[k], r.captured[k];
    && f.frame == k + 1 && f.length == |data| && f.chunkIndex <= r.chunkIndex
    && var chunk := Data(r, f.chunkIndex);
       && f.byteOffset + 4 + f.length <= |chunk|
       && chunk[f.byteOffset..f.byteOffset + 4] == PrefixOf(f.length)
       && chunk[f.byteOffset + 4..f.byteOffset + 4 + f.length] == data
  }

  ghost predicate LayoutInv(r: Recorder) {
    && |r.frames| == |r.captured| && |r.written| == r.chunkIndex
    && r.chunkBufferBytes == |Flatten(r.chunkBuffer)|
    && (forall k :: 0 <= k < |r.frames| ==> RecordLeads(r, k))
    && (forall j, k :: 0 <= j < k < |r.frames| ==> r.frames[j].chunkIndex <= r.frames[k].chunkIndex)
    && (forall c :: 0 <= c <= r.chunkIndex ==> ChunkHolds(r, c))
  }

  /** A chunk is the encoding of the frames whose records name it. */
  ghost predicate ChunkHolds(r: Recorder, c: nat)
    requires |r.frames| == |r.captured|
  {
    Data(r, c) == Encoded(FramesIn(r.frames, r.captured, c))
  }

  lemma FlattenTwo(parts: seq<Bytes>, a: Bytes, b: Bytes)
    ensures Flatten(parts + [a, b]) == Flatten(parts) + a + b
  {
    assert (parts + [a, b])[..|parts| + 1] == parts + [a];
    assert (parts + [a])[..|parts|] == parts;
  }

  lemma {:induction false} NoFramesYet(frames: seq<FrameRecord>, captured: seq<Bytes>, c: nat)
    requires |frames| == |captured|
    requires forall k :: 0 <= k < |frames| ==> frames[k].chunkIndex < c
    ensures FramesIn(frames, captured, c) == []
  {
    if frames != [] {
      NoFramesYet(frames[..|frames| - 1], captured[..|frames| - 1], c);
    }
  }

  lemma FlushKeepsRecord(r: Recorder, k: nat)
    requires k < |r.frames| == |r.captured| && |r.written| == r.chunkIndex && RecordLeads(r, k)
    ensures RecordLeads(Flushed(r), k) && r.frames[k].chunkIndex <= r.chunkIndex
  {
  }

  lemma FlushKeepsChunk(r: Recorder, c: nat)
    requires |r.frames| == |r.captured| && |r.written| == r.chunkIndex && c <= r.chunkIndex && ChunkHolds(r, c)
    ensures ChunkHolds(Flushed(r), c)
  {
  }

  /** A newly opened chunk is empty. */
  lemma FlushOpensChunk(r: Recorder)
    requires |r.frames| == |r.captured| && |r.written| == r.chunkIndex && r.chunkBufferBytes != 0
    requires forall k :: 0 <= k < |r.frames| ==> r.frames[k].chunkIndex <= r.chunkIndex
    ensures ChunkHolds(Flushed(r), r.chunkIndex + 1)
  {
    NoFramesYet(r.frames, r.captured, r.chunkIndex + 1);
  }

  lemma FlushKeepsLayout(r: Recorder)
    requires LayoutInv(r)
    ensures LayoutInv(Flushed(r))
    ensures forall c :: 0 <= c <= r.chunkIndex ==> Data(Flushed(r), c) == Data(r, c)
  {
    if r.chunkBufferBytes != 0 {
      var q := Flushed(r);
      forall k | 0 <= k < |q.frames| ensures RecordLeads(q, k) && q.frames[k].chunkIndex <= r.chunkIndex {
        FlushKeepsRecord(r, k);
      }
      forall c | 0 <= c <= q.chunkIndex ensures ChunkHolds(q, c) {
        if c <= r.chunkIndex {
          FlushKeepsChunk(r, c);
        } else {
          FlushOpensChunk(r);
        }
      }
    }
  }

  lemma PackKeepsLayout(r: Recorder, key: string, data: Bytes, now: int)
    requires LayoutInv(r) && key in r.targets
    ensures LayoutInv(Packed(r, key, data, now))
  {
    var q := Packed(r, key, data, now);
    var n := |r.frames|;
    FlattenTwo(r.chunkBuffer, PrefixOf(|data|), data);
    assert q.frames[..n] == r.frames && q.captured[..n] == r.captured;
    forall k | 0 <= k < |q.frames| ensures RecordLeads(q, k) {
      if k < n {
        assert RecordLeads(r, k);
        assert Data(r, r.frames[k].chunkIndex) <= Data(q, r.frames[k].chunkIndex);
      }
    }
    forall k | 0 <= k < n ensures q.frames[k].chunkIndex <= r.chunkIndex {
      assert RecordLeads(r, k);
    }
    forall c | 0 <= c <= q.chunkIndex ensures ChunkHolds(q, c) {
      assert ChunkHolds(r, c);
      PackKeepsChunk(r, key, data, now, c);
    }
  }

  lemma PackKeepsChunk(r: Recorder, key: string, data: Bytes, now: int, c: nat)
    requires |r.frames| == |r.captured| && |r.written| == r.chunkIndex && key in r.targets
    requires c <= r.chunkIndex && ChunkHolds(r, c)
    ensures ChunkHolds(Packed(r, key, data, now), c)
  {
    var q := Packed(r, key, data, now);
    var n, before := |r.frames|, FramesIn(r.frames, r.captured, c);
    assert q.frames[..n] == r.frames && q.captured[..n] == r.captured;
    if c == r.chunkIndex {
      FlattenTwo(r.chunkBuffer, PrefixOf(|data|), data);
      assert FramesIn(q.frames, q.captured, c) == before + [data];
    } else {
      assert FramesIn(q.frames, q.captured, c) == before + [];
      assert before + [] == before;
    }
  }

  /** The fields the layout depends on are the same. */
  predicate SamePlaces(r: Recorder, q: Recorder) {
    && q.frames == r.frames && q.captured == r.captured && q.written == r.written
    && q.chunkIndex == r.chunkIndex && q.chunkBuffer == r.chunkBuffer && q.chunkBufferBytes == r.chunkBufferBytes
  }

  lemma SamePlacesKeepLayout(r: Recorder, q: Recorder)
    requires LayoutInv(r) && SamePlaces(r, q)
    ensures LayoutInv(q)
  {
    forall c ensures Data(q, c) == Data(r, c) {}
    forall k | 0 <= k < |q.frames| ensures RecordLeads(q, k) {
      assert RecordLeads(r, k);
    }
    forall c | 0 <= c <= q.chunkIndex ensures ChunkHolds(q, c) {
      assert ChunkHolds(r, c);
    }
  }

  lemma AppendKeepsLayout(o: Limits, r: Recorder, key: string, data: Bytes, now: int)
    requires LayoutInv(r) && key in r.targets
    ensures LayoutInv(Appended(o, r, key, data, now))
  {
    FlushKeepsLayout(r);
    PackKeepsLayout(if MustRoll(o, r, |data|, now) then Flushed(r) else r, key, data, now);
  }

  predicate Recorded(o: Limits, r: Recorder, key: string, data: Bytes) {
    Judge(o, r, key, Fnv.HashByShifts(Units(data))) == Record
  }

  lemma LayoutStep(o: Limits, r: Recorder, e: Event)
    requires LayoutInv(r)
    ensures LayoutInv(Step(o, r, e))
  {
    match e
    case Frame(key, data, now) =>
      if Recorded(o, r, key, data) {
        SamePlacesKeepLayout(r, Prepared(r, key, Fnv.HashByShifts(Units(data))));
        AppendKeepsLayout(o, Prepared(r, key, Fnv.HashByShifts(Units(data))), key, data, now);
      } else {
        SamePlacesKeepLayout(r, Framed(o, r, key, data, now));
      }
    case SessionEnd =>
      SamePlacesKeepLayout(r, r.(ending := true));
      FlushKeepsLayout(r.(ending := true));
    case _ => SamePlacesKeepLayout(r, Step(o, r, e));
  }

  lemma {:induction false} LayoutRun(o: Limits, now: int, es: seq<Event>)
    ensures LayoutInv(Run(o, Started(now), es))
  {
    if es != [] {
      LayoutRun(o, now, es[..|es| - 1]);
      LayoutStep(o, Run(o, Started(now), es[..|es| - 1]), es[|es| - 1]);
    }
  }

  // ---------------------------------------------------------------- reading a recording back

  /** Replay round trip. After any run, frame k of the manifest data is found through record k,
      and scanning any chunk by its prefixes yields that chunk's frames in order with nothing
      left over. */
  lemma ReplayRoundTrip(o: Limits, now: int, es: seq<Event>)
    ensures var r := Run(o, Started(now), es);
            && |r.frames| == |r.captured|
            && (forall k :: 0 <= k < |r.frames| ==> RecordLeads(r, k))
            && (Small(r.captured) ==>
                  forall c :: 0 <= c <= r.chunkIndex ==> Scan(Data(r, c)) == Some(FramesIn(r.frames, r.captured, c)))
  {
    LayoutRun(o, now, es);
    var r := Run(o, Started(now), es);
    if Small(r.captured) {
      forall c | 0 <= c <= r.chunkIndex ensures Scan(Data(r, c)) == Some(FramesIn(r.frames, r.captured, c)) {
        FramesInSmall(r.frames, r.captured, c);
        assert ChunkHolds(r, c);
        ScanEncoded(FramesIn(r.frames, r.captured, c));
      }
    }
  }

  lemma {:induction false} FramesInSmall(frames: seq<FrameRecord>, captured: seq<Bytes>, c: nat)
    requires |frames| == |captured| && Small(captured)
    ensures Small(FramesIn(frames, captured, c))
  {
    if frames != [] {
      FramesInSmall(frames[..|frames| - 1], captured[..|frames| - 1], c);
    }
  }

  /** What a player collects from the first n chunks, one after the other. */
  function Collected(frames: seq<FrameRecord>, captured: seq<Bytes>, n: nat): seq<Bytes>
    requires |frames| == |captured|
  {
    if n == 0 then [] else Collected(frames, captured, n - 1) + FramesIn(frames, captured, n - 1)
  }

  lemma {:induction false} CollectedBefore(frames: seq<FrameRecord>, captured: seq<Bytes>, n: nat)
    requires 0 < |frames| == |captured| && n <= frames[|frames| - 1].chunkIndex
    ensures Collected(frames, captured, n) == Collected(frames[..|frames| - 1], captured[..|frames| - 1], n)
  {
    if n != 0 {
      CollectedBefore(frames, captured, n - 1);
      var front := FramesIn(frames[..|frames| - 1], captured[..|frames| - 1], n - 1);
      assert FramesIn(frames, captured, n - 1) == front + [] == front;
    }
  }

  /** Chunks never interleave: collecting them in order gives back every captured frame in order. */
  lemma {:induction false} CollectedAll(frames: seq<FrameRecord>, captured: seq<Bytes>, n: nat)
    requires |frames| == |captured|
    requires forall j, k :: 0 <= j < k < |frames| ==> frames[j].chunkIndex <= frames[k].chunkIndex
    requires forall k :: 0 <= k < |frames| ==> frames[k].chunkIndex < n
    ensures Collected(frames, captured, n) == captured
    decreases |frames|, n
  {
    if frames == [] {
      assert captured == [];
      CollectedNothing(n);
    } else {
      var m := |frames| - 1;
      var c := frames[m].chunkIndex;
      if c < n - 1 {
        NoFramesYet(frames, captured, n - 1);
        CollectedAll(frames, captured, n - 1);
      } else {
        assert Collected(frames[..m], captured[..m], n) == captured[..m] by {
          CollectedAll(frames[..m], captured[..m], n);
        }
        assert Collected(frames, captured, n) == captured[..m] + [captured[m]] by {
          CollectedOneMore(frames, captured, n);
        }
      }
    }
  }

  lemma CollectedOneMore(frames: seq<FrameRecord>, captured: seq<Bytes>, n: nat)
    requires 0 < |frames| == |captured| && n == frames[|frames| - 1].chunkIndex + 1
    ensures var m := |frames| - 1;
            Collected(frames, captured, n) == Collected(frames[..m], captured[..m], n) + [captured[m]]
  {
    var m := |frames| - 1;
    CollectedBefore(frames, captured, n - 1);
    var earlier := Collected(frames[..m], captured[..m], n - 1);
    var front := FramesIn(frames[..m], captured[..m], n - 1);
    assert FramesIn(frames, captured, n - 1) == front + [captured[m]];
    assert earlier + (front + [captured[m]]) == (earlier + front) + [captured[m]];
  }

  lemma {:induction false} CollectedNothing(n: nat)
    ensures Collected([], [], n) == []
  {
    if n != 0 {
      CollectedNothing(n - 1);
    }
  }

  /** Reading all chunks of a recording in order yields exactly the captured frames in order. */
  lemma ChunksHoldEverything(o: Limits, now: int, es: seq<Event>)
    ensures var r := Run(o, Started(now), es);
            |r.frames| == |r.captured| && Collected(r.frames, r.captured, r.chunkIndex + 1) == r.captured
  {
    LayoutRun(o, now, es);
    var r := Run(o, Started(now), es);
    forall k | 0 <= k < |r.frames| ensures r.frames[k].chunkIndex < r.chunkIndex + 1 {
      assert RecordLeads(r, k);
    }
    CollectedAll(r.frames, r.captured, r.chunkIndex + 1);
  }

  // ---------------------------------------------------------------- conservation and bounds

  /** The event is a frame of a target armed at that moment, before capture stopped or the session ended. */
  predicate Arrives(r: Recorder, e: Event) {
    e.Frame? && e.key in r.targets && !r.capStopped && !r.ending
  }

  /** It finds the byte cap reached. */
  predicate FindsCap(o: Limits, r: Recorder, e: Event) {
    Arrives(r, e) && o.maxBytesPerSession <= r.totalBytes
  }

  /** How many such frames there are among the events of a run. */
  function Arrivals(o: Limits, now: int, es: seq<Event>): nat {
    if es == [] then 0 else
      var before, r := es[..|es| - 1], Run(o, Started(now), es[..|es| - 1]);
      Arrivals(o, now, before) + if Arrives(r, es[|es| - 1]) then 1 else 0
  }

  function CapHits(o: Limits, now: int, es: seq<Event>): nat {
    if es == [] then 0 else
      var before, r := es[..|es| - 1], Run(o, Started(now), es[..|es| - 1]);
      CapHits(o, now, before) + if FindsCap(o, r, es[|es| - 1]) then 1 else 0
  }

  function Counted(r: Recorder): nat {
    |r.frames| + r.droppedFrames + r.duplicatesSkipped
  }

  lemma StepCounts(o: Limits, r: Recorder, e: Event)
    ensures Counted(Step(o, r, e)) == Counted(r) + if Arrives(r, e) && !FindsCap(o, r, e) then 1 else 0
    ensures FindsCap(o, r, e) ==> Step(o, r, e).capStopped
    ensures r.capStopped ==> Step(o, r, e).capStopped
  {
    if e.Frame? {
    }
  }

  /** Conservation: every frame of an armed target that arrives before capture stops is recorded,
      dropped or skipped, and so counted once, except the single one that finds the cap reached. */
  lemma {:induction false} FramesConserved(o: Limits, now: int, es: seq<Event>)
    ensures var r := Run(o, Started(now), es);
            && Arrivals(o, now, es) == |r.frames| + r.droppedFrames + r.duplicatesSkipped + CapHits(o, now, es)
            && CapHits(o, now, es) <= 1 && (CapHits(o, now, es) == 1 ==> r.capStopped)
  {
    if es != [] {
      FramesConserved(o, now, es[..|es| - 1]);
      StepCounts(o, Run(o, Started(now), es[..|es| - 1]), es[|es| - 1]);
    }
  }

  /** The byte total is that of the recorded frames and stays under the cap plus the last one. */
  ghost predicate CountInv(o: Limits, r: Recorder) {
    && r.totalBytes == SumLengths(r.frames)
    && (r.frames != [] ==> r.totalBytes < o.maxBytesPerSession + r.frames[|r.frames| - 1].length)
  }

  lemma CountStep(o: Limits, r: Recorder, e: Event)
    requires CountInv(o, r)
    ensures CountInv(o, Step(o, r, e))
  {
    if e.Frame? {
      FrameCounted(o, r, e.key, e.data, e.now);
    }
  }

  lemma FrameCounted(o: Limits, r: Recorder, key: string, data: Bytes, now: int)
    requires CountInv(o, r)
    ensures CountInv(o, Framed(o, r, key, data, now))
  {
    if Recorded(o, r, key, data) {
      var q := Framed(o, r, key, data, now);
      assert q.frames[..|r.frames|] == r.frames;
    }
  }

  /** Writes in flight, settled writes and the state after the end. */
  ghost predicate WriteInv(o: Limits, r: Recorder) {
    && (forall c :: c in r.pendingWrites || c in r.failedChunks ==> c < r.chunkIndex)
    && r.pendingWrites !! r.failedChunks
    && |r.pendingWrites| <= o.maxInFlight + (if r.ending then 1 else 0)
    && (r.ending ==> r.chunkBufferBytes == 0)
    && (r.manifest.Some? ==>
          && r.ending && r.pendingWrites == {}
          && r.manifest.value.frames == Surviving(r.frames, r.failedChunks)
          && r.manifest.value.sizeBytes == SumLengths(r.manifest.value.frames))
  }

  lemma FlushAddsOneWrite(r: Recorder)
    requires forall c :: c in r.pendingWrites || c in r.failedChunks ==> c < r.chunkIndex
    requires r.pendingWrites !! r.failedChunks
    ensures var q := Flushed(r);
            && (forall c :: c in q.pendingWrites || c in q.failedChunks ==> c < q.chunkIndex)
            && q.pendingWrites !! q.failedChunks && |q.pendingWrites| <= |r.pendingWrites| + 1 &&
               q.chunkBufferBytes == 0
  {
  }

  lemma FrameKeepsWrites(o: Limits, r: Recorder, key: string, data: Bytes, now: int)
    requires WriteInv(o, r)
    ensures WriteInv(o, Framed(o, r, key, data, now))
  {
    if Recorded(o, r, key, data) {
      FlushAddsOneWrite(Prepared(r, key, Fnv.HashByShifts(Units(data))));
    }
  }

  lemma WriteStep(o: Limits, r: Recorder, e: Event)
    requires WriteInv(o, r)
    ensures WriteInv(o, Step(o, r, e))
  {
    match e
    case Frame(key, data, now) =>
      FrameKeepsWrites(o, r, key, data, now);
    case SessionEnd => FlushAddsOneWrite(r.(ending := true));
    case _ =>
  }

  /** Every chunk respects the size limit or holds a single frame. */
  ghost predicate SizeInv(o: Limits, r: Recorder) {
    && |r.frames| == |r.captured|
    && forall c :: 0 <= c <= r.chunkIndex ==>
         |Data(r, c)| <= o.chunkMaxBytes || |FramesIn(r.frames, r.captured, c)| <= 1
  }

  lemma EncodedEmpty(frames: seq<Bytes>)
    ensures Encoded(frames) == [] ==> frames == []
  {
  }

  lemma FlushKeepsSize(o: Limits, r: Recorder)
    requires LayoutInv(r) && SizeInv(o, r)
    ensures SizeInv(o, Flushed(r))
  {
  }

  lemma PackKeepsSize(o: Limits, r: Recorder, key: string, data: Bytes, now: int)
    requires LayoutInv(r) && SizeInv(o, r) && key in r.targets && !MustRoll(o, r, |data|, now)
    ensures SizeInv(o, Packed(r, key, data, now))
  {
    var q := Packed(r, key, data, now);
    var n := |r.frames|;
    FlattenTwo(r.chunkBuffer, PrefixOf(|data|), data);
    assert q.frames[..n] == r.frames && q.captured[..n] == r.captured;
    forall c | 0 <= c <= q.chunkIndex
      ensures |Data(q, c)| <= o.chunkMaxBytes || |FramesIn(q.frames, q.captured, c)| <= 1
    {
      var before := FramesIn(r.frames, r.captured, c);
      assert ChunkHolds(r, c);
      if c == r.chunkIndex {
        EncodedEmpty(before);
      } else {
        assert FramesIn(q.frames, q.captured, c) == before + [] == before;
      }
    }
  }

  lemma SizeStep(o: Limits, r: Recorder, e: Event)
    requires LayoutInv(r) && SizeInv(o, r)
    ensures SizeInv(o, Step(o, r, e))
  {
    match e
    case Frame(key, data, now) =>
      if Recorded(o, r, key, data) {
        var q := Prepared(r, key, Fnv.HashByShifts(Units(data)));
        SamePlacesKeepLayout(r, q);
        SamePlacesKeepSize(o, r, q);
        FlushKeepsLayout(q);
        FlushKeepsSize(o, q);
        PackKeepsSize(o, if MustRoll(o, q, |data|, now) then Flushed(q) else q, key, data, now);
      } else {
        SamePlacesKeepSize(o, r, Framed(o, r, key, data, now));
      }
    case SessionEnd =>
      var q := r.(ending := true);
      SamePlacesKeepLayout(r, q);
      SamePlacesKeepSize(o, r, q);
      FlushKeepsSize(o, q);
    case _ => SamePlacesKeepSize(o, r, Step(o, r, e));
  }

  lemma SamePlacesKeepSize(o: Limits, r: Recorder, q: Recorder)
    requires SizeInv(o, r) && SamePlaces(r, q)
    ensures SizeInv(o, q)
  {
  }

  /** Bounds over whole runs: the byte total is the sum of the recorded lengths and stays under the cap
      plus the last frame; writes in flight stay within the limit, plus one at session end; every
      chunk fits or holds one frame. */
  lemma {:induction false} ReplayBounds(o: Limits, now: int, es: seq<Event>)
    ensures var r := Run(o, Started(now), es);
            LayoutInv(r) && CountInv(o, r) && WriteInv(o, r) && SizeInv(o, r)
  {
    if es == [] {
      var r := Started(now);
      forall c | 0 <= c <= r.chunkIndex ensures |Data(r, c)| <= o.chunkMaxBytes {
        assert Flatten([]) == [];
      }
    } else {
      var r := Run(o, Started(now), es[..|es| - 1]);
      var e := es[|es| - 1];
      ReplayBounds(o, now, es[..|es| - 1]);
      LayoutStep(o, r, e);
      CountStep(o, r, e);
      WriteStep(o, r, e);
      SizeStep(o, r, e);
    }
  }

  lemma {:induction false} SurvivingExactly(frames: seq<FrameRecord>, failed: set<nat>)
    ensures forall f :: f in Surviving(frames, failed) <==> f in frames && f.chunkIndex !in failed
  {
    if frames != [] {
      SurvivingExactly(frames[..|frames| - 1], failed);
      assert frames == frames[..|frames| - 1] + [frames[|frames| - 1]];
    }
  }

  /** Through record k the stored chunk gives back the captured bytes. */
  ghost predicate Readable(r: Recorder, f: FrameRecord) {
    && f.chunkIndex < |r.written| && 0 < f.frame <= |r.captured|
    && f.byteOffset + 4 + f.length <= |r.written[f.chunkIndex]|
    && r.written[f.chunkIndex][f.byteOffset + 4..f.byteOffset + 4 + f.length] == r.captured[f.frame - 1]
  }

  lemma EndedRecordsAreReadable(r: Recorder, k: nat)
    requires LayoutInv(r) && r.chunkBufferBytes == 0 && k < |r.frames|
    ensures Readable(r, r.frames[k])
  {
    assert RecordLeads(r, k);
  }

  /** The manifest names exactly the frames of chunks whose write succeeded, and every one of them
      can be read back from storage. */
  lemma ManifestIsReadable(o: Limits, now: int, es: seq<Event>, f: FrameRecord)
    requires Run(o, Started(now), es).manifest.Some?
    ensures var r := Run(o, Started(now), es);
            && (f in r.manifest.value.frames <==> f in r.frames && f.chunkIndex !in r.failedChunks)
            && (f in r.manifest.value.frames ==> Readable(r, f) && f.chunkIndex !in r.pendingWrites)
  {
    ReplayBounds(o, now, es);
    var r := Run(o, Started(now), es);
    SurvivingExactly(r.frames, r.failedChunks);
    if f in r.frames {
      var k :| 0 <= k < |r.frames| && r.frames[k] == f;
      EndedRecordsAreReadable(r, k);
    }
  }

  // ---------------------------------------------------------------- the recorder object

  /** concatBytes: copies the parts one behind the other into a new buffer. */
  method ConcatBytes(parts: seq<Bytes>, total: nat) returns (out: array<byte>)
    requires total == |Flatten(parts)|
    ensures fresh(out) && out[..] == Flatten(parts)
  {
    out := new byte[total](_ => 0);
    var off := 0;
    for i := 0 to |parts|
      invariant off == |Flatten(parts[..i])| <= out.Length
      invariant out[..off] == Flatten(parts[..i])
    {
      assert parts[..i + 1][..i] == parts[..i];
      PrefixLength(parts, i + 1);
      CopyInto(out, off, parts[i]);
      off := off + |parts[i]|;
    }
    assert parts[..|parts|] == parts;
    assert out[..] == out[..off];
  }

  lemma {:induction false} PrefixLength(parts: seq<Bytes>, i: nat)
    requires i <= |parts|
    ensures |Flatten(parts[..i])| <= |Flatten(parts)|
    decreases |parts| - i
  {
    if i == |parts| {
      assert parts[..i] == parts;
    } else {
      PrefixLength(parts, i + 1);
      assert parts[..i + 1][..i] == parts[..i];
    }
  }

  class ScreencastCapture {
    const limits: Limits
    var targets: map<string, Target>
    var frames: seq<FrameRecord>
    var droppedFrames: nat
    var duplicatesSkipped: nat
    var totalBytes: nat
    var capStopped: bool
    var truncationReason: Option<string>
    var ending: bool
    var failedChunks: set<nat>
    var chunkIndex: nat
    var chunkBuffer: seq<Bytes>
    var chunkBufferBytes: nat
    var chunkOpenedAt: int
    var pendingWrites: set<nat>
    var manifest: Option<Manifest>
    var written: seq<Bytes>
    ghost var captured: seq<Bytes>

    constructor (limits: Limits, now: int)
      ensures this.limits == limits && View() == Started(now)
    {
      this.limits := limits;
      targets, frames, droppedFrames, duplicatesSkipped, totalBytes := map[], [], 0, 0, 0;
      capStopped, truncationReason, ending, failedChunks := false, None, false, {};
      chunkIndex, chunkBuffer, chunkBufferBytes, chunkOpenedAt := 0, [], 0, now;
      pendingWrites, manifest, written := {}, None, [];
      captured := [];
    }

    ghost function View(): Recorder
      reads this
    {
      Recorder(targets, frames, droppedFrames, duplicatesSkipped, totalBytes, capStopped, truncationReason, ending,
               failedChunks, chunkIndex, chunkBuffer, chunkBufferBytes, chunkOpenedAt, pendingWrites, manifest,
               written, captured)
    }

    /** The buffer's byte count is right: what every flush relies on. */
    ghost predicate Valid()
      reads this
    {
      chunkBufferBytes == |Flatten(chunkBuffer)|
    }

    method StopCapture(reason: string)
      modifies this
      ensures View() == StoppedWith(old(View()), reason) && old(Valid()) == Valid()
    {
      if capStopped {
        return;
      }
      capStopped := true;
      truncationReason := Some(reason);
    }

    method BufferedBytes() returns (data: Bytes)
      requires Valid()
      ensures data == Flatten(chunkBuffer)
    {
      var out := ConcatBytes(chunkBuffer, chunkBufferBytes);
      data := out[..];
    }

    method FlushChunk()
      requires Valid()
      modifies this
      ensures Valid() && View() == Flushed(old(View()))
    {
      if chunkBufferBytes == 0 {
        return;
      }
      var data := BufferedBytes();
      HandOver(data);
    }

    method HandOver(data: Bytes)
      requires Valid() && chunkBufferBytes != 0 && data == Flatten(chunkBuffer)
      modifies this`written, this`pendingWrites, this`chunkIndex, this`chunkBuffer, this`chunkBufferBytes,
               this`chunkOpenedAt
      ensures Valid() && View() == Flushed(old(View()))
    {
      WriteOut(data);
      ResetBuffer();
    }

    method WriteOut(data: Bytes)
      modifies this`written, this`pendingWrites, this`chunkIndex
      ensures written == old(written) + [data] && pendingWrites == old(pendingWrites) + {old(chunkIndex)}
      ensures chunkIndex == old(chunkIndex) + 1
    {
      written := written + [data];
      pendingWrites := pendingWrites + {chunkIndex};
      chunkIndex := chunkIndex + 1;
    }

    method ResetBuffer()
      modifies this`chunkBuffer, this`chunkBufferBytes, this`chunkOpenedAt
      ensures Valid() && chunkBuffer == [] && chunkBufferBytes == 0 && chunkOpenedAt == 0
    {
      chunkBuffer := [];
      chunkBufferBytes := 0;
      chunkOpenedAt := 0;
    }

    method AppendFrameToBuffer(key: string, data: Bytes, now: int)
      requires Valid() && key in targets
      modifies this
      ensures Valid() && View() == Appended(limits, old(View()), key, data, now)
    {
      if chunkBufferBytes > 0 &&
         (chunkBufferBytes + |data| + 4 > limits.chunkMaxBytes || now - chunkOpenedAt > limits.chunkMaxElapsedMs) {
        FlushChunk();
      }
      Pack(key, data, now);
    }

    method Pack(key: string, data: Bytes, now: int)
      requires Valid() && key in targets
      modifies this
      ensures Valid() && View() == Packed(old(View()), key, data, now)
    {
      var byteOffset := chunkBufferBytes;
      PushBytes(data, now);
      NoteFrame(key, byteOffset, data);
    }

    method NoteFrame(key: string, byteOffset: nat, data: Bytes)
      requires key in targets
      modifies this`frames, this`targets, this`totalBytes, this`captured
      ensures View() == Noted(old(View()), key, byteOffset, data)
    {
      var target := targets[key];
      frames := frames + [FrameRecord(|frames| + 1, target.lastUrl, target.targetId, chunkIndex, byteOffset, |data|)];
      targets := targets[key := target.(frameCount := target.frameCount + 1, sizeBytes := target.sizeBytes + |data|)];
      totalBytes := totalBytes + |data|;
      captured := captured + [data];
    }

    method PushBytes(data: Bytes, now: int)
      requires Valid()
      modifies this`chunkBuffer, this`chunkBufferBytes, this`chunkOpenedAt
      ensures Valid() && View() == Pushed(old(View()), data, now)
    {
      FlattenTwo(chunkBuffer, PrefixOf(|data|), data);
      chunkBuffer := chunkBuffer + [PrefixOf(|data|), data];
      chunkBufferBytes := chunkBufferBytes + 4 + |data|;
      if chunkBufferBytes == 4 + |data| {
        chunkOpenedAt := now;
      }
    }

    /** The checks before a frame is recorded. */
    method JudgeFrame(key: string, hash: int) returns (verdict: Verdict)
      ensures verdict == Judge(limits, View(), key, hash)
    {
      if capStopped || ending || key !in targets {
        return Ignore;
      }
      if totalBytes >= limits.maxBytesPerSession {
        return Trip;
      }
      if limits.filterEmptyUrl && targets[key].lastUrl == "" {
        return Skip;
      }
      if |pendingWrites| >= limits.maxInFlight {
        return Drop;
      }
      return if targets[key].lastFrameHash == Some(hash) then Skip else Record;
    }

    method HandleScreencastFrame(key: string, data: Bytes, now: int)
      requires Valid()
      modifies this
      ensures Valid() && View() == Step(limits, old(View()), Frame(key, data, now))
    {
      var hash := Fnv.Fnv1a32(Units(data));
      var verdict := JudgeFrame(key, hash);
      match verdict {
        case Ignore =>
        case Trip => StopCapture("byte-cap");
        case Record => RecordFrame(key, data, hash, now);
        case _ => CountOnly(verdict == Skip);
      }
    }

    method CountOnly(skip: bool)
      requires Valid()
      modifies this`duplicatesSkipped, this`droppedFrames
      ensures Valid()
      ensures View() == if skip then old(View()).(duplicatesSkipped := old(duplicatesSkipped) + 1)
                        else old(View()).(droppedFrames := old(droppedFrames) + 1)
    {
      if skip {
        duplicatesSkipped := duplicatesSkipped + 1;
      } else {
        droppedFrames := droppedFrames + 1;
      }
    }

    method RecordFrame(key: string, data: Bytes, hash: int, now: int)
      requires Valid() && key in targets
      modifies this
      ensures Valid() && View() == Appended(limits, Prepared(old(View()), key, hash), key, data, now)
    {
      Prepare(key, hash);
      AppendFrameToBuffer(key, data, now);
    }

    method Prepare(key: string, hash: int)
      requires key in targets
      modifies this`targets
      ensures View() == Prepared(old(View()), key, hash)
    {
      targets := targets[key := targets[key].(lastFrameHash := Some(hash))];
    }

    method OnWriteSettled(chunk: nat, ok: bool)
      requires Valid()
      modifies this
      ensures Valid() && View() == Step(limits, old(View()), WriteSettled(chunk, ok))
    {
      if chunk !in pendingWrites {
        return;
      }
      if !ok {
        failedChunks := failedChunks + {chunk};
      }
      pendingWrites := pendingWrites - {chunk};
    }

    /** onSessionEnd up to the wait for outstanding writes. */
    method OnSessionEnd()
      requires Valid()
      modifies this
      ensures Valid() && View() == Step(limits, old(View()), SessionEnd)
    {
      if ending {
        return;
      }
      ending := true;
      FlushChunk();
    }

    /** The rest of onSessionEnd: the manifest, without the frames of failed chunks. */
    method WriteManifest()
      requires Valid()
      modifies this
      ensures Valid() && View() == Step(limits, old(View()), WritesDone)
    {
      if !ending || pendingWrites != {} || manifest.Some? {
        return;
      }
      var kept, sizeBytes := KeepSurviving();
      manifest := Some(Manifest(kept, sizeBytes, droppedFrames, duplicatesSkipped, truncationReason));
    }

    /** The frames of chunks that did not fail, and the sum of their lengths. */
    method KeepSurviving() returns (kept: seq<FrameRecord>, sizeBytes: nat)
      ensures kept == Surviving(frames, failedChunks) && sizeBytes == SumLengths(kept)
    {
      kept, sizeBytes := [], 0;
      for i := 0 to |frames|
        invariant kept == Surviving(frames[..i], failedChunks) && sizeBytes == SumLengths(kept)
      {
        assert frames[..i + 1][..i] == frames[..i];
        if frames[i].chunkIndex !in failedChunks {
          assert (kept + [frames[i]])[..|kept|] == kept;
          kept := kept + [frames[i]];
          sizeBytes := sizeBytes + frames[i].length;
        }
      }
      assert frames[..|frames|] == frames;
    }

    /** Target.attachedToTarget for a page or iframe. */
    method ArmTarget(key: string, targetId: string)
      requires Valid()
      modifies this
      ensures Valid() && View() == Step(limits, old(View()), Attached(key, targetId))
    {
      if !capStopped && !ending && key !in targets {
        targets := targets[key := Target(targetId, 0, 0, "", None)];
      }
    }

    /** Target.detachedFromTarget. */
    method DisarmTarget(key: string)
      requires Valid()
      modifies this
      ensures Valid() && View() == Step(limits, old(View()), Detached(key))
    {
      if !capStopped && !ending {
        targets := targets - {key};
      }
    }

    /** Page.frameNavigated of a top frame. */
    method OnNavigated(key: string, url: string)
      requires Valid()
      modifies this
      ensures Valid() && View() == Step(limits, old(View()), Navigated(key, url))
    {
      if !capStopped && !ending && key in targets && url != "" {
        targets := targets[key := targets[key].(lastUrl := url)];
      }
    }

    /** The external stop signal; detached once the session ends. */
    method OnAbort(reason: string)
      requires Valid()
      modifies this
      ensures Valid() && View() == Step(limits, old(View()), Abort(reason))
    {
      if !ending {
        StopCapture(reason);
      }
    }
  }
}
