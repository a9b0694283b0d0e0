/** What a recording owes to the events of its run: which frames were recorded, dropped or skipped,
    where their records point and why capture stopped, told from the events alone. */
module Recording {
  import opened Basics
  import opened Buffers
  import opened Replay
  import Fnv

  // ---------------------------------------------------------------- the history of a target

  /** One arming of a target: who it is, where it was navigated to last, what was recorded of it. */
  datatype Arming = Arming(targetId: string, url: string, recorded: seq<Bytes>) {
    /** The hash of the last frame recorded since it was armed. */
    function LastHash(): Option<int> {
      if recorded == [] then None else Some(Fnv.HashByProducts(Units(recorded[|recorded| - 1])))
    }
  }

  /** Was the last event a frame that got into the recording? */
  predicate Captures(o: Limits, now: int, es: seq<Event>)
    requires es != []
  {
    Run(o, Started(now), es).captured != Run(o, Started(now), es[..|es| - 1]).captured
  }

  /** The present arming of a target, from the events since it was attached. */
  function ArmingOf(o: Limits, now: int, es: seq<Event>, key: string): Option<Arming> {
    if es == [] then None else
      var r, a := Run(o, Started(now), es[..|es| - 1]), ArmingOf(o, now, es[..|es| - 1], key);
      if r.capStopped || r.ending then a else ArmingAfter(a, es[|es| - 1], key, Captures(o, now, es))
  }

  /** What one event makes of it while capture goes on. */
  function ArmingAfter(a: Option<Arming>, e: Event, key: string, captured: bool): Option<Arming> {
    match e
    case Attached(k, targetId) => if k == key && a.None? then Some(Arming(targetId, "", [])) else a
    case Detached(k) => if k == key then None else a
    case Navigated(k, url) => if k == key && a.Some? && url != "" then Some(a.value.(url := url)) else a
    case Frame(k, data, _) =>
      if k == key && a.Some? && captured then Some(a.value.(recorded := a.value.recorded + [data])) else a
    case _ => a
  }

  function TotalLength(frames: seq<Bytes>): nat {
    if frames == [] then 0 else TotalLength(frames[..|frames| - 1]) + |frames[|frames| - 1]|
  }

  /** The target's record says what the history says. */
  predicate Remembers(t: Target, a: Arming) {
    && t.targetId == a.targetId && t.lastUrl == a.url && t.lastFrameHash == a.LastHash()
    && t.frameCount == |a.recorded| && t.sizeBytes == TotalLength(a.recorded)
  }

  predicate SameMemory(r: Recorder, key: string, a: Option<Arming>) {
    (key in r.targets <==> a.Some?) && (key in r.targets ==> Remembers(r.targets[key], a.value))
  }

  lemma FramedTargets(o: Limits, r: Recorder, key: string, data: Bytes, now: int)
    ensures var q := Framed(o, r, key, data, now);
            var hash := Fnv.HashByProducts(Units(data));
            if q.captured == r.captured then q.targets == r.targets
            else
              && key in r.targets
              && var t := r.targets[key];
                 q.targets == r.targets[key := t.(lastFrameHash := Some(hash), frameCount := t.frameCount + 1,
                                                  sizeBytes := t.sizeBytes + |data|)]
  {
    Fnv.HashesAgree(Units(data));
    var q := Framed(o, r, key, data, now);
    if Recorded(o, r, key, data) {
      assert q.captured == r.captured + [data];
    }
  }

  lemma FrameRemembered(o: Limits, r: Recorder, key: string, e: Event, a: Option<Arming>)
    requires e.Frame? && SameMemory(r, key, a)
    ensures var q := Step(o, r, e); SameMemory(q, key, ArmingAfter(a, e, key, q.captured != r.captured))
  {
    FramedTargets(o, r, e.key, e.data, e.now);
    if a.Some? {
      assert (a.value.recorded + [e.data])[..|a.value.recorded|] == a.value.recorded;
    }
  }

  lemma OtherRemembered(o: Limits, r: Recorder, key: string, e: Event, a: Option<Arming>)
    requires !e.Frame? && SameMemory(r, key, a)
    ensures SameMemory(Step(o, r, e), key, if r.capStopped || r.ending then a else ArmingAfter(a, e, key, false))
  {
  }

  /** After capture has stopped no frame is recorded. */
  lemma StoppedCapturesNothing(o: Limits, r: Recorder, e: Event)
    requires r.capStopped || r.ending
    ensures Step(o, r, e).captured == r.captured
  {
  }

  /** What the recorder keeps of a target is its history since it was armed. */
  lemma {:induction false} TargetsAreArmings(o: Limits, now: int, es: seq<Event>, key: string)
    ensures SameMemory(Run(o, Started(now), es), key, ArmingOf(o, now, es, key))
  {
    if es != [] {
      var earlier, e := es[..|es| - 1], es[|es| - 1];
      var r, a := Run(o, Started(now), earlier), ArmingOf(o, now, earlier, key);
      TargetsAreArmings(o, now, earlier, key);
      assert Captures(o, now, es) <==> Step(o, r, e).captured != r.captured;
      if e.Frame? {
        FrameRemembered(o, r, key, e, a);
        if r.capStopped || r.ending {
          StoppedCapturesNothing(o, r, e);
        }
      } else {
        OtherRemembered(o, r, key, e, a);
      }
    }
  }

  // ---------------------------------------------------------------- what becomes of a frame

  /** A frame of an armed target that finds the byte cap not yet reached. */
  predicate Counts(o: Limits, r: Recorder, e: Event) {
    && e.Frame? && e.key in r.targets && !r.capStopped && !r.ending
    && r.totalBytes < o.maxBytesPerSession
  }

  /** Its target has been navigated nowhere and such frames are filtered. */
  predicate Filtered(o: Limits, a: Arming) {
    o.filterEmptyUrl && a.url == ""
  }

  predicate DropsIt(o: Limits, r: Recorder, a: Arming) {
    !Filtered(o, a) && o.maxInFlight <= |r.pendingWrites|
  }

  /** Filtered, or a repetition, by its hash, of the last frame recorded for this arming. */
  predicate SkipsIt(o: Limits, r: Recorder, a: Arming, data: Bytes) {
    || Filtered(o, a)
    || (|r.pendingWrites| < o.maxInFlight && a.LastHash() == Some(Fnv.HashByProducts(Units(data))))
  }

  /** Counted as dropped, counted as skipped, or captured. */
  predicate Counted(r: Recorder, q: Recorder, drops: bool, skips: bool, data: Bytes) {
    && q.droppedFrames == r.droppedFrames + (if drops then 1 else 0)
    && q.duplicatesSkipped == r.duplicatesSkipped + (if skips then 1 else 0)
    && q.captured == r.captured + (if drops || skips then [] else [data])
    && !q.capStopped && q.truncationReason == r.truncationReason
  }

  lemma FrameStep(o: Limits, r: Recorder, e: Event, a: Arming)
    requires Counts(o, r, e) && Remembers(r.targets[e.key], a)
    ensures Counted(r, Step(o, r, e), DropsIt(o, r, a), SkipsIt(o, r, a, e.data), e.data)
  {
    Fnv.HashesAgree(Units(e.data));
  }

  /** Every arriving frame below the cap adds one to the dropped frames exactly if its url passes and
      maxInFlight writes are out, one to the skipped ones exactly if it is filtered or, with room
      in flight, hashes as the last frame recorded for this arming; otherwise it is captured. */
  lemma FrameMeaning(o: Limits, now: int, es: seq<Event>, e: Event)
    requires Counts(o, Run(o, Started(now), es), e)
    ensures ArmingOf(o, now, es, e.key).Some?
    ensures var r, a := Run(o, Started(now), es), ArmingOf(o, now, es, e.key).value;
            Counted(r, Run(o, Started(now), es + [e]), DropsIt(o, r, a), SkipsIt(o, r, a, e.data), e.data)
  {
    assert (es + [e])[..|es|] == es;
    TargetsAreArmings(o, now, es, e.key);
    FrameStep(o, Run(o, Started(now), es), e, ArmingOf(o, now, es, e.key).value);
  }

  /** Nothing else is counted or captured. */
  lemma OtherEventsCountNothing(o: Limits, r: Recorder, e: Event)
    requires !Counts(o, r, e)
    ensures var q := Step(o, r, e);
            && q.droppedFrames == r.droppedFrames && q.duplicatesSkipped == r.duplicatesSkipped
            && q.captured == r.captured && q.frames == r.frames
  {
  }

  /** What the recorder knows when the event comes of the arming it is about. */
  function Known(o: Limits, now: int, es: seq<Event>, key: string): Arming {
    ArmingOf(o, now, es, key).GetOr(Arming("", "", []))
  }

  datatype Fate = Uncounted | Dropped | Skipped | Captured

  function FateOf(o: Limits, now: int, es: seq<Event>, e: Event): Fate {
    var r := Run(o, Started(now), es);
    if !Counts(o, r, e) then Uncounted
    else if DropsIt(o, r, Known(o, now, es, e.key)) then Dropped
    else if SkipsIt(o, r, Known(o, now, es, e.key), e.data) then Skipped
    else Captured
  }

  /** How many of the events met this fate. */
  function CountFate(o: Limits, now: int, es: seq<Event>, fate: Fate): nat {
    if es == [] then 0 else
      CountFate(o, now, es[..|es| - 1], fate) + if FateOf(o, now, es[..|es| - 1], es[|es| - 1]) == fate then 1 else 0
  }

  /** The bytes of the frames among the events that are neither dropped nor skipped. */
  function Recordings(o: Limits, now: int, es: seq<Event>): seq<Bytes> {
    if es == [] then [] else
      var e := es[|es| - 1];
      Recordings(o, now, es[..|es| - 1]) +
      if FateOf(o, now, es[..|es| - 1], e) == Captured then [e.data] else []
  }

  lemma FateMeaning(o: Limits, now: int, es: seq<Event>, e: Event)
    ensures var r, q := Run(o, Started(now), es), Run(o, Started(now), es + [e]);
            var fate := FateOf(o, now, es, e);
            && q.droppedFrames == r.droppedFrames + (if fate == Dropped then 1 else 0)
            && q.duplicatesSkipped == r.duplicatesSkipped + (if fate == Skipped then 1 else 0)
            && q.captured == r.captured + (if fate == Captured then [e.data] else [])
  {
    assert (es + [e])[..|es|] == es;
    if Counts(o, Run(o, Started(now), es), e) {
      FrameMeaning(o, now, es, e);
    } else {
      OtherEventsCountNothing(o, Run(o, Started(now), es), e);
    }
  }

  /** The counters and the captured frames, in order, are those of the events. */
  lemma {:induction false} CapturedAreRecordings(o: Limits, now: int, es: seq<Event>)
    ensures var r := Run(o, Started(now), es);
            && r.captured == Recordings(o, now, es)
            && r.droppedFrames == CountFate(o, now, es, Dropped)
            && r.duplicatesSkipped == CountFate(o, now, es, Skipped)
  {
    if es != [] {
      CapturedAreRecordings(o, now, es[..|es| - 1]);
      FateMeaning(o, now, es[..|es| - 1], es[|es| - 1]);
      assert es[..|es| - 1] + [es[|es| - 1]] == es;
    }
  }

  // ---------------------------------------------------------------- why capture stopped

  /** The first reason given: an abort before the end, or a frame that finds the cap reached. */
  function FirstReason(o: Limits, now: int, es: seq<Event>): Option<string> {
    if es == [] then None else
      var r, e, before := Run(o, Started(now), es[..|es| - 1]), es[|es| - 1], FirstReason(o, now, es[..|es| - 1]);
      if before.Some? then before
      else if e.Abort? && !r.ending then Some(e.reason)
      else if e.Frame? && e.key in r.targets && !r.ending && o.maxBytesPerSession <= r.totalBytes then Some("byte-cap")
      else None
  }

  lemma {:induction false} StopMeaning(o: Limits, now: int, es: seq<Event>)
    ensures var r := Run(o, Started(now), es);
            r.truncationReason == FirstReason(o, now, es) && r.capStopped == FirstReason(o, now, es).Some?
  {
    if es != [] {
      var r, e := Run(o, Started(now), es[..|es| - 1]), es[|es| - 1];
      StopMeaning(o, now, es[..|es| - 1]);
      StopStep(o, r, e);
    }
  }

  lemma StopStep(o: Limits, r: Recorder, e: Event)
    requires r.truncationReason.Some? == r.capStopped
    ensures var q := Step(o, r, e);
            && q.capStopped == q.truncationReason.Some?
            && q.truncationReason ==
               (if r.capStopped then r.truncationReason
                else if e.Abort? && !r.ending then Some(e.reason)
                else if e.Frame? && e.key in r.targets && !r.ending && o.maxBytesPerSession <= r.totalBytes
                then Some("byte-cap")
                else None)
  {
  }

  predicate Ends(es: seq<Event>) {
    es != [] && (Ends(es[..|es| - 1]) || es[|es| - 1].SessionEnd?)
  }

  /** The manifest has been due: the session had ended and nothing was in flight any more. */
  predicate Closes(o: Limits, now: int, es: seq<Event>) {
    es != [] &&
      (Closes(o, now, es[..|es| - 1]) ||
       (es[|es| - 1].WritesDone? && Ends(es[..|es| - 1]) && Run(o, Started(now), es[..|es| - 1]).pendingWrites == {}))
  }

  /** The recorder is ending exactly if the session has ended, and there is a manifest exactly once it
      has been due. */
  lemma {:induction false} EndMeaning(o: Limits, now: int, es: seq<Event>)
    ensures Run(o, Started(now), es).ending <==> Ends(es)
    ensures Run(o, Started(now), es).manifest.Some? <==> Closes(o, now, es)
  {
    if es != [] {
      EndMeaning(o, now, es[..|es| - 1]);
      EndStep(o, Run(o, Started(now), es[..|es| - 1]), es[|es| - 1]);
    }
  }

  lemma EndStep(o: Limits, r: Recorder, e: Event)
    ensures Step(o, r, e).ending <==> r.ending || e.SessionEnd?
    ensures Step(o, r, e).manifest.Some? <==> r.manifest.Some? || (e.WritesDone? && r.ending && r.pendingWrites == {})
  {
  }

  /** The manifest reports the counters and the reason as they were when the session ended. */
  lemma {:induction false} ManifestCounts(o: Limits, now: int, es: seq<Event>)
    ensures var r := Run(o, Started(now), es);
            r.manifest.Some? ==>
              && r.ending && r.manifest.value.droppedFrames == r.droppedFrames
              && r.manifest.value.duplicatesSkipped == r.duplicatesSkipped
              && r.manifest.value.truncated == r.truncationReason
  {
    if es != [] {
      ManifestCounts(o, now, es[..|es| - 1]);
      var r := Run(o, Started(now), es[..|es| - 1]);
      if r.ending {
        EndedStays(o, r, es[|es| - 1]);
      }
    }
  }

  lemma EndedStays(o: Limits, r: Recorder, e: Event)
    requires r.ending
    ensures var q := Step(o, r, e);
            && q.ending && q.droppedFrames == r.droppedFrames && q.duplicatesSkipped == r.duplicatesSkipped
            && q.truncationReason == r.truncationReason && q.frames == r.frames && q.captured == r.captured
            && (r.manifest.Some? ==> q.manifest == r.manifest)
  {
  }

  // ---------------------------------------------------------------- where a record points

  /** When the open chunk got its first frame. */
  function OpenedAt(o: Limits, now: int, es: seq<Event>): int {
    if es == [] then now else
      var e, q := es[|es| - 1], Run(o, Started(now), es);
      if e.Frame? && Captures(o, now, es) && q.frames != [] && q.frames[|q.frames| - 1].byteOffset == 0 then e.now
      else OpenedAt(o, now, es[..|es| - 1])
  }

  /** Where the last recorded frame ends. */
  function EndOf(r: Recorder): nat {
    if r.frames == [] then 0 else r.frames[|r.frames| - 1].byteOffset + 4 + r.frames[|r.frames| - 1].length
  }

  /** Until the session ends the open chunk is that of the last record. */
  ghost predicate OpenChunk(o: Limits, now: int, es: seq<Event>) {
    var r := Run(o, Started(now), es);
    !r.ending ==>
      && r.chunkBufferBytes == EndOf(r) && |r.frames| == |r.captured|
      && r.chunkIndex == (if r.frames == [] then 0 else r.frames[|r.frames| - 1].chunkIndex)
      && (r.frames != [] ==> r.chunkOpenedAt == OpenedAt(o, now, es))
  }

  /** Does the frame overfill the open chunk, or has that been open too long? */
  predicate Overdue(o: Limits, r: Recorder, length: nat, now: int, openedAt: int) {
    EndOf(r) + length + 4 > o.chunkMaxBytes || now - openedAt > o.chunkMaxElapsedMs
  }

  /** Where a recorded frame goes: the first to the start of chunk zero; then right behind the one
      before, unless that chunk would overfill or is too old: then to the start of the next. */
  predicate PlacedRightly(o: Limits, r: Recorder, f: FrameRecord, now: int, openedAt: int) {
    if r.frames == [] then f.chunkIndex == 0 && f.byteOffset == 0
    else if Overdue(o, r, f.length, now, openedAt)
    then f.chunkIndex == r.frames[|r.frames| - 1].chunkIndex + 1 && f.byteOffset == 0
    else f.chunkIndex == r.frames[|r.frames| - 1].chunkIndex && f.byteOffset == EndOf(r)
  }

  lemma AppendPlaces(o: Limits, r: Recorder, key: string, data: Bytes, now: int)
    requires Recorded(o, r, key, data) && r.chunkBufferBytes == EndOf(r)
    requires r.chunkIndex == if r.frames == [] then 0 else r.frames[|r.frames| - 1].chunkIndex
    ensures var q := Framed(o, r, key, data, now);
            && |q.frames| == |r.frames| + 1 && q.captured == r.captured + [data]
            && var f := q.frames[|r.frames|];
               && q.frames == r.frames + [f]
               && f.targetId == r.targets[key].targetId && f.url == r.targets[key].lastUrl
               && f.length == |data| && f.frame == |q.frames|
               && PlacedRightly(o, r, f, now, r.chunkOpenedAt)
               && q.chunkIndex == f.chunkIndex && q.chunkBufferBytes == EndOf(q)
               && q.chunkOpenedAt == if f.byteOffset == 0 then now else r.chunkOpenedAt
  {
  }

  lemma {:induction false} OpenChunkRun(o: Limits, now: int, es: seq<Event>)
    ensures OpenChunk(o, now, es)
  {
    if es != [] {
      var earlier, e := es[..|es| - 1], es[|es| - 1];
      var r := Run(o, Started(now), earlier);
      OpenChunkRun(o, now, earlier);
      if e.Frame? && Recorded(o, r, e.key, e.data) {
        AppendPlaces(o, r, e.key, e.data, e.now);
      } else {
        NotRecorded(o, r, e);
      }
    }
  }

  lemma NotRecorded(o: Limits, r: Recorder, e: Event)
    requires e.Frame? ==> !Recorded(o, r, e.key, e.data)
    ensures var q := Step(o, r, e);
            && q.frames == r.frames && q.captured == r.captured && (r.ending ==> q.ending)
            && (!q.ending ==> q.chunkIndex == r.chunkIndex && q.chunkBufferBytes == r.chunkBufferBytes &&
                              q.chunkOpenedAt == r.chunkOpenedAt)
  {
  }

  /** A captured frame gets one record, with its target and url as the events gave them, its
      length, its number, and the place that the record before, the chunk limits and the time of the
      chunk's first frame determine. */
  lemma RecordMeaning(o: Limits, now: int, es: seq<Event>, e: Event)
    requires FateOf(o, now, es, e) == Captured
    ensures var r, q := Run(o, Started(now), es), Run(o, Started(now), es + [e]);
            var a := Known(o, now, es, e.key);
            && |q.frames| == |r.frames| + 1
            && var f := q.frames[|r.frames|];
               && q.frames == r.frames + [f]
               && f.targetId == a.targetId && f.url == a.url && f.length == |e.data| && f.frame == |r.frames| + 1
               && PlacedRightly(o, r, f, e.now, OpenedAt(o, now, es))
  {
    assert (es + [e])[..|es|] == es;
    var r := Run(o, Started(now), es);
    TargetsAreArmings(o, now, es, e.key);
    Fnv.HashesAgree(Units(e.data));
    OpenChunkRun(o, now, es);
    AppendPlaces(o, r, e.key, e.data, e.now);
  }

  // ---------------------------------------------------------------- what was stored

  /** The chunks handed to storage whose write has not settled. */
  function Outstanding(o: Limits, now: int, es: seq<Event>): set<nat> {
    if es == [] then {} else
      var before, e := Outstanding(o, now, es[..|es| - 1]), es[|es| - 1];
      var r, q := Run(o, Started(now), es[..|es| - 1]), Run(o, Started(now), es);
      (if e.WriteSettled? then before - {e.chunk} else before) + if |r.written| < |q.written| then {|r.written|} else {}
  }

  /** The chunks whose write was reported to have failed. */
  function FailedWrites(o: Limits, now: int, es: seq<Event>): set<nat> {
    if es == [] then {} else
      var before, e := FailedWrites(o, now, es[..|es| - 1]), es[|es| - 1];
      if e.WriteSettled? && !e.ok && e.chunk in Outstanding(o, now, es[..|es| - 1]) then before + {e.chunk} else before
  }

  /** Whatever was handed over is in flight; nothing failed by that. */
  predicate HandedOver(r: Recorder, q: Recorder) {
    && |q.written| == q.chunkIndex && q.failedChunks == r.failedChunks
    && q.pendingWrites == r.pendingWrites + if |r.written| < |q.written| then {|r.written|} else {}
  }

  lemma FlushHandsOver(r: Recorder)
    requires |r.written| == r.chunkIndex
    ensures HandedOver(r, Flushed(r))
  {
  }

  lemma FrameHandsOver(o: Limits, r: Recorder, key: string, data: Bytes, now: int)
    requires |r.written| == r.chunkIndex
    ensures HandedOver(r, Framed(o, r, key, data, now))
  {
    if Recorded(o, r, key, data) {
      FlushHandsOver(Prepared(r, key, Fnv.HashByShifts(Units(data))));
    }
  }

  lemma WriteStepMeaning(o: Limits, r: Recorder, e: Event)
    requires |r.written| == r.chunkIndex
    ensures var q := Step(o, r, e);
            if e.WriteSettled? then
              && q.written == r.written && q.chunkIndex == r.chunkIndex
              && q.pendingWrites == r.pendingWrites - {e.chunk}
              && q.failedChunks == if !e.ok && e.chunk in r.pendingWrites then r.failedChunks + {e.chunk}
                                   else r.failedChunks
            else HandedOver(r, q)
  {
    match e
    case Frame(key, data, now) => FrameHandsOver(o, r, key, data, now);
    case SessionEnd => FlushHandsOver(r.(ending := true));
    case _ =>
  }

  /** The writes in flight and the failed chunks are those of the events. */
  lemma {:induction false} WritesMeaning(o: Limits, now: int, es: seq<Event>)
    ensures var r := Run(o, Started(now), es);
            && |r.written| == r.chunkIndex
            && r.pendingWrites == Outstanding(o, now, es) && r.failedChunks == FailedWrites(o, now, es)
  {
    if es != [] {
      WritesMeaning(o, now, es[..|es| - 1]);
      WriteStepMeaning(o, Run(o, Started(now), es[..|es| - 1]), es[|es| - 1]);
    }
  }

  /** Numbered from one, in order. */
  predicate Ascending(frames: seq<FrameRecord>) {
    forall i, j :: 0 <= i < j < |frames| ==> frames[i].frame < frames[j].frame
  }

  lemma {:induction false} SurvivingAscend(frames: seq<FrameRecord>, failed: set<nat>)
    requires Ascending(frames)
    ensures Ascending(Surviving(frames, failed))
  {
    if frames != [] {
      var front, last := frames[..|frames| - 1], frames[|frames| - 1];
      SurvivingAscend(front, failed);
      SurvivingExactly(front, failed);
      assert forall f :: f in front ==> f.frame < last.frame;
      var kept := Surviving(front, failed);
      assert forall i :: 0 <= i < |kept| ==> kept[i] in kept;
    }
  }

  /** The manifest lists its frames in the order they were recorded. */
  lemma ManifestInOrder(o: Limits, now: int, es: seq<Event>)
    requires Run(o, Started(now), es).manifest.Some?
    ensures Ascending(Run(o, Started(now), es).manifest.value.frames)
  {
    ReplayBounds(o, now, es);
    var r := Run(o, Started(now), es);
    forall k | 0 <= k < |r.frames| ensures r.frames[k].frame == k + 1 {
      assert RecordLeads(r, k);
    }
    SurvivingAscend(r.frames, r.failedChunks);
  }
}
