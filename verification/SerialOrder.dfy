/** Order. The buffer mutex is released before the file mutex is taken, so two flushers may write
    their blocks in either order. As long as no two blocks are in flight at once the log file
    followed by the block in flight and the live bytes is the accepted history in append order. */
module SerialOrder {
  import opened Bytes
  import opened Appenders
  import opened LogBuffers
  import opened Pipeline
  import Conservation

  predicate Serial(s: State) {
    forall a, b :: a in s.inflight && b in s.inflight ==> a == b
  }

  /** A run in which every state, from s to t, has at most one block in flight. */
  predicate SerialRun(s: State, es: seq<Event>, t: State)
    decreases |es|
  {
    && Serial(s)
    && if es == [] then s == t
       else Structure(s) && Enabled(s, es[0]) && SerialRun(Step(s, es[0]), es[1..], t)
  }

  // ---- block numbers, in drain order

  function KeptIds(place: seq<Place>): seq<nat> {
    if place == [] then []
    else
      var n := |place| - 1;
      KeptIds(place[..n]) + if place[n].Lost? then [] else [n]
  }

  function FileIds(file: seq<Block>): (ids: seq<nat>)
    ensures |ids| == |file| && forall j :: 0 <= j < |file| ==> ids[j] == file[j].id
  {
    seq(|file|, j requires 0 <= j < |file| => file[j].id)
  }

  /** The block in flight, if any, as the tail of an id list. */
  predicate IsFlightTail(s: State, tail: seq<nat>) {
    if s.inflight == map[] then tail == []
    else exists a :: a in s.inflight && tail == [s.inflight[a].id]
  }

  /** The blocks not lost are, in drain order, those of the file and then the one in flight. */
  ghost predicate InOrder(s: State) {
    exists tail :: IsFlightTail(s, tail) && KeptIds(s.place) == FileIds(s.file) + tail
  }

  lemma {:induction false} KeptSame(p: seq<Place>, q: seq<Place>)
    requires |p| == |q| && forall k :: 0 <= k < |p| ==> p[k].Lost? == q[k].Lost?
    ensures KeptIds(p) == KeptIds(q)
    decreases |p|
  {
    if p != [] {
      var n := |p| - 1;
      KeptSame(p[..n], q[..n]);
    }
  }

  lemma {:induction false} KeptBounded(p: seq<Place>)
    ensures forall i :: 0 <= i < |KeptIds(p)| ==> KeptIds(p)[i] < |p|
    decreases |p|
  {
    if p != [] {
      KeptBounded(p[..|p| - 1]);
    }
  }

  /** Losing the last kept block removes just that number. */
  lemma {:induction false} KeptDropLast(p: seq<Place>, q: seq<Place>, pre: seq<nat>, x: nat)
    requires KeptIds(p) == pre + [x] && |q| == |p| && x < |p|
    requires forall k :: 0 <= k < |p| ==> q[k].Lost? == (p[k].Lost? || k == x)
    ensures KeptIds(q) == pre
    decreases |p|
  {
    var n := |p| - 1;
    if p[n].Lost? {
      KeptBounded(p[..n]);
      assert (pre + [x])[|pre|] == x;
      KeptDropLast(p[..n], q[..n], pre, x);
    } else {
      assert KeptIds(p)[|pre|] == n == x;
      KeptSame(p[..n], q[..n]);
      assert KeptIds(p)[..|pre|] == pre;
    }
  }

  lemma KeptSnoc(p: seq<Place>, x: Place)
    ensures KeptIds(p + [x]) == KeptIds(p) + if x.Lost? then [] else [|p|]
  {
    assert (p + [x])[..|p|] == p;
  }

  lemma StepStaysInOrder(s: State, e: Event)
    requires Inv(s) && Enabled(s, e) && Serial(s) && Serial(Step(s, e)) && InOrder(s)
    ensures InOrder(Step(s, e))
  {
    var tail :| IsFlightTail(s, tail) && KeptIds(s.place) == FileIds(s.file) + tail;
    hide InOrder, IsFlightTail, KeptIds, AreaInv, BlocksInv, PlaceInv;
    match e {
      case Append(record) => AppendInOrder(s, record, tail);
      case Drain(who) => DrainInOrder(s, who, tail);
      case Open(who) => DrainInOrder(s.(v := Attach(s.v.mem), up := true), who, tail);
      case Land(who, ok) => LandInOrder(s, who, ok, tail);
      case Wipe => WipeInOrder(s, tail);
      case Crash => CrashInOrder(s, tail);
    }
  }

  lemma AppendInOrder(s: State, record: seq<byte>, tail: seq<nat>)
    requires Structure(s) && IsRecord(record)
    requires IsFlightTail(s, tail) && KeptIds(s.place) == FileIds(s.file) + tail
    ensures InOrder(AppendStep(s, record))
  {
    assert IsFlightTail(AppendStep(s, record), tail);
  }

  lemma WipeInOrder(s: State, tail: seq<nat>)
    requires Structure(s)
    requires IsFlightTail(s, tail) && KeptIds(s.place) == FileIds(s.file) + tail
    ensures InOrder(WipeStep(s))
  {
    assert IsFlightTail(WipeStep(s), tail);
    KeptSnoc(s.place, Lost(WipedByClose));
    assert KeptIds(s.place) + [] == KeptIds(s.place);
  }

  lemma DrainInOrder(s: State, who: nat, tail: seq<nat>)
    requires Structure(s) && PlaceInv(s) && who !in s.inflight && Serial(DrainStep(s, who))
    requires IsFlightTail(s, tail) && KeptIds(s.place) == FileIds(s.file) + tail
    ensures InOrder(DrainStep(s, who))
  {
    var t := DrainStep(s, who);
    if Drained(s.v).Some? {
      assert who in t.inflight;
      forall a ensures a !in s.inflight {
        assert a in s.inflight ==> a in t.inflight;
      }
      assert s.inflight == map[] && tail == [];
      KeptSnoc(s.place, InFlight(who));
      assert IsFlightTail(t, [|s.place|]);
      assert KeptIds(t.place) == FileIds(t.file) + [|s.place|];
    } else {
      assert IsFlightTail(t, tail);
    }
  }

  lemma LandInOrder(s: State, who: nat, ok: bool, tail: seq<nat>)
    requires Inv(s) && Enabled(s, Land(who, ok)) && Serial(s)
    requires IsFlightTail(s, tail) && KeptIds(s.place) == FileIds(s.file) + tail
    ensures InOrder(LandStep(s, who, ok))
  {
    var t := LandStep(s, who, ok);
    var id := s.inflight[who].id;
    assert tail == [id];
    assert t.inflight == map[];
    assert IsFlightTail(t, []);
    if ok {
      KeptSame(s.place, t.place);
      assert FileIds(t.file) == FileIds(s.file) + [id];
    } else {
      KeptDropLast(s.place, t.place, FileIds(s.file), id);
    }
    assert KeptIds(t.place) == FileIds(t.file) + [];
  }

  lemma CrashInOrder(s: State, tail: seq<nat>)
    requires Inv(s) && Serial(s)
    requires IsFlightTail(s, tail) && KeptIds(s.place) == FileIds(s.file) + tail
    ensures InOrder(CrashStep(s))
  {
    var t := CrashStep(s);
    assert IsFlightTail(t, []);
    if s.inflight == map[] {
      KeptSame(s.place, t.place);
    } else {
      var a :| a in s.inflight && tail == [s.inflight[a].id];
      KeptDropLast(s.place, t.place, FileIds(s.file), s.inflight[a].id);
    }
    assert KeptIds(t.place) == FileIds(t.file) + [];
  }

  lemma {:induction false} SerialRunStaysInOrder(s: State, es: seq<Event>, t: State)
    requires Inv(s) && InOrder(s) && SerialRun(s, es, t)
    ensures Inv(t) && InOrder(t) && Serial(t)
    decreases |es|
  {
    if es != [] {
      var m := Step(s, es[0]);
      StepKeeps(s, es[0]);
      assert Serial(m);
      StepStaysInOrder(s, es[0]);
      SerialRunStaysInOrder(m, es[1..], t);
    }
  }

  // ---- the condition is needed

  lemma {:induction false} KeptAscends(p: seq<Place>)
    ensures forall i, j :: 0 <= i < j < |KeptIds(p)| ==> KeptIds(p)[i] < KeptIds(p)[j]
    decreases |p|
  {
    if p != [] {
      KeptAscends(p[..|p| - 1]);
      KeptBounded(p[..|p| - 1]);
    }
  }

  /** From any state with two blocks in flight, two successful writes put them into the file in
      the wrong order: the younger flusher takes the file mutex first. */
  lemma TwoInFlightCanReorder(s: State, older: nat, younger: nat)
    requires Inv(s) && older in s.inflight && younger in s.inflight
    requires s.inflight[older].id < s.inflight[younger].id
    ensures Enabled(s, Land(younger, true)) && Enabled(LandStep(s, younger, true), Land(older, true))
    ensures var t := LandStep(LandStep(s, younger, true), older, true);
            Inv(t) && t.file == s.file + [s.inflight[younger], s.inflight[older]] && !InOrder(t)
  {
    hide BlockFits, AreaInv;
    var m := LandStep(s, younger, true);
    LandKeeps(s, younger, true);
    LandKeeps(m, older, true);
    var t := LandStep(m, older, true);
    KeptAscends(t.place);
    var n := |s.file|;
    assert t.file[n] == s.inflight[younger] && t.file[n + 1] == s.inflight[older];
    forall tail ensures KeptIds(t.place) != FileIds(t.file) + tail {
      var ids := FileIds(t.file) + tail;
      assert ids[n] > ids[n + 1];
    }
  }

  predicate Ascends(ids: seq<nat>) {
    forall i, j :: 0 <= i < j < |ids| ==> ids[i] < ids[j]
  }

  lemma LandTwo(s: State, older: nat, younger: nat) returns (t: State)
    requires Inv(s) && older in s.inflight && younger in s.inflight
    requires s.inflight[older].id < s.inflight[younger].id
    ensures Runs(s, [Land(younger, true), Land(older, true)], t)
    ensures Inv(t) && !InOrder(t) && |t.file| == |s.file| + 2 && !Ascends(FileIds(t.file))
  {
    TwoInFlightCanReorder(s, older, younger);
    var m := LandStep(s, younger, true);
    LandKeeps(s, younger, true);
    t := LandStep(m, older, true);
    hide InOrder, LandStep, AreaInv, PlaceInv, BlocksInv;
    RunsOne(s, Land(younger, true));
    RunsOne(m, Land(older, true));
    RunsJoin(s, [Land(younger, true)], m, [Land(older, true)], t);
    assert FileIds(t.file)[|s.file|] > FileIds(t.file)[|s.file| + 1];
  }

  predicate OnlyLands(es: seq<Event>) {
    forall i :: 0 <= i < |es| ==> es[i].Land?
  }

  /** However the blocks in flight land from here on, the file keeps drain order. */
  ghost predicate LandsAscend(s: State) {
    forall es, t :: OnlyLands(es) && Runs(s, es, t) ==> Ascends(FileIds(t.file))
  }

  lemma {:induction false} LandingStaysInOrder(s: State, es: seq<Event>, t: State)
    requires Inv(s) && Serial(s) && InOrder(s) && OnlyLands(es) && Runs(s, es, t)
    ensures Ascends(FileIds(t.file))
    decreases |es|
  {
    if es == [] {
      var tail :| IsFlightTail(s, tail) && KeptIds(s.place) == FileIds(s.file) + tail;
      KeptAscends(s.place);
      forall i, j | 0 <= i < j < |FileIds(s.file)| ensures FileIds(s.file)[i] < FileIds(s.file)[j] {
        assert FileIds(s.file)[i] == KeptIds(s.place)[i] && FileIds(s.file)[j] == KeptIds(s.place)[j];
      }
    } else {
      var m := Step(s, es[0]);
      StepKeeps(s, es[0]);
      assert Serial(m);
      StepStaysInOrder(s, es[0]);
      assert OnlyLands(es[1..]);
      hide Inv, Serial, InOrder, Step, Structure, Enabled, OnlyLands, Ascends;
      LandingStaysInOrder(m, es[1..], t);
    }
  }

  /** A step from a state in order keeps at most one block in flight if and only if the file keeps drain
      order however the blocks then in flight land. */
  lemma OneInFlightIff(s: State, e: Event)
    requires Inv(s) && Serial(s) && InOrder(s) && Enabled(s, e)
    ensures Serial(Step(s, e)) <==> LandsAscend(Step(s, e))
  {
    var m := Step(s, e);
    StepKeeps(s, e);
    if Serial(m) {
      StepStaysInOrder(s, e);
      hide Inv, InOrder, Serial, Ascends;
      forall es, t | OnlyLands(es) && Runs(m, es, t) ensures Ascends(FileIds(t.file)) {
        LandingStaysInOrder(m, es, t);
      }
    } else {
      TwoOverlap(m);
    }
  }

  lemma TwoOverlap(s: State)
    requires Inv(s) && !Serial(s)
    ensures !LandsAscend(s)
  {
    var a, b :| a in s.inflight && b in s.inflight && a != b;
    assert s.inflight[a].id != s.inflight[b].id;
    hide Inv, LandsAscend;
    if s.inflight[a].id < s.inflight[b].id {
      LandsApart(s, a, b);
    } else {
      LandsApart(s, b, a);
    }
  }

  lemma LandsApart(s: State, older: nat, younger: nat)
    requires Inv(s) && older in s.inflight && younger in s.inflight
    requires s.inflight[older].id < s.inflight[younger].id
    ensures !LandsAscend(s)
  {
    hide Inv, Runs, Ascends, InOrder;
    var t := LandTwo(s, older, younger);
    assert OnlyLands([Land(younger, true), Land(older, true)]);
  }

  // ---- in bytes

  /** The accepted records without those of lost blocks, in append order. */
  function KeptRecords(s: State, n: nat): seq<seq<byte>>
    requires Structure(s) && n <= |s.place|
  {
    if n == 0 then []
    else
      assert CutOk(s.cuts, |s.records|, n - 1);
      KeptRecords(s, n - 1) + if s.place[n - 1].Lost? then [] else s.records[s.cuts[n - 1]..s.cuts[n]]
  }

  function KeptHistory(s: State): seq<byte>
    requires Structure(s)
  {
    Flatten(KeptRecords(s, |s.place|) + s.records[LastCut(s)..])
  }

  /** What a reader of the log file gets, block after block. */
  function ReadFile(file: seq<Block>): seq<byte> {
    if file == [] then [] else ReadFile(file[..|file| - 1]) + Decode(file[|file| - 1].bytes)
  }

  /** What a reader of a block gets beyond its segment. */
  function Stale(s: State, b: Block): (r: seq<byte>)
    requires Structure(s) && BlockFits(s, b)
    ensures Decode(b.bytes) == Segment(s, b.id) + r && |r| <= SLACK
    ensures r != [] ==> b.bytes != Segment(s, b.id) && BLOCK - SLACK <= |Segment(s, b.id)| < BLOCK
  {
    Conservation.BlockReads(s, b);
    Decode(b.bytes)[|Segment(s, b.id)|..]
  }

  /** The segment reaches to the end of the block, or a NUL stands behind it. */
  predicate Clean(s: State, b: Block)
    requires Structure(s) && b.id < |s.place|
  {
    |b.bytes| <= |Segment(s, b.id)| || b.bytes[|Segment(s, b.id)|] == NUL
  }

  lemma StaleIff(s: State, b: Block)
    requires Structure(s) && BlockFits(s, b)
    ensures Stale(s, b) == [] <==> Clean(s, b)
  {
    var seg, n := Segment(s, b.id), FirstNul(b.bytes);
    assert Decode(b.bytes) == seg + Stale(s, b);
    assert |b.bytes| >= |seg|;
    forall i | 0 <= i < n ensures b.bytes[i] != NUL {
      assert b.bytes[..n][i] != NUL;
    }
  }

  function SegmentsOf(s: State, ids: seq<nat>): seq<byte>
    requires Structure(s) && forall i :: 0 <= i < |ids| ==> ids[i] < |s.place|
  {
    if ids == [] then [] else SegmentsOf(s, ids[..|ids| - 1]) + Segment(s, ids[|ids| - 1])
  }

  lemma SegmentsSnoc(s: State, ids: seq<nat>, k: nat)
    requires Structure(s) && k < |s.place| && forall i :: 0 <= i < |ids| ==> ids[i] < |s.place|
    ensures SegmentsOf(s, ids + [k]) == SegmentsOf(s, ids) + Segment(s, k)
  {
    assert (ids + [k])[..|ids|] == ids;
  }

  lemma KeptPrefix(p: seq<Place>, n: nat)
    requires 0 < n <= |p|
    ensures KeptIds(p[..n]) == KeptIds(p[..n - 1]) + if p[n - 1].Lost? then [] else [n - 1]
  {
    assert p[..n] == p[..n - 1] + [p[n - 1]];
    KeptSnoc(p[..n - 1], p[n - 1]);
  }

  lemma KeptRecordsStep(s: State, n: nat, ids: seq<nat>)
    requires Structure(s) && 0 < n <= |s.place|
    requires forall i :: 0 <= i < |ids| ==> ids[i] < |s.place|
    requires Flatten(KeptRecords(s, n - 1)) == SegmentsOf(s, ids)
    ensures Flatten(KeptRecords(s, n)) == SegmentsOf(s, ids + if s.place[n - 1].Lost? then [] else [n - 1])
  {
    hide Flatten;
    assert CutOk(s.cuts, |s.records|, n - 1);
    if s.place[n - 1].Lost? {
      assert KeptRecords(s, n - 1) + [] == KeptRecords(s, n - 1) && ids + [] == ids;
    } else {
      FlattenConcat(KeptRecords(s, n - 1), s.records[s.cuts[n - 1]..s.cuts[n]]);
      SegmentsSnoc(s, ids, n - 1);
    }
  }

  lemma {:induction false} KeptRecordsAreSegments(s: State, n: nat, ids: seq<nat>)
    requires Structure(s) && n <= |s.place| && ids == KeptIds(s.place[..n])
    ensures forall i :: 0 <= i < |ids| ==> ids[i] < |s.place|
    ensures Flatten(KeptRecords(s, n)) == SegmentsOf(s, ids)
    decreases n
  {
    KeptBounded(s.place[..n]);
    if n > 0 {
      var ids' := KeptIds(s.place[..n - 1]);
      KeptRecordsAreSegments(s, n - 1, ids');
      KeptPrefix(s.place, n);
      KeptRecordsStep(s, n, ids');
    }
  }

  predicate FileFits(s: State, file: seq<Block>)
    requires Structure(s)
  {
    forall j :: 0 <= j < |file| ==> BlockFits(s, file[j])
  }

  predicate AllClean(s: State, file: seq<Block>)
    requires Structure(s) && FileFits(s, file)
  {
    forall j :: 0 <= j < |file| ==> Clean(s, file[j])
  }

  lemma ReadFileSnoc(file: seq<Block>, b: Block)
    ensures ReadFile(file + [b]) == ReadFile(file) + Decode(b.bytes)
    ensures FileIds(file + [b]) == FileIds(file) + [b.id]
  {
    hide Decode;
    assert (file + [b])[..|file|] == file;
  }

  lemma FileReadStep(s: State, file: seq<Block>, b: Block)
    requires Structure(s) && BlockFits(s, b) && FileFits(s, file)
    ensures FileFits(s, file + [b]) && (AllClean(s, file + [b]) <==> AllClean(s, file) && Clean(s, b))
    ensures SegmentsOf(s, FileIds(file + [b])) == SegmentsOf(s, FileIds(file)) + Segment(s, b.id)
    ensures ReadFile(file + [b]) == ReadFile(file) + (Segment(s, b.id) + Stale(s, b))
  {
    var tail := Stale(s, b);
    assert Decode(b.bytes) == Segment(s, b.id) + tail;
    SegmentsSnoc(s, FileIds(file), b.id);
    ReadFileSnoc(file, b);
    hide Clean, Segment, Decode, ReadFile, SegmentsOf, FileIds, BlockOk;
    var all := file + [b];
    assert all[|file|] == b && forall j :: 0 <= j < |file| ==> all[j] == file[j];
  }

  /** Reading the file never gives less than its segments, and gives exactly them if and only if
      every block is clean. */
  lemma {:induction false} FileReadsSegments(s: State, file: seq<Block>)
    requires Structure(s) && FileFits(s, file)
    ensures |ReadFile(file)| >= |SegmentsOf(s, FileIds(file))|
    ensures AllClean(s, file) ==> ReadFile(file) == SegmentsOf(s, FileIds(file))
    ensures !AllClean(s, file) ==> |ReadFile(file)| > |SegmentsOf(s, FileIds(file))|
    decreases |file|
  {
    if file != [] {
      var init, last := file[..|file| - 1], file[|file| - 1];
      assert file == init + [last];
      FileReadsSegments(s, init);
      FileReadStep(s, init, last);
      StaleIff(s, last);
      hide BlockFits, Segment, Clean, ReadFile, FileFits, AllClean, SegmentsOf, FileIds;
      if Clean(s, last) {
        assert Segment(s, last.id) + Stale(s, last) == Segment(s, last.id);
      }
    }
  }

  /** The segments in the file, the one in flight and the live bytes are the kept history; so are the
      bytes a reader of the file gets if and only if no stale byte stands behind a segment. */
  predicate ReadsBack(s: State, flight: seq<byte>)
    requires Inv(s)
  {
    && SegmentsOf(s, FileIds(s.file)) + flight + Live(s) == KeptHistory(s)
    && (ReadFile(s.file) + flight + Live(s) == KeptHistory(s) <==> AllClean(s, s.file))
  }

  /** File, block in flight and live bytes, concatenated, are the kept history. */
  lemma SerialFileIsHistory(es: seq<Event>, t: State)
    requires SerialRun(START, es, t)
    ensures Inv(t)
    ensures t.inflight == map[] ==> ReadsBack(t, [])
    ensures forall a :: a in t.inflight ==> ReadsBack(t, Segment(t, t.inflight[a].id))
  {
    StartInv();
    assert IsFlightTail(START, []) && KeptIds(START.place) == FileIds(START.file) + [];
    SerialRunStaysInOrder(START, es, t);
    HistoryReadsBack(t);
  }

  lemma HistoryReadsBack(t: State)
    requires Inv(t) && InOrder(t) && Serial(t)
    ensures t.inflight == map[] ==> ReadsBack(t, [])
    ensures forall a :: a in t.inflight ==> ReadsBack(t, Segment(t, t.inflight[a].id))
  {
    var tail :| IsFlightTail(t, tail) && KeptIds(t.place) == FileIds(t.file) + tail;
    assert t.place[..|t.place|] == t.place;
    KeptRecordsAreSegments(t, |t.place|, KeptIds(t.place));
    FlattenConcat(KeptRecords(t, |t.place|), t.records[LastCut(t)..]);
    assert KeptHistory(t) == SegmentsOf(t, KeptIds(t.place)) + Live(t);
    hide KeptRecords, KeptHistory, BlocksInv, AreaInv, SegmentsOf;
    if t.inflight == map[] {
      assert FileIds(t.file) + [] == FileIds(t.file);
      assert SegmentsOf(t, FileIds(t.file)) + [] == SegmentsOf(t, FileIds(t.file));
      SegmentsReadBack(t, []);
    } else {
      var a :| a in t.inflight && tail == [t.inflight[a].id];
      SegmentsSnoc(t, FileIds(t.file), t.inflight[a].id);
      SegmentsReadBack(t, Segment(t, t.inflight[a].id));
    }
  }

  lemma SegmentsReadBack(t: State, flight: seq<byte>)
    requires Inv(t) && SegmentsOf(t, FileIds(t.file)) + flight + Live(t) == KeptHistory(t)
    ensures ReadsBack(t, flight)
  {
    hide BlockOk, KeptHistory, SegmentsOf, AreaInv, Clean, ReadFile, FileIds;
    FileReadsSegments(t, t.file);
    if !AllClean(t, t.file) {
      assert |ReadFile(t.file) + flight + Live(t)| > |SegmentsOf(t, FileIds(t.file)) + flight + Live(t)|;
    }
  }

  /** With nothing lost the kept history is everything ever accepted. */
  lemma {:induction false} NothingLostKeepsAll(s: State, n: nat)
    requires Structure(s) && n <= |s.place| && forall k :: 0 <= k < |s.place| ==> !s.place[k].Lost?
    ensures s.cuts[n] <= |s.records| && KeptRecords(s, n) == s.records[..s.cuts[n]]
    ensures n == |s.place| ==> KeptHistory(s) == Flatten(s.records)
    decreases n
  {
    if n > 0 {
      assert CutOk(s.cuts, |s.records|, n - 1);
      NothingLostKeepsAll(s, n - 1);
    }
    if n == |s.place| {
      assert KeptRecords(s, n) + s.records[LastCut(s)..] == s.records;
    }
  }
}
