/** Runs of the pipeline from the start that end where a plausible claim fails: two blocks in flight at
    once, and a recovered block with stale bytes behind its segment. */
module Witnesses {
  import opened Bytes
  import opened Appenders
  import opened PtrBuffers
  import opened LogBuffers
  import opened Pipeline
  import opened SerialOrder
  import Conservation

  // ---- joining runs

  lemma SerialOne(s: State, e: Event)
    requires Structure(s) && Enabled(s, e) && Serial(s) && Serial(Step(s, e))
    ensures SerialRun(s, [e], Step(s, e))
  {
    hide Step;
    assert [e][1..] == [];
  }

  lemma {:induction false} SerialJoin(s: State, a: seq<Event>, m: State, b: seq<Event>, t: State)
    requires SerialRun(s, a, m) && SerialRun(m, b, t)
    ensures SerialRun(s, a + b, t)
    decreases |a|
  {
    hide Step, Structure, Enabled, Serial;
    if a == [] {
      assert a + b == b;
    } else {
      assert (a + b)[1..] == a[1..] + b;
      SerialJoin(Step(s, a[0]), a[1..], m, b, t);
    }
  }

  // ---- filling the area

  /** A line of n bytes. */
  function LineOf(n: nat): (r: seq<byte>)
    requires 0 < n <= SCRATCH - 129
    ensures IsRecord(r) && |r| == n
  {
    Fill(n - 1, 97) + [LF]
  }

  /** What one append leaves alone: the last SLACK bytes of the area while it stays clear of them, and
      everything but area and records. */
  predicate Filled(s: State, t: State, length: nat) {
    && Inv(t) && t.up && t.v.length == length
    && t.inflight == s.inflight && t.file == s.file && t.cuts == s.cuts && t.place == s.place
    && |t.v.mem| == |s.v.mem| == BLOCK && t.v.mem[BLOCK - SLACK..] == s.v.mem[BLOCK - SLACK..]
  }

  predicate ClearOfSlack(length: nat) {
    length + SLACK <= BLOCK - SLACK || length == BLOCK - SLACK
  }

  lemma WriteClearOfSlack(v: View, data: seq<byte>)
    requires WholeArea(v) && v.max == BLOCK && v.pos == v.length && data != [] && v.max + |data| < UINT
    requires ClearOfSlack(v.length + |data|)
    ensures var r := Write(v, data);
            && r.length == v.length + |data| && |r.mem| == |v.mem| == BLOCK
            && r.mem[BLOCK - SLACK..] == v.mem[BLOCK - SLACK..]
  {
    var w := if v.length == 0 then Clear(v) else v;
    AppendAtEnd(w, data);
  }

  lemma AppendFills(s: State, record: seq<byte>, n: nat)
    requires Inv(s) && s.up && IsRecord(record) && n == |Entry(record, s.v.length)|
    requires ClearOfSlack(s.v.length + n)
    ensures Filled(s, AppendStep(s, record), s.v.length + n)
  {
    GenuineRecordFits(record, s.v.length);
    AppendKeeps(s, record);
    hide Entry, Write, OverflowNotice, BlocksInv, PlaceInv;
    WriteClearOfSlack(s.v, Entry(record, s.v.length));
  }

  lemma FilledOn(s: State, m: State, t: State, middle: nat, end: nat)
    requires Filled(s, m, middle) && Filled(m, t, end)
    ensures Filled(s, t, end)
  {
    hide Inv;
  }

  lemma AppendRun(s: State, record: seq<byte>, n: nat) returns (t: State)
    requires Inv(s) && s.up && Serial(s) && IsRecord(record) && n == |Entry(record, s.v.length)|
    requires ClearOfSlack(s.v.length + n)
    ensures SerialRun(s, [Append(record)], t) && Filled(s, t, s.v.length + n) && Serial(t)
  {
    AppendFills(s, record, n);
    hide Entry, AppendStep;
    t := AppendStep(s, record);
    SerialOne(s, Append(record));
  }

  function Repeat(e: Event, k: nat): seq<Event> {
    if k == 0 then [] else [e] + Repeat(e, k - 1)
  }

  /** k times n, for sums only. */
  function Span(k: nat, n: nat): nat { if k == 0 then 0 else n + Span(k - 1, n) }

  lemma {:induction false} SpanIs(k: nat, n: nat)
    ensures Span(k, n) == k * n
  {
    if k > 0 {
      SpanIs(k - 1, n);
    }
  }

  /** k appends that each store n bytes. */
  lemma {:induction false} RepeatFills(s: State, record: seq<byte>, k: nat, n: nat, end: nat) returns (t: State)
    requires Inv(s) && s.up && Serial(s) && IsRecord(record) && n >= SLACK
    requires end == s.v.length + Span(k, n) && ClearOfSlack(end)
    requires forall length :: s.v.length <= length < end ==> |Entry(record, length)| == n
    ensures SerialRun(s, Repeat(Append(record), k), t) && Filled(s, t, end)
    decreases k
  {
    if k == 0 {
      t := s;
    } else {
      assert k > 1 ==> Span(k - 1, n) == n + Span(k - 2, n);
      hide Entry, Inv, Serial, SerialRun, IsRecord, Structure;
      var m := AppendRun(s, record, n);
      t := RepeatFills(m, record, k - 1, n, end);
      SerialJoin(s, [Append(record)], m, Repeat(Append(record), k - 1), t);
      FilledOn(s, m, t, s.v.length + n, end);
    }
  }

  lemma NoticeIs69(length: nat)
    requires 100000 <= length < 1000000
    ensures |OverflowNotice(length)| == 69
  {
    hide LeadStart, LeadEnd;
    DecimalDigits(length, 6) by {
      assert Pow10(5) == 100000;
    }
  }

  const BIG: nat := SCRATCH - 129  // the longest line
  const LAST: nat := 9106          // from 7 * BIG to just above the guard

  function FillEvents(): seq<Event> {
    Repeat(Append(LineOf(BIG)), 7) + [Append(LineOf(LAST))] + Repeat(Append(LineOf(1)), 445)
  }

  lemma EntryLengths()
    ensures forall length :: 0 <= length < 7 * BIG ==> |Entry(LineOf(BIG), length)| == BIG
    ensures |Entry(LineOf(LAST), 7 * BIG)| == LAST
    ensures forall length :: 122891 <= length < BLOCK - SLACK ==> |Entry(LineOf(1), length)| == 69
  {
    hide OverflowNotice, LineOf;
    forall length | 122891 <= length < BLOCK - SLACK ensures |Entry(LineOf(1), length)| == 69 {
      NoticeIs69(length);
    }
  }

  /** Seven of the longest lines, one shorter one past the guard, and 445 notices of 69 bytes fill an
      empty area to exactly BLOCK - SLACK; its last four bytes are never written. */
  lemma FillsToSlack(s: State) returns (t: State)
    requires Inv(s) && s.up && Serial(s) && s.v.length == 0
    ensures SerialRun(s, FillEvents(), t) && Filled(s, t, BLOCK - SLACK)
  {
    EntryLengths();
    SpanIs(7, BIG);
    SpanIs(445, 69);
    hide Entry, LineOf, Inv, Repeat, Serial, SerialRun, IsRecord, Span, Structure;
    var a := RepeatFills(s, LineOf(BIG), 7, BIG, 7 * BIG);
    var b := AppendRun(a, LineOf(LAST), LAST);
    FilledOn(s, a, b, 7 * BIG, 122891);
    t := RepeatFills(b, LineOf(1), 445, 69, BLOCK - SLACK);
    FilledOn(s, b, t, 122891, BLOCK - SLACK);
    SerialJoin(s, Repeat(Append(LineOf(BIG)), 7), a, [Append(LineOf(LAST))], b);
    SerialJoin(s, Repeat(Append(LineOf(BIG)), 7) + [Append(LineOf(LAST))], b, Repeat(Append(LineOf(1)), 445), t);
  }

  // ---- stale bytes in the file

  /** One more notice is cut to the last four bytes, and no NUL is left in the whole area. */
  lemma FillsUp(s: State) returns (t: State)
    requires Inv(s) && s.up && Serial(s) && s.v.length == BLOCK - SLACK
    ensures SerialRun(s, [Append(LineOf(1))], t) && Inv(t) && t.up && t.v.length == BLOCK && NulFree(t.v.mem)
    ensures t.inflight == s.inflight && t.file == s.file && t.place == s.place
  {
    var record := LineOf(1);
    NoticeIs69(s.v.length);
    AppendKeeps(s, record);
    GenuineRecordFits(record, s.v.length);
    WriteKeepsCursor(s.v, Live(s), Entry(record, s.v.length));
    t := AppendStep(s, record);
    hide LineOf, Entry, OverflowNotice, Write, AppendStep, Live;
    assert t.v.mem == Live(t);
    SerialOne(s, Append(record));
  }

  lemma LandsAlone(s: State, who: nat) returns (t: State)
    requires Inv(s) && s.inflight.Keys == {who}
    ensures SerialRun(s, [Land(who, true)], t) && Inv(t) && t.inflight == map[]
    ensures t.v == s.v && t.up == s.up && t.cuts == s.cuts && t.records == s.records
    ensures t.file == s.file + [s.inflight[who]] && s.inflight[who].id < |s.place|
    ensures t.place == s.place[s.inflight[who].id := InFile(|s.file|)]
  {
    LandKeeps(s, who, true);
    t := LandStep(s, who, true);
    assert Enabled(s, Land(who, true));
    hide AreaInv, BlocksInv, PlaceInv, Structure;
    SerialOne(s, Land(who, true));
  }

  lemma FlushLands(s: State) returns (t: State)
    requires Inv(s) && s.up && s.inflight == map[] && s.v.length > 0
    ensures SerialRun(s, [Drain(0), Land(0, true)], t) && Inv(t) && t.up && t.inflight == map[]
    ensures t.v.length == 0 && t.v.mem == s.v.mem[0 := NUL]
    ensures |t.file| == |s.file| + 1 && t.place == s.place + [InFile(|s.file|)]
  {
    DrainUpKeeps(s, 0);
    FlushTakesLive(s.v, Live(s));
    var m := DrainStep(s, 0);
    SerialOne(s, Drain(0));
    assert m.inflight == map[0 := Block(|s.place|, Live(s))] && m.place == s.place + [InFlight(0)];
    hide Inv, Live, Drained, DrainStep, SerialRun, Structure;
    t := LandsAlone(m, 0);
    SerialJoin(s, [Drain(0)], m, [Land(0, true)], t);
    assert [Drain(0)] + [Land(0, true)] == [Drain(0), Land(0, true)];
  }

  /** The crash loses nothing, the area is recovered, and its block lands in the file. */
  lemma CrashLands(s: State) returns (t: State)
    requires Inv(s) && s.inflight == map[] && Live(s) != []
    ensures SerialRun(s, [Crash, Open(0), Land(0, true)], t) && Inv(t) && t.inflight == map[]
    ensures t.file == s.file + [Block(|s.place|, s.v.mem)] && |t.place| == |s.place| + 1
    ensures Segment(t, |s.place|) == Live(s) && t.place[|s.place|].InFile?
    ensures forall k :: 0 <= k < |s.place| && s.place[k].InFile? ==> t.place[k].InFile?
  {
    Conservation.CrashLosesInFlight(s);
    var c := CrashStep(s);
    SerialOne(s, Crash);
    assert c.place == s.place && c.v.mem == s.v.mem && !c.up by {
      hide BlocksInv, AreaInv, Structure;
    }
    hide Inv, Live, CrashStep, SerialRun, Structure, Segment;
    var o := OpensFlight(c);
    t := LandsAlone(o, 0);
    SegmentStable(o, t, |s.place|);
    SerialJoin(s, [Crash], c, [Open(0)], o);
    SerialJoin(s, [Crash] + [Open(0)], o, [Land(0, true)], t);
    assert [Crash] + [Open(0)] + [Land(0, true)] == [Crash, Open(0), Land(0, true)];
  }

  lemma OpensFlight(s: State) returns (t: State)
    requires Inv(s) && !s.up && s.inflight == map[] && Live(s) != []
    ensures SerialRun(s, [Open(0)], t) && Inv(t) && t.file == s.file && t.place == s.place + [InFlight(0)]
    ensures t.inflight == map[0 := Block(|s.place|, s.v.mem)] && Segment(t, |s.place|) == Live(s)
  {
    Conservation.OpenRecovers(s, 0);
    OpenCuts(s, 0);
    t := OpenStep(s, 0);
    hide AreaInv, BlocksInv, PlaceInv, Live, OpenStep, Segment;
    SerialOne(s, Open(0));
  }

  lemma OpenCuts(s: State, who: nat)
    requires Inv(s) && Enabled(s, Open(who)) && Live(s) != []
    ensures var t := OpenStep(s, who);
            Structure(t) && |s.place| < |t.place| && Segment(t, |s.place|) == Live(s)
  {
    RecoveryReadsLive(s.v.mem, Live(s));
    var a := s.(v := Attach(s.v.mem), up := true);
    SamePlaces(s, a);
    hide Drained, Clear, Segment, Live, AreaInv, BlocksInv;
    CutMakesBlock(a, OpenStep(s, who));
  }

  lemma StartOpens() returns (t: State)
    ensures SerialRun(START, [Open(0)], t) && Inv(t) && t.up && t.inflight == map[]
    ensures t.v.length == 0 && t.place == [] && t.file == [] && Runs(START, [Open(0)], t)
  {
    StartInv();
    RunsOne(START, Open(0));
    Conservation.OpenRecovers(START, 0);
    NothingLive(START);
    SerialOne(START, Open(0));
    t := OpenStep(START, 0);
    NothingLive(t);
  }

  /** Up to the crash: a full area flushed, then filled again up to the four bytes it left behind. */
  lemma LeavesStaleBytes() returns (es: seq<Event>, t: State)
    ensures SerialRun(START, es, t) && Inv(t) && t.inflight == map[] && Live(t) != []
    ensures t.v.length == |Live(t)| == BLOCK - SLACK && |t.v.mem| == BLOCK && NulFree(t.v.mem)
    ensures |t.file| == |t.place| == 1 && t.place[0].InFile?
  {
    var a := StartOpens();
    var b := FillsToSlack(a);
    var c := FillsUp(b);
    var d := FlushLands(c);
    t := FillsToSlack(d);
    hide FillEvents, LineOf, Live, Structure, PlaceInv, BlocksInv;
    es := [Open(0)] + FillEvents() + [Append(LineOf(1))] + [Drain(0), Land(0, true)] + FillEvents();
    SerialJoin(START, [Open(0)], a, FillEvents(), b);
    SerialJoin(START, [Open(0)] + FillEvents(), b, [Append(LineOf(1))], c);
    SerialJoin(START, [Open(0)] + FillEvents() + [Append(LineOf(1))], c, [Drain(0), Land(0, true)], d);
    SerialJoin(START, [Open(0)] + FillEvents() + [Append(LineOf(1))] + [Drain(0), Land(0, true)], d, FillEvents(), t);
    NoNulLeft(t.v.mem, Live(t), c.v.mem, d.v.mem);
  }

  lemma NoNulLeft(mem: seq<byte>, live: seq<byte>, full: seq<byte>, flushed: seq<byte>)
    requires Holds(mem, live) && |mem| == |full| == BLOCK && |live| == BLOCK - SLACK && NulFree(full)
    requires flushed == full[0 := NUL] && mem[BLOCK - SLACK..] == flushed[BLOCK - SLACK..]
    ensures NulFree(mem)
  {
    assert mem[..|live|] == live;
    forall i | 0 <= i < |mem| ensures mem[i] != NUL {
      if i < |live| {
        assert mem[..|live|][i] == live[i];
      } else {
        assert mem[BLOCK - SLACK..][i - (BLOCK - SLACK)] == flushed[i] == full[i];
      }
    }
  }

  /** The condition on clean blocks is needed: a run from the start, with never two blocks in flight
      and nothing lost, after which the file reads as the history with four stale bytes inside. */
  lemma StaleTailReached() returns (es: seq<Event>, t: State)
    ensures SerialRun(START, es, t) && Inv(t) && t.inflight == map[]
    ensures forall k :: 0 <= k < |t.place| ==> t.place[k].InFile?
    ensures |t.file| == 2 && |Stale(t, t.file[1])| == SLACK
    ensures ReadFile(t.file) + Live(t) != KeptHistory(t)
  {
    hide SerialRun, ReadsBack, Live, Segment, Inv, KeptHistory, ReadFile, NulFree, Structure;
    var before, s := LeavesStaleBytes();
    t := CrashLands(s);
    es := before + [Crash, Open(0), Land(0, true)];
    SerialJoin(START, before, s, [Crash, Open(0), Land(0, true)], t);
    SerialFileIsHistory(es, t);
    StaleBreaks(t, 1);
  }

  /** A NUL-free block longer than its segment is read beyond it, and the file is not the history. */
  lemma StaleBreaks(s: State, j: nat)
    requires Inv(s) && j < |s.file| && ReadsBack(s, [])
    requires NulFree(s.file[j].bytes) && |s.file[j].bytes| > |Segment(s, s.file[j].id)|
    ensures |Stale(s, s.file[j])| == |s.file[j].bytes| - |Segment(s, s.file[j].id)|
    ensures ReadFile(s.file) + Live(s) != KeptHistory(s)
  {
    assert BlockFits(s, s.file[j]);
    NulFreeIsStale(s, s.file[j]);
    hide KeptHistory, ReadFile, SegmentsOf, Live, Segment, PlaceInv, AreaInv, Clean;
    assert !AllClean(s, s.file);
    assert ReadFile(s.file) + [] == ReadFile(s.file);
  }

  lemma NulFreeIsStale(s: State, b: Block)
    requires Structure(s) && BlockFits(s, b) && NulFree(b.bytes) && |b.bytes| > |Segment(s, b.id)|
    ensures !Clean(s, b) && |Stale(s, b)| == |b.bytes| - |Segment(s, b.id)|
  {
    FirstNulUnique(b.bytes, |b.bytes|);
    assert Decode(b.bytes) == b.bytes;
    hide Segment, Structure;
  }

  // ---- two blocks in flight

  lemma AppendOpens(s: State) returns (t: State)
    requires Inv(s) && s.up && s.v.length == 0
    ensures Runs(s, [Append(LineOf(1))], t) && Inv(t) && t.up && t.v.length > 0
    ensures t.inflight == s.inflight && t.place == s.place && t.file == s.file
  {
    AppendFills(s, LineOf(1), 1);
    t := AppendStep(s, LineOf(1));
    RunsOne(s, Append(LineOf(1)));
  }

  lemma DrainsLive(s: State)
    requires Inv(s) && s.up && s.v.length > 0
    ensures Drained(s.v) == Some(Live(s)) && Clear(s.v).length == 0
  {
    FlushTakesLive(s.v, Live(s));
    assert |Live(s)| == s.v.length;
  }

  lemma DrainTakesFlight(s: State, who: nat) returns (t: State)
    requires Inv(s) && s.up && s.v.length > 0 && who !in s.inflight
    ensures Runs(s, [Drain(who)], t) && Inv(t) && t.up && t.v.length == 0 && t.file == s.file
    ensures t.inflight.Keys == s.inflight.Keys + {who} && t.inflight[who].id == |s.place| == |t.place| - 1
    ensures forall a :: a in s.inflight ==> t.inflight[a] == s.inflight[a]
  {
    DrainsLive(s);
    DrainUpKeeps(s, who);
    assert Structure(s);
    hide Inv, Structure, Live, Runs, Clear, Drained;
    RunsOne(s, Drain(who));
    t := DrainStep(s, who);
  }

  /** Two flushers do get two blocks in flight, and the younger one can write first. */
  lemma ReorderReached() returns (es: seq<Event>, s: State, t: State)
    ensures Runs(START, es, s) && Inv(s) && s.inflight.Keys == {1, 2}
    ensures Runs(s, [Land(2, true), Land(1, true)], t) && Inv(t) && !InOrder(t) && |t.file| == 2
  {
    hide Inv, Runs, SerialRun, Step, Enabled, Structure, LineOf, LandStep, InOrder;
    var a := StartOpens();
    var b := AppendOpens(a);
    var c := DrainTakesFlight(b, 1);
    var d := AppendOpens(c);
    s := DrainTakesFlight(d, 2);
    var write := [Append(LineOf(1))];
    RunsJoin(START, [Open(0)], a, write, b);
    RunsJoin(START, [Open(0)] + write, b, [Drain(1)], c);
    RunsJoin(START, [Open(0)] + write + [Drain(1)], c, write, d);
    RunsJoin(START, [Open(0)] + write + [Drain(1)] + write, d, [Drain(2)], s);
    es := [Open(0)] + write + [Drain(1)] + write + [Drain(2)];
    t := LandTwo(s, 1, 2);
  }
}
