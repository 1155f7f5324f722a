/** What the pipeline promises over whole runs: no accepted record is duplicated, none disappears
    except by a named cause, and a clean close loses nothing. */
module Conservation {
  import opened Bytes
  import opened Appenders
  import opened LogBuffers
  import opened Pipeline

  // ---- where a record is

  datatype Holder = LiveArea | Flight(who: nat) | FileBlock(index: nat) | LostBlock(id: nat)

  predicate Covers(s: State, k: nat, r: nat) {
    k + 1 < |s.cuts| && s.cuts[k] <= r < s.cuts[k + 1]
  }

  predicate HeldBy(s: State, r: nat, h: Holder)
    requires Structure(s)
  {
    match h
    case LiveArea => LastCut(s) <= r
    case Flight(a) => a in s.inflight && Covers(s, s.inflight[a].id, r)
    case FileBlock(j) => j < |s.file| && Covers(s, s.file[j].id, r)
    case LostBlock(k) => k < |s.place| && s.place[k].Lost? && Covers(s, k, r)
  }

  lemma {:induction false} CutsMonotone(s: State, i: nat, j: nat)
    requires Structure(s) && i <= j <= |s.place|
    ensures s.cuts[i] <= s.cuts[j]
    decreases j
  {
    if i < j {
      assert CutOk(s.cuts, |s.records|, j - 1);
      CutsMonotone(s, i, j - 1);
    }
  }

  lemma {:induction false} FindBlock(s: State, r: nat, n: nat) returns (k: nat)
    requires Structure(s) && n <= |s.place| && r < s.cuts[n]
    ensures k < n && Covers(s, k, r)
    decreases n
  {
    if s.cuts[n - 1] <= r {
      k := n - 1;
    } else {
      k := FindBlock(s, r, n - 1);
    }
  }

  lemma CoversOnce(s: State, r: nat, k: nat, k': nat)
    requires Structure(s) && Covers(s, k, r) && Covers(s, k', r)
    ensures k == k' && k < |s.place| && r < LastCut(s)
  {
    CutsMonotone(s, k + 1, |s.place|);
    if k < k' {
      CutsMonotone(s, k + 1, k');
    } else if k' < k {
      CutsMonotone(s, k' + 1, k);
    }
  }

  /** Every accepted record is in exactly one place. */
  lemma ExactlyOneHolder(s: State, r: nat) returns (h: Holder)
    requires Inv(s) && r < |s.records|
    ensures HeldBy(s, r, h)
    ensures forall h' :: HeldBy(s, r, h') ==> h' == h
  {
    hide AreaInv, BlocksInv;
    if LastCut(s) <= r {
      h := LiveArea;
      forall h' | HeldBy(s, r, h') ensures h' == h {
        if h' != h {
          var k := match h' case Flight(a) => s.inflight[a].id case FileBlock(j) => s.file[j].id case LostBlock(k) => k;
          CoversOnce(s, r, k, k);
        }
      }
    } else {
      var k := FindBlock(s, r, |s.place|);
      h := match s.place[k] case InFile(j) => FileBlock(j) case InFlight(a) => Flight(a) case Lost(_) => LostBlock(k);
      forall h' | HeldBy(s, r, h') ensures h' == h {
        var k' := match h'
          case LiveArea => k
          case Flight(a) => s.inflight[a].id
          case FileBlock(j) => s.file[j].id
          case LostBlock(k) => k;
        CoversOnce(s, r, k, k');
      }
    }
  }

  /** The record's own bytes sit at that offset, in front of anything a reader would stop at. */
  predicate ReadableAt(bytes: seq<byte>, offset: nat, record: seq<byte>) {
    offset + |record| <= FirstNul(bytes) && bytes[offset..offset + |record|] == record
  }

  lemma FlattenSlice(ss: seq<seq<byte>>, lo: nat, r: nat, hi: nat)
    requires lo <= r < hi <= |ss|
    ensures Flatten(ss[lo..hi]) == Flatten(ss[lo..r]) + ss[r] + Flatten(ss[r + 1..hi])
  {
    assert ss[lo..hi] == ss[lo..r] + ([ss[r]] + ss[r + 1..hi]);
    FlattenConcat(ss[lo..r], [ss[r]] + ss[r + 1..hi]);
    FlattenConcat([ss[r]], ss[r + 1..hi]);
    FlattenOne(ss[r]);
  }

  lemma PrefixReadable(bytes: seq<byte>, segment: seq<byte>, before: seq<byte>, record: seq<byte>, after: seq<byte>)
    requires segment == before + record + after
    requires BlockOk(segment, bytes) || Holds(bytes, segment)
    ensures ReadableAt(bytes, |before|, record)
  {
    if bytes == segment {
      FirstNulUnique(bytes, |bytes|);
    } else {
      ScanFindsLive(bytes, segment);
    }
    assert segment <= bytes;
    assert bytes[..|segment|] == segment;
    assert segment[|before|..|before| + |record|] == record;
  }

  /** A record that is not lost can be read where its holder is: in the live area, in the flusher's
      block or in the file block, at the offset given by the records before it. */
  lemma HolderHasTheBytes(s: State, r: nat, h: Holder)
    requires Inv(s) && r < |s.records| && HeldBy(s, r, h)
    ensures match h
            case LiveArea => ReadableAt(s.v.mem, |Flatten(s.records[LastCut(s)..r])|, s.records[r])
            case Flight(a) =>
              ReadableAt(s.inflight[a].bytes, |Flatten(s.records[s.cuts[s.inflight[a].id]..r])|, s.records[r])
            case FileBlock(j) =>
              ReadableAt(s.file[j].bytes, |Flatten(s.records[s.cuts[s.file[j].id]..r])|, s.records[r])
            case LostBlock(_) => true
  {
    match h {
      case LostBlock(_) =>
      case LiveArea =>
        FlattenSlice(s.records, LastCut(s), r, |s.records|);
        assert s.records[LastCut(s)..|s.records|] == s.records[LastCut(s)..];
        PrefixReadable(s.v.mem, Live(s), Flatten(s.records[LastCut(s)..r]), s.records[r], Flatten(s.records[r + 1..|s.records|]));
      case Flight(a) => BlockHasTheBytes(s, s.inflight[a], r);
      case FileBlock(j) => BlockHasTheBytes(s, s.file[j], r);
    }
  }

  lemma BlockHasTheBytes(s: State, b: Block, r: nat)
    requires Structure(s) && BlockFits(s, b) && Covers(s, b.id, r)
    ensures r < |s.records|
    ensures ReadableAt(b.bytes, |Flatten(s.records[s.cuts[b.id]..r])|, s.records[r])
  {
    assert CutOk(s.cuts, |s.records|, b.id);
    FlattenSlice(s.records, s.cuts[b.id], r, s.cuts[b.id + 1]);
    PrefixReadable(b.bytes, Segment(s, b.id), Flatten(s.records[s.cuts[b.id]..r]), s.records[r],
                   Flatten(s.records[r + 1..s.cuts[b.id + 1]]));
  }

  /** What a reader of a block gets: the segment, or for a recovered area filled to within the
      slack, the segment and at most SLACK stale bytes. */
  lemma BlockReads(s: State, b: Block)
    requires Structure(s) && BlockFits(s, b)
    ensures var seg := Segment(s, b.id);
            && seg <= Decode(b.bytes) && |Decode(b.bytes)| <= |seg| + SLACK
            && (b.bytes == seg || |seg| < BLOCK - SLACK ==> Decode(b.bytes) == seg)
  {
    var seg := Segment(s, b.id);
    if b.bytes == seg {
      FirstNulUnique(seg, |seg|);
    } else {
      ScanFindsLive(b.bytes, seg);
    }
  }

  // ---- the three facts above for every run

  lemma EveryRunConserves(es: seq<Event>, t: State, r: nat) returns (h: Holder)
    requires Runs(START, es, t)
    ensures Inv(t)
    ensures r < |t.records| ==> HeldBy(t, r, h) && forall h' :: HeldBy(t, r, h') ==> h' == h
  {
    StartInv();
    RunKeeps(START, es, t);
    h := LiveArea;
    if r < |t.records| {
      h := ExactlyOneHolder(t, r);
    }
  }

  predicate FileHas(file: seq<Block>, k: nat) {
    exists j :: 0 <= j < |file| && file[j].id == k
  }

  /** Whatever the overlap of flushers, in every run the file is a permutation of the drained blocks
      that are neither lost nor in flight: it holds exactly these, each once, and each is one
      contiguous stretch of the accepted history. */
  lemma FileIsPermutation(es: seq<Event>, t: State)
    requires Runs(START, es, t)
    ensures Inv(t)
    ensures forall k :: 0 <= k < |t.place| ==> (FileHas(t.file, k) <==> t.place[k].InFile?)
    ensures forall j :: 0 <= j < |t.file| ==> t.file[j].id < |t.place| && BlockFits(t, t.file[j])
    ensures forall i, j :: 0 <= i < j < |t.file| ==> t.file[i].id != t.file[j].id
  {
    StartInv();
    RunKeeps(START, es, t);
    hide BlockFits, AreaInv;
    forall k | 0 <= k < |t.place|
      ensures FileHas(t.file, k) <==> t.place[k].InFile?
    {
      if t.place[k].InFile? {
        assert t.file[t.place[k].index].id == k;
      }
    }
  }

  // ---- loss and permanence

  /** A step loses a block only by crashing with it in flight, by failing to write it, or by wiping
      what was appended after the last drain; lost and written blocks stay so. */
  lemma LossNeedsACause(s: State, e: Event, k: nat)
    requires Inv(s) && Enabled(s, e)
    requires var t := Step(s, e); k < |t.place| && t.place[k].Lost? && !(k < |s.place| && s.place[k].Lost?)
    ensures match Step(s, e).place[k].cause
            case CrashedInFlight => e == Crash && k < |s.place| && s.place[k].InFlight?
            case WriteFailed => e.Land? && !e.ok && e.who in s.inflight && s.inflight[e.who].id == k
            case WipedByClose => e == Wipe && k == |s.place| && LastCut(s) < |s.records|
  {
  }

  lemma WrittenAndLostArePermanent(s: State, e: Event)
    requires Inv(s) && Enabled(s, e)
    ensures var t := Step(s, e);
            && s.file <= t.file && s.records <= t.records && s.cuts <= t.cuts
            && forall k :: 0 <= k < |s.place| && !s.place[k].InFlight? ==> k < |t.place| && t.place[k] == s.place[k]
  {
    hide BlocksInv, AreaInv;
  }

  /** What an append accepts in every run: with less than 4/5 of the 150 KB live the whole record, with
      room left for its terminator; from there on a prefix of the overflow notice. Nothing genuine is
      ever cut. */
  lemma AppendAccepts(es: seq<Event>, s: State, record: seq<byte>)
    requires Runs(START, es, s) && Enabled(s, Append(record))
    ensures Inv(s)
    ensures var t := AppendStep(s, record); var stored := t.records[|s.records|];
            && Structure(t) && Live(t) == Live(s) + stored && t.v.length == |Live(t)|
            && (5 * |Live(s)| < 4 * 153600 ==> stored == record && |Live(t)| < 153600 - 4)
            && (5 * |Live(s)| >= 4 * 153600 ==>
                  stored == OverflowNotice(|Live(s)|)[..Min(|OverflowNotice(|Live(s)|)|, 153600 - |Live(s)|)])
  {
    StartInv();
    RunKeeps(START, es, s);
    AppendKeeps(s, record);
    GenuineRecordFits(record, s.v.length);
    assert s.v.length == |Live(s)|;
  }

  predicate NewlyLost(s: State, t: State, k: nat) {
    k < |t.place| && t.place[k].Lost? && !(k < |s.place| && s.place[k].Lost?)
  }

  lemma CrashLosesInFlight(s: State)
    requires Inv(s)
    ensures var c := CrashStep(s);
            && Inv(c) && Live(c) == Live(s) && c.inflight == map[]
            && forall k: nat :: NewlyLost(s, c, k) <==> k < |s.place| && s.place[k].InFlight?
  {
    CrashKeeps(s);
    SamePlaces(s, CrashStep(s));
    hide Inv, Live;
  }

  lemma OpenRecovers(s: State, who: nat)
    requires Inv(s) && Enabled(s, Open(who))
    ensures var t := OpenStep(s, who);
            && Inv(t) && t.records == s.records && t.file == s.file
            && if Live(s) == [] then t.inflight == s.inflight && t.place == s.place
               else t.inflight == s.inflight[who := Block(|s.place|, s.v.mem)] && t.place == s.place + [InFlight(who)]
  {
    OpenKeeps(s, who);
    RecoveryReadsLive(s.v.mem, Live(s));
    hide Inv, Live, Holds, Clear, Drained;
  }

  /** How an area that holds `live` reads: as just that below the slack and when it is full, and with
      at most SLACK bytes more in between. */
  predicate ReadsAs(mem: seq<byte>, live: seq<byte>) {
    && |mem| == BLOCK && live <= Decode(mem) && |Decode(mem)| <= |live| + SLACK
    && (|live| < BLOCK - SLACK || |live| == BLOCK ==> Decode(mem) == live)
  }

  /** A crash at any moment, in the middle of any number of two-phase flushes, and the next open lose
      exactly the blocks that were in flight. What was live is recovered: the recovered block is the
      whole area and reads as the live bytes. */
  lemma CrashThenOpenRecovers(s: State, who: nat) returns (t: State)
    requires Inv(s)
    ensures Runs(s, [Crash, Open(who)], t) && Inv(t) && t.records == s.records && t.file == s.file
    ensures forall k: nat :: NewlyLost(s, t, k) <==> k < |s.place| && s.place[k].InFlight?
    ensures if Live(s) == [] then t.inflight == map[]
            else t.inflight == map[who := Block(|s.place|, s.v.mem)] && ReadsAs(s.v.mem, Live(s))
  {
    var c := CrashStep(s);
    CrashLosesInFlight(s);
    OpenRecovers(c, who);
    ScanFindsLive(s.v.mem, Live(s));
    t := OpenStep(c, who);
    RunsOne(s, Crash);
    RunsOne(c, Open(who));
    RunsJoin(s, [Crash], c, [Open(who)], t);
    assert [Crash] + [Open(who)] == [Crash, Open(who)];
    hide Runs, Inv, OpenStep, Live, Decode;
    forall k: nat ensures NewlyLost(s, t, k) == NewlyLost(s, c, k) {
    }
  }

  // ---- close

  predicate OnlyFlushing(es: seq<Event>) {
    forall i :: 0 <= i < |es| ==> es[i].Drain? || (es[i].Land? && es[i].ok)
  }

  predicate NoNewLoss(s: State, t: State) {
    && |s.place| <= |t.place|
    && forall k :: 0 <= k < |t.place| && t.place[k].Lost? ==> k < |s.place| && s.place[k].Lost?
  }

  /** Wiping the area loses something exactly when something was appended after the last drain. */
  lemma WipeLosesIff(s: State)
    requires Inv(s) && s.up
    ensures !NoNewLoss(s, WipeStep(s)) <==> Live(s) != []
  {
    if LastCut(s) == |s.records| {
      NothingLive(s);
    } else {
      assert WipeStep(s).place[|s.place|].Lost?;
    }
  }

  // what may happen between the closer's drain and its wipe: appends that passed the flag test
  // before it was raised, and other flushers whose writes succeed

  predicate Busy(es: seq<Event>) {
    forall i :: 0 <= i < |es| ==> es[i].Append? || es[i].Drain? || (es[i].Land? && es[i].ok)
  }

  predicate NoDrain(es: seq<Event>, from: int) {
    forall j :: 0 <= from <= j < |es| ==> !es[j].Drain?
  }

  predicate UndrainedAppend(es: seq<Event>) {
    exists i :: 0 <= i < |es| && es[i].Append? && NoDrain(es, i)
  }

  predicate Dirty(s: State)
    requires Structure(s)
  {
    LastCut(s) < |s.records|
  }

  lemma BusyStep(s: State, e: Event)
    requires Inv(s) && s.up && Enabled(s, e) && Busy([e])
    ensures var m := Step(s, e);
            Inv(m) && m.up && NoNewLoss(s, m) && (Dirty(m) <==> e.Append? || (Dirty(s) && !e.Drain?))
            && s.file <= m.file
            && (!e.Append? ==> m.records == s.records) && (!e.Append? && !Dirty(s) ==> |m.place| == |s.place|)
  {
    StepKeeps(s, e);
    assert [e][0] == e;
    if e.Drain? {
      DrainLeavesNothing(s, e.who);
      FlushTakesLive(s.v, Live(s));
      if !Dirty(s) {
        NothingLive(s);
      }
    }
  }

  lemma NoNewLossOn(s: State, m: State, t: State)
    requires NoNewLoss(s, m) && NoNewLoss(m, t)
    ensures NoNewLoss(s, t)
  {
  }

  lemma UndrainedStep(es: seq<Event>)
    requires es != []
    ensures UndrainedAppend(es) <==> UndrainedAppend(es[1..]) || (es[0].Append? && NoDrain(es[1..], 0))
    ensures NoDrain(es, 0) <==> !es[0].Drain? && NoDrain(es[1..], 0)
  {
  }

  lemma {:induction false} BusyRun(s: State, es: seq<Event>, t: State)
    requires Inv(s) && s.up && Busy(es) && Runs(s, es, t)
    ensures Inv(t) && t.up && NoNewLoss(s, t) && s.file <= t.file
    ensures Dirty(t) <==> UndrainedAppend(es) || (Dirty(s) && NoDrain(es, 0))
    ensures OnlyFlushing(es) ==> t.records == s.records && (!Dirty(s) ==> |t.place| == |s.place|)
    decreases |es|
  {
    if es != [] {
      assert Busy([es[0]]) && Busy(es[1..]);
      assert OnlyFlushing(es) ==> !es[0].Append? && OnlyFlushing(es[1..]);
      BusyStep(s, es[0]);
      UndrainedStep(es);
      var m := Step(s, es[0]);
      hide Dirty, UndrainedAppend, NoDrain, Inv, Busy, OnlyFlushing, Step, Enabled, Structure, NoNewLoss;
      BusyRun(m, es[1..], t);
      NoNewLossOn(s, m, t);
    }
  }

  /** Close, from the closer's drain to its wipe, with any appends and other flushers in between whose
      writes succeed: something is lost exactly if some append in between has no drain behind it. */
  lemma CloseLosesIff(s: State, closer: nat, es: seq<Event>, u: State)
    requires Inv(s) && s.up && closer !in s.inflight && Busy(es) && Runs(DrainStep(s, closer), es, u)
    ensures Inv(u) && u.up && (!NoNewLoss(s, WipeStep(u)) <==> UndrainedAppend(es))
  {
    DrainUpKeeps(s, closer);
    var d := DrainStep(s, closer);
    DrainLeavesNothing(s, closer);
    hide DrainStep;
    BusyRun(d, es, u);
    hide Inv, UndrainedAppend, Busy;
    if Dirty(u) {
      assert WipeStep(u).place[|u.place|].Lost?;
    }
  }

  lemma FlushingIsBusy(es: seq<Event>)
    requires OnlyFlushing(es)
    ensures Busy(es) && !UndrainedAppend(es)
  {
  }

  /** Shared-thread close: drain, then any interleaving of flushers whose writes succeed, with no
      append in between, then wipe. Nothing is lost; what was live is in the file if the closer's
      block has landed; and the next open finds nothing and adds no block. */
  lemma CloseIsLossless(s: State, closer: nat, es: seq<Event>, u: State, opener: nat)
    requires Inv(s) && s.up && closer !in s.inflight
    requires OnlyFlushing(es) && Runs(DrainStep(s, closer), es, u)
    ensures Inv(u) && u.up
    ensures var t := WipeStep(u);
            && NoNewLoss(s, t) && t.records == s.records && t.v.mem == Fill(BLOCK, NUL)
            && (Live(s) != [] && closer !in u.inflight ==>
                  |s.place| < |t.place| && t.place[|s.place|].InFile?)
            && Structure(t)
            && (opener !in t.inflight ==>
                  var o := OpenStep(t, opener);
                  o.inflight == t.inflight && o.file == t.file && o.place == t.place)
  {
    DrainUpKeeps(s, closer);
    var d := DrainStep(s, closer);
    DrainLeavesNothing(s, closer);
    hide DrainStep, Inv, Live, Clear, Runs, OnlyFlushing, Structure;
    if Live(s) != [] {
      FlightEnds(d, es, u, closer, |s.place|);
    }
    FlushingIsBusy(es);
    BusyRun(d, es, u);
    WipeOfDrained(u, opener);
    NoNewLossOn(s, d, u);
  }

  /** With nothing appended since the last drain the wipe loses nothing, and the next open finds an
      empty area. */
  lemma WipeOfDrained(s: State, opener: nat)
    requires Inv(s) && s.up && !Dirty(s)
    ensures var t := WipeStep(s);
            && t.place == s.place && t.records == s.records && t.v.mem == Fill(BLOCK, NUL) && Structure(t)
            && (opener !in t.inflight ==>
                  var o := OpenStep(t, opener);
                  o.inflight == t.inflight && o.file == t.file && o.place == t.place)
  {
    WipeKeeps(s);
    var t := WipeStep(s);
    NothingLive(t);
    RecoveryReadsLive(t.v.mem, []);
    hide Inv, Clear, Drained;
  }

  lemma DrainLeavesNothing(s: State, who: nat)
    requires Inv(s) && Enabled(s, Drain(who))
    ensures var d := DrainStep(s, who);
            && Structure(d) && LastCut(d) == |d.records| && d.up && d.records == s.records
            && (Live(s) != [] ==> |d.place| == |s.place| + 1 && d.place[|s.place|] == InFlight(who))
            && NoNewLoss(s, d)
  {
    FlushTakesLive(s.v, Live(s));
    DrainUpKeeps(s, who);
  }

  /** A block in flight stays with its flusher until that flusher writes it. */
  lemma {:induction false} FlightEnds(s: State, es: seq<Event>, t: State, who: nat, k: nat)
    requires Inv(s) && OnlyFlushing(es) && Runs(s, es, t) && k < |s.place|
    requires s.place[k] == InFlight(who) || s.place[k].InFile?
    ensures Inv(t) && k < |t.place| && (t.place[k] == InFlight(who) || t.place[k].InFile?)
    ensures who !in t.inflight ==> t.place[k].InFile?
    decreases |es|
  {
    if es != [] {
      StepKeeps(s, es[0]);
      var m := Step(s, es[0]);
      FlightStep(s, es[0], who, k);
      hide Inv;
      FlightEnds(m, es[1..], t, who, k);
    }
  }

  lemma FlightStep(s: State, e: Event, who: nat, k: nat)
    requires Inv(s) && Enabled(s, e) && (e.Drain? || (e.Land? && e.ok)) && k < |s.place|
    requires s.place[k] == InFlight(who) || s.place[k].InFile?
    ensures var m := Step(s, e); k < |m.place| && (m.place[k] == InFlight(who) || m.place[k].InFile?)
  {
  }
}
