/** The durable log pipeline of loglib/mtaf_appender.cpp as a step machine: appenders, flushers,
    crashes and reopenings interleave in any order. The concrete part of the state is the
    mmap area with the in-memory cursor, the blocks taken but not yet written, and the log file;
    the ledger part remembers every accepted record and where each drained block went. */
module Pipeline {
  import opened Bytes
  import opened Appenders
  import opened PtrBuffers
  import opened LogBuffers

  datatype Cause = CrashedInFlight | WriteFailed | WipedByClose

  datatype Place = InFile(index: nat) | InFlight(who: nat) | Lost(cause: Cause)

  /** A block of bytes as handed to __log2file, tagged with its number in drain order. */
  datatype Block = Block(id: nat, bytes: seq<byte>)

  datatype State = State(
    v: View,                      // the area; the cursor means something only while up
    up: bool,                     // sg_log_buff is attached
    inflight: map<nat, Block>,    // per flusher, between its two locked sections
    file: seq<Block>,             // one per successful fwrite
    records: seq<seq<byte>>,      // ledger: what each append stored, in append order
    cuts: seq<nat>,               // ledger: block k covers records[cuts[k]..cuts[k + 1]]
    place: seq<Place>)            // ledger: where block k is now

  datatype Event =
    | Append(record: seq<byte>)
    | Drain(who: nat)             // shared loop, flush_sync or close: the buffer-mutex section
    | Land(who: nat, ok: bool)    // the file-mutex section; ok: fopen and fwrite succeeded
    | Wipe                        // end of close: zero the area, drop the buffer
    | Crash
    | Open(who: nat)              // attach, flush the whole area, open for appends

  predicate Structure(s: State) {
    && WholeArea(s.v) && s.v.max == BLOCK
    && |s.cuts| == |s.place| + 1 && s.cuts[0] == 0
    && (forall k :: 0 <= k < |s.place| ==> CutOk(s.cuts, |s.records|, k))
    && s.cuts[|s.place|] <= |s.records|
  }

  predicate CutOk(cuts: seq<nat>, records: nat, k: nat) {
    k + 1 < |cuts| && cuts[k] <= cuts[k + 1] <= records
  }

  function LastCut(s: State): nat
    requires Structure(s)
  {
    s.cuts[|s.place|]
  }

  /** The bytes of block k, as appended. */
  function Segment(s: State, k: nat): seq<byte>
    requires Structure(s) && k < |s.place|
  {
    assert CutOk(s.cuts, |s.records|, k);
    Flatten(s.records[s.cuts[k]..s.cuts[k + 1]])
  }

  /** The bytes appended since the last drain. */
  function Live(s: State): seq<byte>
    requires Structure(s)
  {
    Flatten(s.records[LastCut(s)..])
  }

  const START := State(View(Fill(BLOCK, NUL), 0, 0, BLOCK), false, map[], [], [], [0], [])

  // ---- steps

  predicate Enabled(s: State, e: Event) {
    match e
    case Append(record) => s.up && IsRecord(record)
    case Drain(who) => s.up && who !in s.inflight
    case Land(who, _) => who in s.inflight && s.inflight[who].id < |s.place|
    case Wipe => s.up
    case Crash => true
    case Open(who) => !s.up && who !in s.inflight
  }

  function StoredEntry(s: State, record: seq<byte>): seq<byte>
    requires Structure(s) && IsRecord(record)
  {
    var entry := Entry(record, s.v.length);
    entry[..Min(|entry|, BLOCK - s.v.length)]
  }

  function AppendStep(s: State, record: seq<byte>): State
    requires Structure(s) && IsRecord(record)
  {
    s.(v := Write(s.v, Entry(record, s.v.length)), records := s.records + [StoredEntry(s, record)])
  }

  function DrainStep(s: State, who: nat): State
    requires Structure(s)
  {
    var cleared := s.(v := Clear(s.v));
    if Drained(s.v).None? then cleared
    else
      cleared.(inflight := s.inflight[who := Block(|s.place|, Drained(s.v).value)],
               cuts := s.cuts + [|s.records|],
               place := s.place + [InFlight(who)])
  }

  function LandStep(s: State, who: nat, ok: bool): State
    requires who in s.inflight && s.inflight[who].id < |s.place|
  {
    var b := s.inflight[who];
    var rest := s.(inflight := s.inflight - {who});
    if ok then rest.(file := s.file + [b], place := s.place[b.id := InFile(|s.file|)])
    else rest.(place := s.place[b.id := Lost(WriteFailed)])
  }

  function WipeStep(s: State): State
    requires Structure(s)
  {
    var wiped := s.(v := View(Fill(BLOCK, NUL), 0, 0, BLOCK), up := false);
    if LastCut(s) == |s.records| then wiped
    else wiped.(cuts := s.cuts + [|s.records|], place := s.place + [Lost(WipedByClose)])
  }

  function CrashStep(s: State): State {
    s.(up := false, inflight := map[],
       place := seq(|s.place|, i requires 0 <= i < |s.place| =>
         if s.place[i].InFlight? then Lost(CrashedInFlight) else s.place[i]))
  }

  function OpenStep(s: State, who: nat): State
    requires Structure(s)
  {
    DrainStep(s.(v := Attach(s.v.mem), up := true), who)
  }

  function Step(s: State, e: Event): State
    requires Structure(s) && Enabled(s, e)
  {
    match e
    case Append(record) => AppendStep(s, record)
    case Drain(who) => DrainStep(s, who)
    case Land(who, ok) => LandStep(s, who, ok)
    case Wipe => WipeStep(s)
    case Crash => CrashStep(s)
    case Open(who) => OpenStep(s, who)
  }

  // ---- the invariant

  predicate AreaInv(s: State)
    requires Structure(s)
  {
    && Holds(s.v.mem, Live(s))
    && (s.up ==> CursorAt(s.v, Live(s)))
    && (LastCut(s) < |s.records| ==> Live(s) != [])
  }

  predicate PlaceInv(s: State) {
    && (forall k :: 0 <= k < |s.place| ==>
          match s.place[k]
          case InFile(j) => j < |s.file| && s.file[j].id == k
          case InFlight(a) => a in s.inflight && s.inflight[a].id == k
          case Lost(_) => true)
    && (forall j :: 0 <= j < |s.file| ==> s.file[j].id < |s.place| && s.place[s.file[j].id] == InFile(j))
    && (forall a :: a in s.inflight ==> s.inflight[a].id < |s.place| && s.place[s.inflight[a].id] == InFlight(a))
  }

  /** A block is the exact segment, or a recovered whole area that holds it. */
  predicate BlockOk(segment: seq<byte>, bytes: seq<byte>) {
    && segment != [] && NulFree(segment)
    && (bytes == segment || (|bytes| == BLOCK && Holds(bytes, segment)))
  }

  predicate BlockFits(s: State, b: Block)
    requires Structure(s)
  {
    b.id < |s.place| && BlockOk(Segment(s, b.id), b.bytes)
  }

  predicate BlocksInv(s: State)
    requires Structure(s)
  {
    && (forall j :: 0 <= j < |s.file| ==> BlockFits(s, s.file[j]))
    && (forall a :: a in s.inflight ==> BlockFits(s, s.inflight[a]))
  }

  predicate Inv(s: State) {
    Structure(s) && AreaInv(s) && PlaceInv(s) && BlocksInv(s)
  }

  /** Blocks already cut keep their segment however the ledger grows. */
  lemma SegmentStable(s: State, t: State, k: nat)
    requires Structure(s) && Structure(t) && k < |s.place| <= |t.place|
    requires s.records <= t.records && s.cuts <= t.cuts
    ensures Segment(s, k) == Segment(t, k)
  {
    assert CutOk(s.cuts, |s.records|, k) && s.cuts[k] == t.cuts[k] && s.cuts[k + 1] == t.cuts[k + 1];
    assert s.records[s.cuts[k]..s.cuts[k + 1]] == t.records[s.cuts[k]..s.cuts[k + 1]];
  }

  lemma BlockStable(s: State, t: State, b: Block)
    requires Structure(s) && Structure(t) && |s.place| <= |t.place| && BlockFits(s, b)
    requires s.records <= t.records && s.cuts <= t.cuts
    ensures BlockFits(t, b)
  {
    SegmentStable(s, t, b.id);
  }

  /** Steps that only grow the ledger and take their blocks from the old ones keep the blocks. */
  lemma BlocksStable(s: State, t: State)
    requires Structure(s) && BlocksInv(s) && Structure(t) && |s.place| <= |t.place|
    requires s.records <= t.records && s.cuts <= t.cuts
    requires forall j :: 0 <= j < |t.file| ==> t.file[j] in s.file || t.file[j] in s.inflight.Values
    requires forall a :: a in t.inflight ==> t.inflight[a] in s.inflight.Values
    ensures BlocksInv(t)
  {
    hide BlockFits;
    forall j | 0 <= j < |t.file| ensures BlockFits(t, t.file[j]) {
      BlockStable(s, t, t.file[j]);
    }
    forall a | a in t.inflight ensures BlockFits(t, t.inflight[a]) {
      BlockStable(s, t, t.inflight[a]);
    }
  }

  lemma StartInv()
    ensures Inv(START)
  {
    assert START.records[LastCut(START)..] == [];
  }

  lemma AppendLedger(s: State, record: seq<byte>)
    requires Structure(s) && IsRecord(record)
    ensures Structure(AppendStep(s, record))
    ensures Live(AppendStep(s, record)) == Live(s) + StoredEntry(s, record)
  {
    var t, stored := AppendStep(s, record), StoredEntry(s, record);
    hide Write, Entry, StoredEntry;
    forall k | 0 <= k < |t.place| ensures CutOk(t.cuts, |t.records|, k) {
      assert CutOk(s.cuts, |s.records|, k);
    }
    assert t.records[LastCut(s)..] == s.records[LastCut(s)..] + [stored];
    FlattenSnoc(s.records[LastCut(s)..], stored);
  }

  lemma AppendArea(s: State, record: seq<byte>)
    requires Structure(s) && AreaInv(s) && s.up && IsRecord(record)
    requires Structure(AppendStep(s, record)) && Live(AppendStep(s, record)) == Live(s) + StoredEntry(s, record)
    ensures AreaInv(AppendStep(s, record))
  {
    GenuineRecordFits(record, s.v.length);
    hide Write, Entry, Live, CutOk;
    WriteKeepsCursor(s.v, Live(s), Entry(record, s.v.length));
  }

  lemma AppendKeeps(s: State, record: seq<byte>)
    requires Inv(s) && Enabled(s, Append(record))
    ensures Inv(AppendStep(s, record))
    ensures Live(AppendStep(s, record)) == Live(s) + StoredEntry(s, record)
  {
    AppendLedger(s, record);
    AppendArea(s, record);
    hide AreaInv, Structure, PlaceInv, BlocksInv, Write, Entry, StoredEntry, Live;
    BlocksKept(s, AppendStep(s, record));
    PlacesKept(s, AppendStep(s, record));
  }

  lemma PlacesKept(s: State, t: State)
    requires PlaceInv(s) && t.place == s.place && t.file == s.file && t.inflight == s.inflight
    ensures PlaceInv(t)
  {
  }

  /** The common part of Drain, Open and Wipe: everything since the last cut becomes one block. */
  lemma CutMakesBlock(s: State, t: State)
    requires Structure(s) && t.records == s.records && t.cuts == s.cuts + [|s.records|]
    requires |t.place| == |s.place| + 1 && WholeArea(t.v) && t.v.max == BLOCK
    ensures Structure(t) && LastCut(t) == |s.records|
    ensures Segment(t, |s.place|) == Live(s) && Live(t) == []
  {
    forall k | 0 <= k < |t.place| ensures CutOk(t.cuts, |t.records|, k) {
      assert k < |s.place| ==> CutOk(s.cuts, |s.records|, k);
    }
    assert CutOk(t.cuts, |t.records|, |s.place|);
    assert s.records[LastCut(s)..|s.records|] == s.records[LastCut(s)..];
  }

  lemma SamePlaces(s: State, t: State)
    requires Structure(s) && t.records == s.records && t.cuts == s.cuts && |t.place| == |s.place|
    requires WholeArea(t.v) && t.v.max == BLOCK
    ensures Structure(t) && Live(t) == Live(s)
  {
    forall k | 0 <= k < |t.place| ensures CutOk(t.cuts, |t.records|, k) {
      assert CutOk(s.cuts, |s.records|, k);
    }
  }

  /** Draining from any view whose bytes hold the live records. */
  lemma DrainKeeps(s: State, who: nat)
    requires Structure(s) && PlaceInv(s) && BlocksInv(s) && who !in s.inflight
    requires LastCut(s) < |s.records| ==> Live(s) != []
    requires CursorAt(Clear(s.v), [])
    requires Live(s) == [] ==> Drained(s.v) == None
    requires Live(s) != [] ==> Drained(s.v).Some? && BlockOk(Live(s), Drained(s.v).value)
    ensures Inv(DrainStep(s, who))
  {
    var t := DrainStep(s, who);
    hide Clear, Drained, BlockOk, BlocksInv, Segment, Live, CutOk;
    if Live(s) == [] {
      SamePlaces(s, t);
      BlocksKept(s, t);
    } else {
      CutMakesBlock(s, t);
      DrainBlocks(s, t, who);
      DrainPlaces(s, t, who);
    }
  }

  lemma BlocksKept(s: State, t: State)
    requires Structure(s) && BlocksInv(s) && Structure(t) && |s.place| <= |t.place|
    requires s.records <= t.records && s.cuts <= t.cuts && t.file == s.file && t.inflight == s.inflight
    ensures BlocksInv(t)
  {
    BlocksStable(s, t);
  }

  lemma DrainBlocks(s: State, t: State, who: nat)
    requires Structure(s) && BlocksInv(s) && Structure(t) && who !in s.inflight
    requires |t.place| == |s.place| + 1 && s.records == t.records && s.cuts <= t.cuts && t.file == s.file
    requires who in t.inflight && t.inflight == s.inflight[who := t.inflight[who]]
    requires t.inflight[who].id == |s.place| && BlockOk(Segment(t, |s.place|), t.inflight[who].bytes)
    ensures BlocksInv(t)
  {
    forall a | a in t.inflight ensures BlockFits(t, t.inflight[a]) {
      if a != who {
        BlockStable(s, t, s.inflight[a]);
      }
    }
    forall j | 0 <= j < |t.file| ensures BlockFits(t, t.file[j]) {
      BlockStable(s, t, s.file[j]);
    }
  }

  lemma DrainPlaces(s: State, t: State, who: nat)
    requires PlaceInv(s) && who !in s.inflight
    requires t.file == s.file && t.place == s.place + [InFlight(who)]
    requires who in t.inflight && t.inflight == s.inflight[who := t.inflight[who]] && t.inflight[who].id == |s.place|
    ensures PlaceInv(t)
  {
  }

  lemma DrainUpKeeps(s: State, who: nat)
    requires Inv(s) && Enabled(s, Drain(who))
    ensures Inv(DrainStep(s, who))
  {
    FlushTakesLive(s.v, Live(s));
    DrainKeeps(s, who);
  }

  lemma OpenKeeps(s: State, who: nat)
    requires Inv(s) && Enabled(s, Open(who))
    ensures Inv(OpenStep(s, who))
  {
    var a := s.(v := Attach(s.v.mem), up := true);
    RecoveryReadsLive(s.v.mem, Live(s));
    SamePlaces(s, a);
    BlocksKept(s, a);
    hide BlockFits, Drained, Clear, CutOk;
    DrainKeeps(a, who);
  }

  lemma LandKeeps(s: State, who: nat, ok: bool)
    requires Inv(s) && Enabled(s, Land(who, ok))
    ensures Inv(LandStep(s, who, ok))
  {
    var t := LandStep(s, who, ok);
    hide BlockFits, CutOk, Holds, Segment;
    SamePlaces(s, t);
    LandPlaces(s, who, ok);
    assert t.file == s.file || t.file == s.file + [s.inflight[who]];
    BlocksStable(s, t);
  }

  lemma LandPlaces(s: State, who: nat, ok: bool)
    requires PlaceInv(s) && who in s.inflight
    ensures PlaceInv(LandStep(s, who, ok))
  {
    var t := LandStep(s, who, ok);
    var id := s.inflight[who].id;
    forall k | 0 <= k < |t.place| && t.place[k].InFlight?
      ensures t.place[k].who in t.inflight && t.inflight[t.place[k].who].id == k
    {
      assert k != id && s.place[k] == t.place[k];
    }
  }

  lemma WipeKeeps(s: State)
    requires Inv(s) && s.up
    ensures Inv(WipeStep(s))
  {
    var t := WipeStep(s);
    hide BlockFits, BlocksInv, Segment, CutOk;
    if LastCut(s) == |s.records| {
      SamePlaces(s, t);
      NothingLive(s);
    } else {
      CutMakesBlock(s, t);
    }
    BlocksKept(s, t);
  }

  lemma NothingLive(s: State)
    requires Structure(s) && LastCut(s) == |s.records|
    ensures Live(s) == []
  {
  }

  lemma CrashKeeps(s: State)
    requires Inv(s)
    ensures Inv(CrashStep(s))
  {
    var t := CrashStep(s);
    hide BlockFits, Segment, CutOk;
    SamePlaces(s, t);
    BlocksStable(s, t);
  }

  lemma StepKeeps(s: State, e: Event)
    requires Inv(s) && Enabled(s, e)
    ensures Inv(Step(s, e))
  {
    match e
    case Append(record) => AppendKeeps(s, record);
    case Drain(who) => DrainUpKeeps(s, who);
    case Land(who, ok) => LandKeeps(s, who, ok);
    case Wipe => WipeKeeps(s);
    case Crash => CrashKeeps(s);
    case Open(who) => OpenKeeps(s, who);
  }

  // ---- runs

  /** es is a possible run from s to t. */
  predicate Runs(s: State, es: seq<Event>, t: State)
    decreases |es|
  {
    if es == [] then s == t
    else Structure(s) && Enabled(s, es[0]) && Runs(Step(s, es[0]), es[1..], t)
  }

  lemma {:induction false} RunKeeps(s: State, es: seq<Event>, t: State)
    requires Inv(s) && Runs(s, es, t)
    ensures Inv(t)
    decreases |es|
  {
    if es != [] {
      StepKeeps(s, es[0]);
      RunKeeps(Step(s, es[0]), es[1..], t);
    }
  }

  lemma RunsOne(s: State, e: Event)
    requires Structure(s) && Enabled(s, e)
    ensures Runs(s, [e], Step(s, e))
  {
    hide Step;
    assert [e][1..] == [];
  }

  lemma {:induction false} RunsJoin(s: State, a: seq<Event>, m: State, b: seq<Event>, t: State)
    requires Runs(s, a, m) && Runs(m, b, t)
    ensures Runs(s, a + b, t)
    decreases |a|
  {
    hide Step, Structure, Enabled;
    if a == [] {
      assert a + b == b;
    } else {
      assert (a + b)[1..] == a[1..] + b;
      RunsJoin(Step(s, a[0]), a[1..], m, b, t);
    }
  }
}
