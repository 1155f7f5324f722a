/** loglib/mtaf_log_buffer.cpp: the log buffer laid over the mmap area.
    Nothing but the bytes of the area survives a crash, so the question is whether
    a scan for the first NUL finds what the in-memory cursor knew. */
module LogBuffers {
  import opened Bytes
  import opened PtrBuffers
  import AutoBuffers

  /** Smallest area for which an empty buffer is recognisable from its bytes. */
  const MIN_AREA: nat := 5

  /** The terminator is written only while the length is below max - 4, so at most this
      many stale bytes can follow the live ones unmarked. */
  const SLACK: nat := 4

  predicate WholeArea(v: View) {
    v.Ok() && v.max == |v.mem| >= MIN_AREA
  }

  /** Clearing zeroes one byte and resets the cursor; the rest of the area keeps its bytes. */
  function Clear(v: View): (r: View)
    requires WholeArea(v)
    ensures WholeArea(r) && r.max == v.max
  {
    SetLength(v.(mem := v.mem[0 := NUL]), 0, 0)
  }

  function Write(v: View, data: seq<byte>): (r: View)
    requires WholeArea(v) && v.max + |data| < UINT
    ensures WholeArea(r) && r.max == v.max
  {
    if data == [] then v
    else
      var w := if v.length == 0 then Clear(v) else v;
      OutsideUntouched(w, data);
      Append(w, data)
  }

  /** The block Flush copies out: nothing if the scan finds a NUL at once. */
  function Drained(v: View): Option<seq<byte>>
    requires WholeArea(v)
  {
    if FirstNul(v.Content()) == 0 then None else Some(v.Content())
  }

  /** Attaching an area with unknown contents: the length is the whole area. */
  function Attach(mem: seq<byte>): (r: View)
    requires MIN_AREA <= |mem| < UINT
    ensures WholeArea(r) && r.mem == mem
  {
    Attached(mem, |mem|)
  }

  // ---- what the bytes of the area say

  /** The area holds `live`: its bytes first, NUL-free, with a NUL behind them unless the
      area is full to within the slack. */
  predicate Holds(mem: seq<byte>, live: seq<byte>) {
    && MIN_AREA <= |mem| < UINT
    && live <= mem && NulFree(live)
    && (|live| < |mem| - SLACK ==> mem[|live|] == NUL)
  }

  /** ... and the in-memory cursor agrees. */
  predicate CursorAt(v: View, live: seq<byte>) {
    WholeArea(v) && Holds(v.mem, live) && v.pos == v.length == |live|
  }

  lemma ClearEmpties(v: View)
    requires WholeArea(v)
    ensures CursorAt(Clear(v), [])
  {
  }

  lemma WriteKeepsCursor(v: View, live: seq<byte>, data: seq<byte>)
    requires CursorAt(v, live) && NulFree(data) && v.max + |data| < UINT
    ensures CursorAt(Write(v, data), live + data[..Min(|data|, v.max - |live|)])
  {
    var n := Min(|data|, v.max - |live|);
    if data == [] {
      assert live + data[..n] == live;
    } else {
      var w := if v.length == 0 then Clear(v) else v;
      assert w.Content() == live;
      AppendAtEnd(w, data);
      var r := Write(v, data);
      assert r.Content() == live + data[..n];
      assert r.mem[..r.length] == r.Content();
    }
  }

  lemma FlushTakesLive(v: View, live: seq<byte>)
    requires CursorAt(v, live)
    ensures Drained(v) == if live == [] then None else Some(live)
    ensures CursorAt(Clear(v), [])
  {
    assert v.Content() == live;
    FirstNulUnique(live, |live|);
  }

  /** The strnlen scan and the cursor agree below the slack, and on a full area; in between the scan
      reads the live bytes and at most SLACK more. */
  lemma ScanFindsLive(mem: seq<byte>, live: seq<byte>)
    requires Holds(mem, live)
    ensures |live| <= FirstNul(mem) <= |live| + SLACK && live <= Decode(mem)
    ensures |live| < |mem| - SLACK || |live| == |mem| ==> FirstNul(mem) == |live| && Decode(mem) == live
  {
    var n := FirstNul(mem);
    assert mem[..|live|] == live;
    forall i | 0 <= i < |live| ensures mem[i] != NUL {
      assert live[i] != NUL;
    }
    if |live| < |mem| - SLACK {
      FirstNulUnique(mem, |live|);
    }
  }

  /** Recovery drains the whole area, stale tail included, exactly when there was something live. */
  lemma RecoveryReadsLive(mem: seq<byte>, live: seq<byte>)
    requires Holds(mem, live)
    ensures Drained(Attach(mem)) == if live == [] then None else Some(mem)
    ensures CursorAt(Clear(Attach(mem)), [])
  {
    var v := Attach(mem);
    assert v.Content() == mem;
    ScanFindsLive(mem, live);
  }

  // ---- every sequence of writes and flushes

  datatype Op = Put(data: seq<byte>) | Take

  /** Reference: a bounded queue with no bytes of its own. */
  datatype Queue = Queue(pending: seq<byte>, taken: seq<seq<byte>>)

  function QueueOp(q: Queue, op: Op, max: nat): Queue
    requires |q.pending| <= max
  {
    match op
    case Put(data) => q.(pending := q.pending + data[..Min(|data|, max - |q.pending|)])
    case Take => if q.pending == [] then q else Queue([], q.taken + [q.pending])
  }

  function QueueAll(ops: seq<Op>, max: nat): (q: Queue)
    ensures |q.pending| <= max
  {
    if ops == [] then Queue([], []) else QueueOp(QueueAll(ops[..|ops| - 1], max), ops[|ops| - 1], max)
  }

  /** The buffer and the blocks flushed so far. */
  datatype Machine = Machine(v: View, taken: seq<seq<byte>>)

  function MachineOp(m: Machine, op: Op): (r: Machine)
    requires WholeArea(m.v) && (op.Put? ==> m.v.max + |op.data| < UINT)
    ensures WholeArea(r.v) && r.v.max == m.v.max
  {
    match op
    case Put(data) => m.(v := Write(m.v, data))
    case Take =>
      Machine(Clear(m.v), if Drained(m.v).Some? then m.taken + [Drained(m.v).value] else m.taken)
  }

  /** What is put is short enough for the cursor arithmetic. */
  predicate OpsFit(ops: seq<Op>, max: nat) {
    forall i :: 0 <= i < |ops| && ops[i].Put? ==> max + |ops[i].data| < UINT
  }

  /** Start as the appender does: attach whatever the area holds, flush it, go on. */
  function MachineAll(area: seq<byte>, ops: seq<Op>): (r: Machine)
    requires MIN_AREA <= |area| < UINT && OpsFit(ops, |area|)
    ensures WholeArea(r.v) && r.v.max == |area|
  {
    if ops == [] then Machine(Clear(Attach(area)), [])
    else MachineOp(MachineAll(area, ops[..|ops| - 1]), ops[|ops| - 1])
  }

  predicate NulFreeOps(ops: seq<Op>) {
    forall i :: 0 <= i < |ops| && ops[i].Put? ==> NulFree(ops[i].data)
  }

  /** For every initial area and every run of NUL-free writes and flushes the buffer is the bounded
      queue: cursor = length = pending bytes, blocks = queue blocks, and the area alone still
      identifies the pending bytes. */
  lemma {:induction false} RunIsQueue(area: seq<byte>, ops: seq<Op>)
    requires MIN_AREA <= |area| < UINT && NulFreeOps(ops) && OpsFit(ops, |area|)
    ensures var m, q := MachineAll(area, ops), QueueAll(ops, |area|);
            && m.taken == q.taken
            && CursorAt(m.v, q.pending)
            && (m.v.length < m.v.max - SLACK ==> FirstNul(m.v.mem) == m.v.length)
    decreases |ops|
  {
    if ops == [] {
      ClearEmpties(Attach(area));
      ScanFindsLive(MachineAll(area, []).v.mem, []);
    } else {
      var init, op := ops[..|ops| - 1], ops[|ops| - 1];
      RunIsQueue(area, init);
      var m, q := MachineAll(area, init), QueueAll(init, |area|);
      match op {
        case Put(data) => WriteKeepsCursor(m.v, q.pending, data);
        case Take => FlushTakesLive(m.v, q.pending);
      }
      ScanFindsLive(MachineAll(area, ops).v.mem, QueueAll(ops, |area|).pending);
    }
  }

  lemma MachineSnoc(area: seq<byte>, ops: seq<Op>, op: Op)
    requires MIN_AREA <= |area| < UINT && OpsFit(ops + [op], |area|)
    ensures OpsFit(ops, |area|) && (op.Put? ==> |area| + |op.data| < UINT)
    ensures MachineAll(area, ops + [op]) == MachineOp(MachineAll(area, ops), op)
    ensures QueueAll(ops + [op], |area|) == QueueOp(QueueAll(ops, |area|), op, |area|)
  {
    assert (ops + [op])[..|ops|] == ops;
    assert (ops + [op])[|ops|] == op;
    forall i | 0 <= i < |ops| && ops[i].Put? ensures |area| + |ops[i].data| < UINT {
      assert (ops + [op])[i] == ops[i];
    }
  }

  // ---- when the scan is exact

  /** The area of every run that leaves n bytes pending reads as exactly those bytes. */
  ghost predicate ScanExact(max: nat, n: nat)
    requires MIN_AREA <= max < UINT
  {
    forall area, ops | |area| == max && NulFreeOps(ops) && OpsFit(ops, max) && |QueueAll(ops, max).pending| == n ::
      Decode(MachineAll(area, ops).v.mem) == QueueAll(ops, max).pending
  }

  /** For every fill level: exact below the slack and on a full area, and only there. */
  lemma ScanExactIff(max: nat, n: nat)
    requires MIN_AREA <= max && 2 * max < UINT && n <= max
    ensures ScanExact(max, n) <==> n < max - SLACK || n == max
  {
    if n < max - SLACK || n == max {
      forall area, ops | |area| == max && NulFreeOps(ops) && OpsFit(ops, max) && |QueueAll(ops, max).pending| == n
        ensures Decode(MachineAll(area, ops).v.mem) == QueueAll(ops, max).pending
      {
        RunIsQueue(area, ops);
        ScanFindsLive(MachineAll(area, ops).v.mem, QueueAll(ops, max).pending);
      }
    } else {
      SlackIsReached(max, n, 1, 2);
      assert Fill(n, 2) + Fill(max - n, 1) != Fill(n, 2);
    }
  }

  /** At every fill level within the slack: over an area full of x, a put of n bytes is followed by
      stale bytes that the scan cannot tell from live ones. */
  lemma SlackIsReached(max: nat, n: nat, x: byte, y: byte)
    requires MIN_AREA <= max && 2 * max < UINT && max - SLACK <= n < max && x != NUL && y != NUL
    ensures var area, ops := Fill(max, x), [Put(Fill(n, y))];
            && NulFreeOps(ops) && OpsFit(ops, max) && QueueAll(ops, max).pending == Fill(n, y)
            && Decode(MachineAll(area, ops).v.mem) == Fill(n, y) + Fill(max - n, x)
  {
    var area, ops := Fill(max, x), [Put(Fill(n, y))];
    assert [] + ops == ops;
    MachineSnoc(area, [], ops[0]);
    var v := Clear(Attach(area));
    ShortWrite(v, x, Fill(n, y));
    FirstNulUnique(Fill(n, y) + Fill(max - n, x), max);
  }

  /** Within the slack a write stores its bytes and no terminator. */
  lemma ShortWrite(v: View, x: byte, data: seq<byte>)
    requires WholeArea(v) && v.length == v.pos == 0 && v.mem == Fill(v.max, x)[0 := NUL]
    requires v.max - SLACK <= |data| <= v.max && v.max + |data| < UINT
    ensures Write(v, data).mem == data + Fill(v.max - |data|, x)
  {
    var w := Clear(v);
    assert w.mem == v.mem;
    assert !Terminates(w, 0, |data|);
  }

  // ---- the three NULs

  predicate TripleNulAt(mem: seq<byte>, i: nat) {
    i + 3 <= |mem| && mem[i] == mem[i + 1] == mem[i + 2] == NUL
  }

  /** A reader that stops at three NULs stops at n. */
  predicate FirstTripleAt(mem: seq<byte>, n: nat) {
    TripleNulAt(mem, n) && forall i: nat :: i < n ==> !TripleNulAt(mem, i)
  }

  /** While something is pending below the slack, the terminator stands at the cursor. */
  predicate Terminated(mem: seq<byte>, live: seq<byte>) {
    live != [] && |live| < |mem| - SLACK ==> TripleNulAt(mem, |live|)
  }

  lemma WriteTerminates(v: View, live: seq<byte>, data: seq<byte>)
    requires CursorAt(v, live) && NulFree(data) && v.max + |data| < UINT && Terminated(v.mem, live)
    ensures Terminated(Write(v, data).mem, live + data[..Min(|data|, v.max - |live|)])
  {
    var n := Min(|data|, v.max - |live|);
    if data == [] {
      assert live + data[..n] == live;
    } else if |live| + n < v.max - SLACK {
      var w := if v.length == 0 then Clear(v) else v;
      TerminatorBehind(w, data);
    }
  }

  lemma TerminatorBehind(w: View, data: seq<byte>)
    requires WholeArea(w) && w.length == w.pos && w.pos + |data| < w.max - SLACK
    ensures WriteEnd(w, w.pos, |data|) <= |w.mem| && TripleNulAt(Append(w, data).mem, w.pos + |data|)
  {
    var mem, n := Append(w, data).mem, w.pos + |data|;
    assert mem == Stored(w.mem, w.pos, data, true);
    assert mem[n] == TERMINATOR[0] && mem[n + 1] == TERMINATOR[1] && mem[n + 2] == TERMINATOR[2];
  }

  lemma {:induction false} RunTerminates(area: seq<byte>, ops: seq<Op>)
    requires MIN_AREA <= |area| < UINT && NulFreeOps(ops) && OpsFit(ops, |area|)
    ensures Terminated(MachineAll(area, ops).v.mem, QueueAll(ops, |area|).pending)
    decreases |ops|
  {
    if ops != [] {
      var init, op := ops[..|ops| - 1], ops[|ops| - 1];
      RunTerminates(area, init);
      RunIsQueue(area, init);
      if op.Put? {
        WriteTerminates(MachineAll(area, init).v, QueueAll(init, |area|).pending, op.data);
      }
    }
  }

  /** A reader that stops at three NULs gets the pending bytes of every run that leaves n of them. */
  ghost predicate TripleExact(max: nat, n: nat)
    requires MIN_AREA <= max < UINT
  {
    forall area, ops | |area| == max && NulFreeOps(ops) && OpsFit(ops, max) && |QueueAll(ops, max).pending| == n ::
      FirstTripleAt(MachineAll(area, ops).v.mem, n)
  }

  /** ... exactly for the fill levels below the slack at which something is pending. */
  lemma TripleNulIff(max: nat, n: nat)
    requires MIN_AREA <= max && 2 * max < UINT && n <= max
    ensures TripleExact(max, n) <==> 0 < n < max - SLACK
  {
    if 0 < n < max - SLACK {
      forall area, ops | |area| == max && NulFreeOps(ops) && OpsFit(ops, max) && |QueueAll(ops, max).pending| == n
        ensures FirstTripleAt(MachineAll(area, ops).v.mem, n)
      {
        RunIsQueue(area, ops);
        RunTerminates(area, ops);
        NoTripleInside(MachineAll(area, ops).v.mem, QueueAll(ops, max).pending);
      }
    } else {
      var area := Fill(max, 1);
      if n == 0 {
        assert MachineAll(area, []).v.mem[1] != NUL && QueueAll([], max).pending == [];
      } else {
        var ops := [Put(Fill(n, 2))];
        assert [] + ops == ops;
        MachineSnoc(area, [], ops[0]);
        assert QueueAll(ops, max).pending == Fill(n, 2);
        ShortWrite(Clear(Attach(area)), 1, Fill(n, 2));
        assert !TripleNulAt(MachineAll(area, ops).v.mem, n);
      }
    }
  }

  lemma NoTripleInside(mem: seq<byte>, live: seq<byte>)
    requires Holds(mem, live)
    ensures forall i: nat :: i < |live| ==> !TripleNulAt(mem, i)
  {
    assert mem[..|live|] == live;
    forall i: nat | i < |live| ensures mem[i] != NUL {
      assert live[i] != NUL;
    }
  }

  /** The ordinary flush: n bytes pending below the slack are taken. Then a reader stops at once
      exactly if n was 1; otherwise it reads a NUL and the rest of what was just taken. */
  lemma FlushedTripleIff(area: seq<byte>, ops: seq<Op>)
    requires MIN_AREA <= |area| < UINT && NulFreeOps(ops) && OpsFit(ops, |area|)
    requires 0 < |QueueAll(ops, |area|).pending| < |area| - SLACK
    ensures OpsFit(ops + [Take], |area|) && QueueAll(ops + [Take], |area|).pending == []
    ensures var mem, was := MachineAll(area, ops + [Take]).v.mem, QueueAll(ops, |area|).pending;
            && (TripleNulAt(mem, 0) <==> |was| == 1)
            && (|was| > 1 ==> FirstTripleAt(mem, |was|) && mem[..|was|] == [NUL] + was[1..])
  {
    MachineSnoc(area, ops, Take);
    RunIsQueue(area, ops);
    RunTerminates(area, ops);
    hide MachineAll, QueueAll, Drained, Terminated, TripleNulAt;
    FlushedReads(MachineAll(area, ops).v.mem, QueueAll(ops, |area|).pending);
  }

  lemma FlushedReads(mem: seq<byte>, was: seq<byte>)
    requires Holds(mem, was) && Terminated(mem, was) && 0 < |was| < |mem| - SLACK
    ensures var flushed := mem[0 := NUL];
            && (TripleNulAt(flushed, 0) <==> |was| == 1)
            && (|was| > 1 ==> FirstTripleAt(flushed, |was|) && flushed[..|was|] == [NUL] + was[1..])
  {
    assert mem[..|was|] == was;
    forall i | 0 <= i < |was| ensures mem[i] == was[i] != NUL {
    }
  }

  /** The line "abc\n", flushed: the area starts with a NUL, "bc\n" and only then three NULs. */
  lemma FlushedLine(area: seq<byte>)
    requires 10 <= |area| && 2 * |area| < UINT
    ensures var ops := [Put(Ascii("abc\n"))];
            && NulFreeOps(ops) && OpsFit(ops + [Take], |area|)
            && QueueAll(ops + [Take], |area|) == Queue([], [Ascii("abc\n")])
            && var mem := MachineAll(area, ops + [Take]).v.mem;
               mem[..4] == [NUL] + Ascii("bc\n") && FirstTripleAt(mem, 4)
  {
    var line := Ascii("abc\n");
    assert line[1..] == Ascii("bc\n");
    hide MachineAll, QueueAll, FirstTripleAt;
    PutThenTake(area, line);
    FlushedTripleIff(area, [Put(line)]);
  }

  lemma PutThenTake(area: seq<byte>, line: seq<byte>)
    requires MIN_AREA <= |area| && 2 * |area| < UINT && NulFree(line) && 0 < |line| < |area|
    ensures var ops := [Put(line)];
            && NulFreeOps(ops) && OpsFit(ops + [Take], |area|) && QueueAll(ops, |area|).pending == line
            && QueueAll(ops + [Take], |area|) == Queue([], [line])
  {
    hide MachineAll;
    var ops := [Put(line)];
    assert [] + ops == ops;
    MachineSnoc(area, [], ops[0]);
    MachineSnoc(area, ops, Take);
    assert [] + line == line;
  }

  // ---- the object

  class LogBuffer {
    const buff: PtrBuffer

    ghost predicate Valid()
      reads this, buff
    {
      buff.Valid() && buff.maxLength == buff.parray.Length >= MIN_AREA
    }

    ghost function V(): View
      requires Valid()
      reads this, buff, buff.parray
    {
      buff.V()
    }

    constructor (area: array<byte>)
      requires MIN_AREA <= area.Length < UINT
      ensures Valid() && fresh(buff) && buff.parray == area && V() == Attach(area[..])
    {
      buff := new PtrBuffer(area, area.Length, area.Length);
    }

    method ClearBuffer()
      requires Valid()
      modifies buff`pos, buff`length, buff.parray
      ensures Valid() && V() == Clear(old(V()))
    {
      MemSet(buff.parray, 0, NUL, 1);
      buff.SetLengthTo(0, 0);
    }

    /** Flush into dest, which is appended to; false means nothing was there to copy. */
    method Flush(dest: AutoBuffers.AutoBuffer) returns (copied: bool)
      requires Valid() && dest.Valid() && dest.parray != buff.parray
      modifies buff`pos, buff`length, buff.parray, dest, dest.parray
      ensures Valid() && V() == Clear(old(V()))
      ensures dest.Valid() && copied == old(Drained(V())).Some?
      ensures copied ==> dest.V() == AutoBuffers.Write(old(dest.V()), old(Drained(V())).value, dest.unit) && dest.parray != null
      ensures !copied ==> dest.V() == old(dest.V()) && dest.parray == old(dest.parray)
    {
      var scanned := Strnlen(buff.parray, buff.length);
      if scanned == 0 {
        ClearBuffer();
        return false;
      }
      dest.Append(buff.parray[..buff.length]);
      ClearBuffer();
      copied := true;
    }

    method WriteData(data: seq<byte>) returns (ok: bool)
      requires Valid() && buff.maxLength + |data| < UINT
      modifies buff`pos, buff`length, buff.parray
      ensures Valid() && V() == Write(old(V()), data) && ok == (data != [])
    {
      if data == [] {
        return false;
      }
      if buff.length == 0 {
        ClearBuffer();
      }
      OutsideUntouched(V(), data);
      buff.Write(data);
      ok := true;
    }
  }
}
