/** comm/mtaf_autobuffer.cc: a growable byte array with a cursor.
    `Auto` is its value; `Tape` is the reference it is measured against: an
    endless zero-filled tape with a length and a cursor and no capacity at all. */
module AutoBuffers {
  import opened Bytes

  /** mem is the whole allocation, so the capacity is |mem|. */
  datatype Auto = Auto(mem: seq<byte>, pos: nat, length: nat) {
    predicate Ok() { pos <= length <= |mem| }

    function Capacity(): nat { |mem| }

    function Content(): seq<byte>
      requires Ok()
    {
      mem[..length]
    }
  }

  datatype Op =
    | WriteOp(data: seq<byte>)
    | WriteAtOp(at: nat, data: seq<byte>)
    | SeekOp(offset: int, origin: Origin)
    | MoveOp(distance: int)
    | AllocWriteOp(ready: nat, changeLength: bool)
    | AddCapacityOp(extra: nat)
    | LengthOp(newPos: nat, newLength: nat)

  // ---- capacity

  function UnitsFor(len: nat, unit: nat): nat
    requires unit > 0
  {
    (len + unit - 1) / unit
  }

  function RoundUp(len: nat, unit: nat): nat
    requires unit > 0
  {
    UnitsFor(len, unit) * unit
  }

  lemma RoundUpBounds(len: nat, unit: nat)
    requires unit > 0
    ensures len <= RoundUp(len, unit) < len + unit
  {
    var a := len + unit - 1;
    assert a == (a / unit) * unit + a % unit;
  }

  /** Growth asks for the least multiple of the unit that is large enough. */
  lemma RoundUpIsLeast(len: nat, unit: nat, k: nat)
    requires unit > 0
    ensures len <= RoundUp(len, unit)
    ensures len <= k * unit ==> RoundUp(len, unit) <= k * unit
  {
    RoundUpBounds(len, unit);
    var q := UnitsFor(len, unit);
    if k < q {
      MulMonotone(k, q - 1, unit);
    } else {
      MulMonotone(q, k, unit);
    }
  }

  lemma MulMonotone(a: nat, b: nat, u: nat)
    requires a <= b
    ensures a * u <= b * u && (b > 0 ==> (b - 1) * u == b * u - u)
  {
    assert (b - a) * u >= 0;
  }

  function FitSize(b: Auto, len: nat, unit: nat): (r: Auto)
    requires b.Ok() && unit > 0
    ensures r.Ok() && len <= r.Capacity() && b.mem <= r.mem
    ensures r.pos == b.pos && r.length == b.length
    ensures forall i: nat :: Cell(r.mem, i) == Cell(b.mem, i)
  {
    if len <= b.Capacity() then b
    else
      RoundUpBounds(len, unit);
      b.(mem := b.mem + Fill(RoundUp(len, unit) - b.Capacity(), NUL))
  }

  /** A growing buffer gets the least multiple of the unit that holds the request; a buffer that is
      large enough is left alone. */
  lemma GrowthIsLeast(b: Auto, len: nat, unit: nat, k: nat)
    requires b.Ok() && unit > 0
    ensures len <= b.Capacity() ==> FitSize(b, len, unit) == b
    ensures len > b.Capacity() && len <= k * unit ==> FitSize(b, len, unit).Capacity() <= k * unit
    ensures len > b.Capacity() ==> FitSize(b, len, unit).Capacity() == UnitsFor(len, unit) * unit
  {
    RoundUpBounds(len, unit);
    RoundUpIsLeast(len, unit, k);
  }

  /** The byte at i, with everything past the allocation reading as zero. */
  function Cell(mem: seq<byte>, i: nat): byte { if i < |mem| then mem[i] else NUL }

  /** Asking for room makes it, whatever else the operation does or does not do, and grows the buffer by
      less than a unit more than asked for. */
  lemma RoomIsMade(b: Auto, n: nat, change: bool, unit: nat)
    requires b.Ok() && unit > 0
    ensures var r := Exec(b, AllocWriteOp(n, change), unit);
            && b.pos + n <= r.Capacity() && (r.Capacity() > b.Capacity() ==> r.Capacity() < b.pos + n + unit)
            && r.pos == b.pos && r.length == if change && b.pos + n > b.length then b.pos + n else b.length
    ensures var r := Exec(b, AddCapacityOp(n), unit);
            && b.Capacity() + n <= r.Capacity() < b.Capacity() + n + unit && r.pos == b.pos && r.length == b.length
  {
    RoundUpBounds(b.pos + n, unit);
    RoundUpBounds(b.Capacity() + n, unit);
  }

  // ---- the operations on values

  function WriteTo(b: Auto, at: nat, data: seq<byte>, unit: nat): (r: Auto)
    requires b.Ok() && at <= b.length && unit > 0
    ensures r.Ok()
  {
    var f := FitSize(b, at + |data|, unit);
    f.(mem := Overlay(f.mem, at, data), length := Max(at + |data|, f.length))
  }

  function Seek(b: Auto, offset: int, origin: Origin): (r: Auto)
    requires b.Ok()
    ensures r.Ok()
  {
    b.(pos := Clamp(SeekTarget(b.pos, b.length, offset, origin), b.length))
  }

  function Write(b: Auto, data: seq<byte>, unit: nat): (r: Auto)
    requires b.Ok() && unit > 0
    ensures r.Ok()
  {
    Seek(WriteTo(b, b.pos, data, unit), |data|, SeekCur)
  }

  function SetLength(b: Auto, pos: nat, length: nat): (r: Auto)
    requires b.Ok() && pos <= length <= b.Capacity()
    ensures r.Ok()
  {
    Seek(b.(length := length, pos := 0), pos, SeekStart)
  }

  /** mem with its first `length` bytes moved up by n and zeros in the gap. */
  function Gapped(mem: seq<byte>, n: nat, length: nat): (r: seq<byte>)
    requires length + n <= |mem|
    ensures |r| == |mem|
  {
    Overlay(Overlay(mem, n, mem[..length]), 0, Fill(n, NUL))
  }

  function ShiftUp(b: Auto, n: nat, unit: nat): (r: Auto)
    requires b.Ok() && unit > 0
    ensures r.Ok() && r.length == b.length + n && r.pos == b.pos + n
  {
    var f := FitSize(b, b.length + n, unit);
    SetLength(f.(mem := Gapped(f.mem, n, b.length)), b.pos + n, b.length + n)
  }

  function ShiftDown(b: Auto, n: nat): (r: Auto)
    requires b.Ok() && n <= b.length
    ensures r.Ok() && r.length == b.length - n && r.pos == Max(b.pos - n, 0)
  {
    var shifted := Overlay(b.mem, 0, b.mem[n..b.length]);
    SetLength(b.(mem := shifted), if n < b.pos then b.pos - n else 0, b.length - n)
  }

  /** Positive distances insert zeros in front, negative ones drop from the front, saturating. */
  function Move(b: Auto, distance: int, unit: nat): (r: Auto)
    requires b.Ok() && unit > 0
    ensures r.Ok()
  {
    if distance > 0 then ShiftUp(b, distance, unit) else ShiftDown(b, Min(-distance, b.length))
  }

  function AllocWrite(b: Auto, ready: nat, changeLength: bool, unit: nat): (r: Auto)
    requires b.Ok() && unit > 0
    ensures r.Ok()
  {
    var f := FitSize(b, b.pos + ready, unit);
    if changeLength then f.(length := Max(b.pos + ready, f.length)) else f
  }

  predicate Legal(b: Auto, op: Op) {
    match op
    case WriteAtOp(at, _) => at <= b.length
    case LengthOp(newPos, newLength) => newPos <= newLength <= b.Capacity()
    case _ => true
  }

  function Exec(b: Auto, op: Op, unit: nat): (r: Auto)
    requires b.Ok() && unit > 0 && Legal(b, op)
    ensures r.Ok()
  {
    match op
    case WriteOp(data) => Write(b, data, unit)
    case WriteAtOp(at, data) => WriteTo(b, at, data, unit)
    case SeekOp(offset, origin) => Seek(b, offset, origin)
    case MoveOp(distance) => Move(b, distance, unit)
    case AllocWriteOp(ready, change) => AllocWrite(b, ready, change, unit)
    case AddCapacityOp(extra) => FitSize(b, b.Capacity() + extra, unit)
    case LengthOp(newPos, newLength) => SetLength(b, newPos, newLength)
  }

  predicate LegalRun(b: Auto, ops: seq<Op>, unit: nat)
    requires b.Ok() && unit > 0
    decreases |ops|
  {
    ops == [] || (Legal(b, ops[0]) && LegalRun(Exec(b, ops[0], unit), ops[1..], unit))
  }

  function ExecAll(b: Auto, ops: seq<Op>, unit: nat): (r: Auto)
    requires b.Ok() && unit > 0 && LegalRun(b, ops, unit)
    ensures r.Ok()
    decreases |ops|
  {
    if ops == [] then b else ExecAll(Exec(b, ops[0], unit), ops[1..], unit)
  }

  // ---- the reference: an endless tape

  datatype Tape = Tape(cell: nat -> byte, pos: nat, length: nat)

  const BLANK := Tape((i: nat) => NUL, 0, 0)

  function TapeWrite(t: Tape, at: nat, data: seq<byte>): Tape {
    t.(cell := (i: nat) => if at <= i < at + |data| then data[i - at] else t.cell(i),
       length := if at + |data| > t.length then at + |data| else t.length)
  }

  function TapeSeek(t: Tape, target: int): Tape {
    t.(pos := if target <= 0 then 0 else if t.length <= target then t.length else target)
  }

  function TapeMove(t: Tape, distance: int): Tape {
    if distance > 0 then
      Tape((i: nat) => if i < distance then NUL else if i < distance + t.length then t.cell(i - distance) else t.cell(i),
           t.pos + distance, t.length + distance)
    else
      var n := if -distance < t.length then -distance else t.length;
      Tape((i: nat) => if i < t.length - n then t.cell(i + n) else t.cell(i),
           if n < t.pos then t.pos - n else 0, t.length - n)
  }

  function TapeOp(t: Tape, op: Op): Tape {
    match op
    case WriteOp(data) => TapeWrite(t, t.pos, data).(pos := t.pos + |data|)
    case WriteAtOp(at, data) => TapeWrite(t, at, data)
    case SeekOp(offset, origin) => TapeSeek(t, offset + match origin case SeekStart => 0 case SeekCur => t.pos case SeekEnd => t.length)
    case MoveOp(distance) => TapeMove(t, distance)
    case AllocWriteOp(ready, change) =>
      if change && t.pos + ready > t.length then t.(length := t.pos + ready) else t
    case AddCapacityOp(_) => t
    case LengthOp(newPos, newLength) => t.(pos := newPos, length := newLength)
  }

  function TapeAll(t: Tape, ops: seq<Op>): Tape
    decreases |ops|
  {
    if ops == [] then t else TapeAll(TapeOp(t, ops[0]), ops[1..])
  }

  ghost predicate Agrees(b: Auto, t: Tape) {
    && b.pos == t.pos && b.length == t.length
    && forall i: nat :: Cell(b.mem, i) == t.cell(i)
  }

  /** Every operation keeps buffer and tape in step, stale bytes included. */
  lemma OpRefinesTape(b: Auto, t: Tape, op: Op, unit: nat)
    requires b.Ok() && unit > 0 && Legal(b, op) && t.pos <= t.length && Agrees(b, t)
    ensures Agrees(Exec(b, op, unit), TapeOp(t, op))
  {
    match op {
      case MoveOp(distance) => MoveRefinesTape(b, t, distance, unit);
      case WriteOp(data) => WriteRefinesTape(b, t, b.pos, data, unit);
      case WriteAtOp(at, data) => WriteRefinesTape(b, t, at, data, unit);
      case _ =>
    }
    hide ShiftUp, ShiftDown, WriteTo;
  }

  lemma WriteRefinesTape(b: Auto, t: Tape, at: nat, data: seq<byte>, unit: nat)
    requires b.Ok() && unit > 0 && at <= b.length && Agrees(b, t)
    ensures Agrees(WriteTo(b, at, data, unit), TapeWrite(t, at, data))
  {
  }

  lemma MoveRefinesTape(b: Auto, t: Tape, distance: int, unit: nat)
    requires b.Ok() && unit > 0 && Agrees(b, t)
    ensures Agrees(Move(b, distance, unit), TapeMove(t, distance))
  {
    hide ShiftUp, ShiftDown;
    if distance > 0 {
      forall i: nat ensures Cell(ShiftUp(b, distance, unit).mem, i) == TapeMove(t, distance).cell(i) {
        ShiftUpCell(b, distance, unit, i);
      }
    } else {
      var n := Min(-distance, b.length);
      forall i: nat ensures Cell(ShiftDown(b, n).mem, i) == TapeMove(t, distance).cell(i) {
        ShiftDownCell(b, n, i);
      }
    }
  }

  lemma ShiftUpCell(b: Auto, n: nat, unit: nat, i: nat)
    requires b.Ok() && unit > 0
    ensures Cell(ShiftUp(b, n, unit).mem, i) ==
            if i < n then NUL
            else if i < n + b.length then Cell(b.mem, i - n)
            else Cell(b.mem, i)
  {
  }

  lemma ShiftDownCell(b: Auto, n: nat, i: nat)
    requires b.Ok() && n <= b.length
    ensures Cell(ShiftDown(b, n).mem, i) == if i < b.length - n then Cell(b.mem, i + n) else Cell(b.mem, i)
  {
  }

  lemma {:induction false} RunRefinesTape(b: Auto, t: Tape, ops: seq<Op>, unit: nat)
    requires b.Ok() && unit > 0 && LegalRun(b, ops, unit) && Agrees(b, t)
    ensures Agrees(ExecAll(b, ops, unit), TapeAll(t, ops))
    decreases |ops|
  {
    if ops != [] {
      OpRefinesTape(b, t, ops[0], unit);
      RunRefinesTape(Exec(b, ops[0], unit), TapeOp(t, ops[0]), ops[1..], unit);
    }
  }

  /** The allocation unit is unobservable: two fresh buffers with different units, run through
      the same operations, end with the same cursor, length and bytes, including every byte
      that a later lengthening could expose again. */
  lemma UnitIsUnobservable(ops: seq<Op>, unit1: nat, unit2: nat)
    requires unit1 > 0 && unit2 > 0
    requires LegalRun(Auto([], 0, 0), ops, unit1) && LegalRun(Auto([], 0, 0), ops, unit2)
    ensures var a, b := ExecAll(Auto([], 0, 0), ops, unit1), ExecAll(Auto([], 0, 0), ops, unit2);
            && a.Content() == b.Content() && a.pos == b.pos && a.length == b.length
            && forall i: nat :: Cell(a.mem, i) == Cell(b.mem, i)
  {
    RunRefinesTape(Auto([], 0, 0), BLANK, ops, unit1);
    RunRefinesTape(Auto([], 0, 0), BLANK, ops, unit2);
    var a, b := ExecAll(Auto([], 0, 0), ops, unit1), ExecAll(Auto([], 0, 0), ops, unit2);
    var t := TapeAll(BLANK, ops);
    forall i: nat ensures Cell(a.mem, i) == Cell(b.mem, i) {
      assert Cell(a.mem, i) == t.cell(i);
      assert Cell(b.mem, i) == t.cell(i);
    }
    forall i | 0 <= i < a.length ensures a.Content()[i] == b.Content()[i] {
      assert Cell(a.mem, i) == Cell(b.mem, i);
    }
  }

  // ---- move algebra on contents and cursor

  predicate SameText(a: Auto, b: Auto)
    requires a.Ok() && b.Ok()
  {
    a.Content() == b.Content() && a.pos == b.pos && a.length == b.length
  }

  function TextAfter(text: seq<byte>, distance: int): seq<byte> {
    if distance > 0 then Fill(distance, NUL) + text else text[Min(-distance, |text|)..]
  }

  function PosAfter(pos: nat, length: nat, distance: int): nat {
    if distance > 0 then pos + distance else Max(pos - Min(-distance, length), 0)
  }

  /** What Move leaves as contents and cursor. */
  lemma MoveText(b: Auto, distance: int, unit: nat, r: Auto)
    requires b.Ok() && unit > 0 && r == Move(b, distance, unit)
    ensures r.Ok() && r.length == |TextAfter(b.Content(), distance)|
    ensures r.Content() == TextAfter(b.Content(), distance)
    ensures r.pos == PosAfter(b.pos, b.length, distance)
  {
    hide ShiftUp, ShiftDown;
    forall i | 0 <= i < r.length
      ensures r.Content()[i] == TextAfter(b.Content(), distance)[i]
    {
      assert r.Content()[i] == Cell(r.mem, i);
      if distance > 0 {
        ShiftUpCell(b, distance, unit, i);
      } else {
        ShiftDownCell(b, Min(-distance, b.length), i);
      }
    }
  }

  lemma MoveThereAndBack(b: Auto, n: int, unit: nat)
    requires b.Ok() && unit > 0 && n >= 0
    ensures SameText(Move(Move(b, n, unit), -n, unit), b)
  {
    var r := Move(b, n, unit);
    MoveText(b, n, unit, r);
    MoveText(r, -n, unit, Move(r, -n, unit));
  }

  lemma MovesBackMerge(b: Auto, n: int, m: int, unit: nat)
    requires b.Ok() && unit > 0 && n >= 0 && m >= 0
    ensures SameText(Move(Move(b, -n, unit), -m, unit), Move(b, -(n + m), unit))
  {
    MergeBack(b, Move(b, -n, unit), Move(Move(b, -n, unit), -m, unit), Move(b, -(n + m), unit), n, m, unit);
  }

  lemma MergeBack(b: Auto, r: Auto, r': Auto, once: Auto, n: int, m: int, unit: nat)
    requires b.Ok() && r.Ok() && unit > 0 && n >= 0 && m >= 0
    requires r == Move(b, -n, unit) && r' == Move(r, -m, unit) && once == Move(b, -(n + m), unit)
    ensures SameText(r', once)
  {
    hide Move;
    MoveText(b, -n, unit, r);
    MoveText(r, -m, unit, r');
    MoveText(b, -(n + m), unit, once);
    DropDrop(b.Content(), n, m);
  }

  lemma DropDrop(s: seq<byte>, n: int, m: int)
    requires n >= 0 && m >= 0
    ensures TextAfter(TextAfter(s, -n), -m) == TextAfter(s, -(n + m))
  {
  }

  lemma MoveBackAndThere(b: Auto, n: int, unit: nat)
    requires b.Ok() && unit > 0 && 0 <= n <= b.length
    ensures var r := Move(Move(b, -n, unit), n, unit);
            r.Content() == Fill(n, NUL) + b.Content()[n..] && r.pos == Max(b.pos, n)
  {
    var r := Move(b, -n, unit);
    MoveText(b, -n, unit, r);
    MoveText(r, n, unit, Move(r, n, unit));
  }

  // ---- the object

  class AutoBuffer {
    var parray: array?<byte>
    var pos: int
    var length: nat
    var capacity: nat
    const unit: nat

    ghost predicate Valid()
      reads this
    {
      && 0 <= pos <= length <= capacity && unit > 0
      && capacity == (if parray == null then 0 else parray.Length)
    }

    /** Bytes of the allocation; none before the first growth. */
    ghost function Mem(): seq<byte>
      reads this, parray
    {
      if parray == null then [] else parray[..]
    }

    ghost function V(): Auto
      requires Valid()
      reads this, parray
    {
      Auto(Mem(), pos, length)
    }

    constructor (mallocUnit: nat)
      requires mallocUnit > 0
      ensures Valid() && V() == Auto([], 0, 0) && unit == mallocUnit && parray == null
    {
      parray, pos, length, capacity, unit := null, 0, 0, 0, mallocUnit;
    }

    /** realloc, then memset of the new part. */
    method FitSizeTo(len: nat)
      requires Valid()
      modifies this`parray, this`capacity
      ensures Valid() && V() == FitSize(old(V()), len, unit)
      ensures parray == old(parray) || fresh(parray)
      ensures len > 0 ==> parray != null
    {
      if len > capacity {
        RoundUpBounds(len, unit);
        var mallocsize := RoundUp(len, unit);
        var p := new byte[mallocsize];
        if parray != null {
          MemCopy(p, 0, parray[..]);
        }
        MemSet(p, capacity, NUL, mallocsize - capacity);
        parray := p;
        capacity := mallocsize;
      }
    }

    method WriteAtPos(at: nat, data: seq<byte>)
      requires Valid() && at <= length
      modifies this`parray, this`capacity, this`length, parray
      ensures Valid() && V() == WriteTo(old(V()), at, data, unit)
      ensures parray == old(parray) || fresh(parray)
      ensures at + |data| > 0 ==> parray != null
    {
      FitSizeTo(at + |data|);
      length := Max(at + |data|, length);
      if parray != null {
        MemCopy(parray, at, data);
      }
    }

    method Append(data: seq<byte>)
      requires Valid()
      modifies this`parray, this`capacity, this`length, this`pos, parray
      ensures Valid() && V() == Write(old(V()), data, unit)
      ensures parray == old(parray) || fresh(parray)
      ensures |data| > 0 ==> parray != null
    {
      WriteAtPos(pos, data);
      SeekTo(|data|, SeekCur);
    }

    method SeekTo(offset: int, origin: Origin)
      requires length <= capacity && unit > 0 && capacity == (if parray == null then 0 else parray.Length)
      modifies this`pos
      ensures Valid() && pos == Clamp(SeekTarget(old(pos), length, offset, origin), length)
    {
      match origin {
        case SeekStart => pos := offset;
        case SeekCur => pos := pos + offset;
        case SeekEnd => pos := length + offset;
      }
      if pos < 0 {
        pos := 0;
      }
      if pos > length {
        pos := length;
      }
    }

    method SetLengthTo(newPos: nat, newLength: nat)
      requires Valid() && newPos <= newLength <= capacity
      modifies this`pos, this`length
      ensures Valid() && V() == SetLength(old(V()), newPos, newLength)
    {
      length := newLength;
      SeekTo(newPos, SeekStart);
    }

    method AllocateToWrite(ready: nat, changeLength: bool)
      requires Valid()
      modifies this`parray, this`capacity, this`length
      ensures Valid() && V() == AllocWrite(old(V()), ready, changeLength, unit)
      ensures parray == old(parray) || fresh(parray)
    {
      FitSizeTo(pos + ready);
      if changeLength {
        length := Max(pos + ready, length);
      }
    }

    method AddCapacityBy(extra: nat)
      requires Valid()
      modifies this`parray, this`capacity
      ensures Valid() && V() == FitSize(old(V()), old(capacity) + extra, unit)
      ensures parray == old(parray) || fresh(parray)
    {
      FitSizeTo(capacity + extra);
    }

    method MoveBy(distance: int) returns (newLength: nat)
      requires Valid()
      modifies this`parray, this`capacity, this`length, this`pos, parray
      ensures Valid() && V() == Move(old(V()), distance, unit) && newLength == length
      ensures parray == old(parray) || fresh(parray)
    {
      if distance > 0 {
        MoveUpBy(distance);
      } else {
        MoveDownBy(Min(-distance, length));
      }
      newLength := length;
    }

    method MoveUpBy(n: nat)
      requires Valid() && n > 0
      modifies this`parray, this`capacity, this`length, this`pos, parray
      ensures Valid() && V() == ShiftUp(old(V()), n, unit)
      ensures parray == old(parray) || fresh(parray)
    {
      hide FitSize, Gapped, RoundUp;
      FitSizeTo(length + n);
      OpenGap(parray, n, length);
      SetLengthTo(pos + n, length + n);
    }

    static method OpenGap(a: array<byte>, n: nat, len: nat)
      requires len + n <= a.Length
      modifies a
      ensures a[..] == Gapped(old(a[..]), n, len)
    {
      MemMove(a, n, 0, len);
      MemSet(a, 0, NUL, n);
    }

    method MoveDownBy(n: nat)
      requires Valid() && n <= length
      modifies this`length, this`pos, parray
      ensures Valid() && V() == ShiftDown(old(V()), n)
    {
      if parray != null {
        MemMove(parray, 0, n, length - n);
      }
      var newPos := if n < pos then pos - n else 0;
      SetLengthTo(newPos, length - n);
    }

    method Reset()
      modifies this
      requires unit > 0
      ensures Valid() && V() == Auto([], 0, 0) && parray == null
    {
      parray, pos, length, capacity := null, 0, 0, 0;
    }

    /** Hand the allocation to the caller and forget it. */
    method Detach() returns (p: array?<byte>, len: nat)
      requires Valid()
      modifies this
      ensures p == old(parray) && len == old(length)
      ensures Valid() && V() == Auto([], 0, 0) && parray == null
    {
      p, len := parray, length;
      Reset();
    }

    method Attach(p: array<byte>)
      requires unit > 0
      modifies this
      ensures Valid() && parray == p && V() == Auto(p[..], 0, p.Length)
    {
      parray, pos, length, capacity := p, 0, p.Length, p.Length;
    }

    /** Attach(AutoBuffer&): take over another buffer whole, leaving it empty. */
    method TakeOver(rhs: AutoBuffer)
      requires unit > 0 && rhs != this && rhs.Valid()
      modifies this, rhs
      ensures Valid() && V() == old(rhs.V()) && parray == old(rhs.parray)
      ensures rhs.Valid() && rhs.V() == Auto([], 0, 0) && rhs.parray == null
    {
      parray, pos, length, capacity := rhs.parray, rhs.pos, rhs.length, rhs.capacity;
      rhs.Reset();
    }
  }
}
