/** comm/mtaf_ptrbuffer.cc: a cursor over borrowed memory of fixed size.
    The memory may be larger than the buffer's own limit, so that a write past
    the limit is something the model can express. */
module PtrBuffers {
  import opened Bytes

  const SIZE_T: nat := 0x1_0000_0000_0000_0000
  const UINT: nat := 0x1_0000_0000

  /** Value of a PtrBuffer: the whole borrowed memory and the three counters. */
  datatype View = View(mem: seq<byte>, pos: nat, length: nat, max: nat) {
    predicate Ok() {
      pos <= length <= max <= |mem| && max < UINT
    }

    function Content(): seq<byte>
      requires length <= |mem|
    {
      mem[..length]
    }
  }

  /** What Write puts behind the data while there is room: three NULs and a CR. */
  const TERMINATOR: seq<byte> := [NUL, NUL, NUL, CR]

  /** a - b on size_t: wraps. */
  function SubSizeT(a: nat, b: nat): nat
    requires a < SIZE_T && b < SIZE_T
  {
    if a >= b then a - b else a + SIZE_T - b
  }

  function CopyLength(v: View, at: nat, n: nat): (r: nat)
    requires v.Ok() && at <= v.length
    ensures r <= n && at + r <= v.max
  {
    Min(n, v.max - at)
  }

  /** Whether a write of n bytes at `at` is followed by the terminator. */
  predicate Terminates(v: View, at: nat, n: nat)
    requires v.Ok() && at <= v.length
  {
    Max(v.length, at + CopyLength(v, at, n)) < SubSizeT(v.max, 4)
  }

  /** One past the last byte a write of n bytes at `at` stores to. */
  function WriteEnd(v: View, at: nat, n: nat): nat
    requires v.Ok() && at <= v.length
  {
    at + CopyLength(v, at, n) + if Terminates(v, at, n) then 4 else 0
  }

  /** Memory after storing xs at `at`, with or without the terminator behind it. */
  function Stored(mem: seq<byte>, at: nat, xs: seq<byte>, terminate: bool): (r: seq<byte>)
    requires at + |xs| + (if terminate then 4 else 0) <= |mem|
    ensures |r| == |mem|
  {
    var copied := Overlay(mem, at, xs);
    if terminate then Overlay(copied, at + |xs|, TERMINATOR) else copied
  }

  function WriteAt(v: View, at: nat, data: seq<byte>): (r: View)
    requires v.Ok() && at <= v.length && WriteEnd(v, at, |data|) <= |v.mem|
    ensures r.Ok()
  {
    var n := CopyLength(v, at, |data|);
    v.(mem := Stored(v.mem, at, data[..n], Terminates(v, at, |data|)), length := Max(v.length, at + n))
  }

  /** Seek's clamp: the upper comparison casts the position to unsigned int and so sees only its
      low 32 bits. */
  function SeekClamp(pos: int, length: nat): nat {
    if pos < 0 then 0 else if pos % UINT > length then length else pos
  }

  /** The cursor write: write at the cursor, then advance by the REQUESTED length. */
  function Append(v: View, data: seq<byte>): (r: View)
    requires v.Ok() && WriteEnd(v, v.pos, |data|) <= |v.mem| && v.pos + |data| < UINT
    ensures r.Ok()
  {
    var w := WriteAt(v, v.pos, data);
    w.(pos := SeekClamp(v.pos + |data|, w.length))
  }

  function SetLength(v: View, pos: nat, length: nat): (r: View)
    requires v.Ok() && pos <= length && pos < UINT
    ensures r.Ok()
  {
    v.(length := Min(v.max, length), pos := SeekClamp(pos, Min(v.max, length)))
  }

  function Attached(mem: seq<byte>, length: nat): View { View(mem, 0, length, length) }

  // ---- properties

  /** A write stays inside the buffer's own limit for every input exactly when the limit is at
      least 4: below that, max - 4 wraps and the terminator is stored past the end. */
  lemma StaysInsideIff(v: View, at: nat, n: nat)
    requires v.Ok() && at <= v.length
    ensures WriteEnd(v, at, n) <= v.max <==> v.max >= 4
  {
  }

  /** Seek keeps the cursor inside the contents exactly when the target is below 2^32 or its low 32
      bits exceed the length; then it is the plain clamp. Otherwise the cursor is left far outside. */
  lemma SeekStaysInsideIff(pos: int, length: nat)
    requires length < UINT
    ensures SeekClamp(pos, length) <= length <==> pos < UINT || pos % UINT > length
    ensures SeekClamp(pos, length) <= length ==>
              SeekClamp(pos, length) == Clamp(pos, length) == if pos < 0 then 0 else if pos > length then length else pos
  {
  }

  /** What a write at any position stores: the input as far as it fits, behind it three NULs and a CR
      while the length stays more than 4 below the limit, and nothing else; the length grows to the end
      of what was stored, and never shrinks. */
  lemma WriteAnywhere(v: View, at: nat, data: seq<byte>)
    requires v.Ok() && v.max >= 4 && at <= v.length
    ensures WriteEnd(v, at, |data|) <= |v.mem|
    ensures var r := WriteAt(v, at, data); var n := Min(|data|, v.max - at);
            && r.max == v.max && r.pos == v.pos && |r.mem| == |v.mem|
            && r.length == (if at + n > v.length then at + n else v.length)
            && r.mem[..at] == v.mem[..at] && r.mem[at..at + n] == data[..n]
            && if r.length < v.max - 4 then
                 r.mem[at + n..at + n + 4] == [0, 0, 0, 13] && r.mem[at + n + 4..] == v.mem[at + n + 4..]
               else r.mem[at + n..] == v.mem[at + n..]
  {
    var n := Min(|data|, v.max - at);
    var r := WriteAt(v, at, data);
    if r.length < v.max - 4 {
      assert r.mem == Overlay(Overlay(v.mem, at, data[..n]), at + n, [0, 0, 0, 13]);
    } else {
      assert r.mem == Overlay(v.mem, at, data[..n]);
    }
  }

  lemma OutsideUntouched(v: View, data: seq<byte>)
    requires v.Ok() && v.max >= 4 && v.pos + |data| < UINT
    ensures WriteEnd(v, v.pos, |data|) <= |v.mem|
    ensures var r := Append(v, data); r.max == v.max && |r.mem| == |v.mem| && r.mem[v.max..] == v.mem[v.max..]
  {
  }

  /** Cursor at the end: what one append stores, where the cursor lands, and the NUL behind it. */
  lemma AppendAtEnd(v: View, data: seq<byte>)
    requires v.Ok() && v.max >= 4 && v.pos == v.length && v.pos + |data| < UINT
    ensures WriteEnd(v, v.pos, |data|) <= |v.mem|
    ensures var r := Append(v, data); var n := Min(|data|, v.max - v.length);
            && r.Content() == v.Content() + data[..n]
            && r.pos == r.length == v.length + n
            && (r.length < v.max - 4 ==> r.mem[r.length..r.length + 4] == [0, 0, 0, 13])
  {
    var r := Append(v, data);
    var n := Min(|data|, v.max - v.length);
    forall i | 0 <= i < r.length
      ensures r.Content()[i] == (v.Content() + data[..n])[i]
    {
    }
  }

  /** Each chunk is short enough for the cursor arithmetic of an append anywhere in the buffer. */
  predicate ChunksFit(chunks: seq<seq<byte>>, max: nat) {
    forall i :: 0 <= i < |chunks| ==> max + |chunks[i]| < UINT
  }

  function AppendAll(v: View, chunks: seq<seq<byte>>): (r: View)
    requires v.Ok() && v.max >= 4 && ChunksFit(chunks, v.max)
    ensures r.Ok() && r.max == v.max && |r.mem| == |v.mem|
  {
    if chunks == [] then v
    else
      var w := AppendAll(v, chunks[..|chunks| - 1]);
      OutsideUntouched(w, chunks[|chunks| - 1]);
      Append(w, chunks[|chunks| - 1])
  }

  /** Any sequence of cursor appends to an empty buffer holds exactly the first
      min(total, max) bytes of the concatenated inputs and touches nothing else. */
  lemma {:induction false} AppendsKeepPrefix(v: View, chunks: seq<seq<byte>>)
    requires v.Ok() && v.max >= 4 && v.pos == v.length == 0 && ChunksFit(chunks, v.max)
    ensures var r := AppendAll(v, chunks); var all := Flatten(chunks);
            && r.Content() == all[..Min(|all|, v.max)]
            && r.pos == r.length == Min(|all|, v.max)
            && r.mem[v.max..] == v.mem[v.max..]
    decreases |chunks|
  {
    if chunks != [] {
      var init, last := chunks[..|chunks| - 1], chunks[|chunks| - 1];
      AppendsKeepPrefix(v, init);
      var w := AppendAll(v, init);
      AppendAtEnd(w, last);
      OutsideUntouched(w, last);
      var pre := Flatten(init);
      assert Flatten(chunks) == pre + last;
      TakeOfConcat(pre, last, v.max);
    }
  }

  lemma TakeOfConcat(a: seq<byte>, b: seq<byte>, max: nat)
    ensures var k := Min(|a|, max); a[..k] + b[..Min(|b|, max - k)] == (a + b)[..Min(|a + b|, max)]
  {
  }

  // ---- the object

  class PtrBuffer {
    var parray: array<byte>
    var pos: int
    var length: nat
    var maxLength: nat

    ghost predicate Valid()
      reads this
    {
      0 <= pos <= length <= maxLength <= parray.Length && maxLength < UINT
    }

    ghost function V(): View
      requires Valid()
      reads this, parray
    {
      View(parray[..], pos, length, maxLength)
    }

    constructor (p: array<byte>, len: nat, maxlen: nat)
      requires len <= maxlen <= p.Length && maxlen < UINT
      ensures Valid() && parray == p && V() == View(p[..], 0, len, maxlen)
    {
      parray, pos, length, maxLength := p, 0, len, maxlen;
    }

    method Store(xs: seq<byte>, at: nat, terminate: bool)
      requires at + |xs| + (if terminate then 4 else 0) <= parray.Length
      modifies parray
      ensures parray[..] == Stored(old(parray[..]), at, xs, terminate)
    {
      MemCopy(parray, at, xs);
      if terminate {
        MemSet(parray, at + |xs|, NUL, 3);
        MemSet(parray, at + |xs| + 3, CR, 1);
      }
    }

    method WriteAtPos(data: seq<byte>, at: nat)
      requires Valid() && at <= length && WriteEnd(V(), at, |data|) <= parray.Length
      modifies this`length, parray
      ensures Valid() && V() == WriteAt(old(V()), at, data)
    {
      hide Stored;
      var copylen := Min(|data|, maxLength - at);
      length := Max(length, at + copylen);
      Store(data[..copylen], at, length < SubSizeT(maxLength, 4));
    }

    method Write(data: seq<byte>)
      requires Valid() && WriteEnd(V(), pos, |data|) <= parray.Length && pos + |data| < UINT
      modifies this`length, this`pos, parray
      ensures Valid() && V() == Append(old(V()), data)
    {
      WriteAtPos(data, pos);
      Seek(|data|, SeekCur);
    }

    method Seek(offset: int, origin: Origin)
      requires length <= maxLength <= parray.Length && maxLength < UINT
      modifies this`pos
      ensures origin.SeekStart? ==> pos == SeekClamp(offset, length)
      ensures origin.SeekCur? ==> pos == SeekClamp(old(pos) + offset, length)
      ensures origin.SeekEnd? ==> pos == SeekClamp(length + offset, length)
      ensures var target := SeekTarget(old(pos), length, offset, origin);
              pos == SeekClamp(target, length) && (Valid() <==> target < UINT || target % UINT > length)
    {
      match origin {
        case SeekStart => pos := offset;
        case SeekCur => pos := pos + offset;
        case SeekEnd => pos := length + offset;
      }
      if pos < 0 {
        pos := 0;
      }
      if pos % UINT > length {
        pos := length;
      }
    }

    method SetLengthTo(newPos: nat, newLength: nat)
      requires Valid() && newPos <= newLength && newPos < UINT
      modifies this`pos, this`length
      ensures Valid() && V() == SetLength(old(V()), newPos, newLength)
      ensures length == if maxLength < newLength then maxLength else newLength
      ensures pos == if newPos > length then length else newPos
    {
      length := if maxLength < newLength then maxLength else newLength;
      Seek(newPos, SeekStart);
    }

    method Attach(p: array<byte>, len: nat)
      requires len <= p.Length && len < UINT
      modifies this
      ensures Valid() && parray == p && V() == View(p[..], 0, len, len)
    {
      parray, pos, length, maxLength := p, 0, len, len;
    }
  }
}
