/** Byte strings, the C string conventions the log format rests on, and the
    three memory primitives (memcpy, memset, memmove) as loops over arrays. */
module Bytes {

  newtype byte = b: int | 0 <= b < 256

  const NUL: byte := 0
  const LF: byte := 10
  const CR: byte := 13

  datatype Option<+T> = None | Some(value: T)

  /** Origin of a Seek, in both buffer classes. */
  datatype Origin = SeekStart | SeekCur | SeekEnd

  function SeekTarget(pos: int, length: nat, offset: int, origin: Origin): int {
    match origin
    case SeekStart => offset
    case SeekCur => pos + offset
    case SeekEnd => length + offset
  }

  /** Seek clamps its target into [0, length]. */
  function Clamp(pos: int, length: nat): (r: nat)
    ensures r <= length
  {
    if pos < 0 then 0 else if pos > length then length else pos
  }

  function Min(a: int, b: int): int { if a <= b then a else b }

  function Max(a: int, b: int): int { if a >= b then a else b }

  /** The bytes of an ASCII text. */
  function Ascii(s: string): (r: seq<byte>)
    requires forall i :: 0 <= i < |s| ==> s[i] as int < 128
  {
    seq(|s|, i requires 0 <= i < |s| => s[i] as int as byte)
  }

  predicate NulFree(s: seq<byte>) {
    forall i :: 0 <= i < |s| ==> s[i] != NUL
  }

  /** What a reader sees: everything before the first NUL (all of it if there is none). */
  function FirstNul(s: seq<byte>): (n: nat)
    ensures n <= |s|
    ensures NulFree(s[..n])
    ensures n < |s| ==> s[n] == NUL
  {
    if s == [] || s[0] == NUL then 0
    else
      assert s[1..][..FirstNul(s[1..])] == s[1..1 + FirstNul(s[1..])];
      1 + FirstNul(s[1..])
  }

  function Decode(s: seq<byte>): seq<byte> { s[..FirstNul(s)] }

  /** What a reader looks for: the first b, or the end. */
  function Until(s: seq<byte>, b: byte): (n: nat)
    ensures n <= |s| && b !in s[..n] && (n < |s| ==> s[n] == b)
  {
    if s == [] || s[0] == b then 0
    else
      assert s[..1 + Until(s[1..], b)] == [s[0]] + s[1..][..Until(s[1..], b)];
      1 + Until(s[1..], b)
  }

  lemma UntilFinds(a: seq<byte>, b: byte, rest: seq<byte>)
    requires b !in a
    ensures Until(a + [b] + rest, b) == |a|
  {
    var s := a + [b] + rest;
    forall i | 0 <= i < |a| ensures s[i] != b {
      assert s[i] == a[i];
    }
    forall i | 0 <= i < Until(s, b) ensures s[i] != b {
      assert s[i] == s[..Until(s, b)][i];
    }
    assert s[|a|] == b;
  }

  lemma FirstNulUnique(s: seq<byte>, n: nat)
    requires n <= |s| && NulFree(s[..n]) && (n < |s| ==> s[n] == NUL)
    ensures FirstNul(s) == n
  {
    var m := FirstNul(s);
    forall i | 0 <= i < n ensures s[i] != NUL {
      assert s[..n][i] != NUL;
    }
    forall i | 0 <= i < m ensures s[i] != NUL {
      assert s[..m][i] != NUL;
    }
  }

  /** `xs` written over `mem` from index `at`. */
  function Overlay(mem: seq<byte>, at: nat, xs: seq<byte>): (r: seq<byte>)
    requires at + |xs| <= |mem|
    ensures |r| == |mem|
    ensures forall i :: 0 <= i < |mem| ==> r[i] == if at <= i < at + |xs| then xs[i - at] else mem[i]
  {
    mem[..at] + xs + mem[at + |xs|..]
  }

  function Fill(n: nat, b: byte): (r: seq<byte>)
    ensures |r| == n && forall i :: 0 <= i < n ==> r[i] == b
  {
    seq(n, _ => b)
  }

  function Flatten(ss: seq<seq<byte>>): seq<byte> {
    if ss == [] then [] else Flatten(ss[..|ss| - 1]) + ss[|ss| - 1]
  }

  lemma {:induction false} FlattenConcat(a: seq<seq<byte>>, b: seq<seq<byte>>)
    ensures Flatten(a + b) == Flatten(a) + Flatten(b)
    decreases |b|
  {
    if b == [] {
      assert a + b == a;
    } else {
      var b' := b[..|b| - 1];
      assert (a + b)[..|a + b| - 1] == a + b';
      FlattenConcat(a, b');
    }
  }

  lemma FlattenSnoc(a: seq<seq<byte>>, x: seq<byte>)
    ensures Flatten(a + [x]) == Flatten(a) + x
  {
    assert (a + [x])[..|a|] == a;
  }

  lemma FlattenOne(x: seq<byte>)
    ensures Flatten([x]) == x
  {
    FlattenSnoc([], x);
    assert [] + [x] == [x];
  }

  // ---- decimal text, as printf's %d prints a non-negative number

  function Decimal(n: nat): (r: seq<byte>)
    ensures r != [] && NulFree(r) && LF !in r
  {
    var digit := 48 + n % 10;
    if n < 10 then [digit as byte] else Decimal(n / 10) + [digit as byte]
  }

  lemma {:induction false} DecimalDigitsOnly(n: nat)
    ensures forall i :: 0 <= i < |Decimal(n)| ==> 48 <= Decimal(n)[i] <= 57
  {
    if n >= 10 {
      DecimalDigitsOnly(n / 10);
    }
  }

  /** The number a digit string denotes: the inverse of Decimal. */
  function DecimalValue(ds: seq<byte>): int {
    if ds == [] then 0 else 10 * DecimalValue(ds[..|ds| - 1]) + (ds[|ds| - 1] as int - 48)
  }

  lemma {:induction false} DecimalRoundTrip(n: nat)
    ensures DecimalValue(Decimal(n)) == n
  {
    if n >= 10 {
      DecimalRoundTrip(n / 10);
      var ds := Decimal(n);
      assert ds[..|ds| - 1] == Decimal(n / 10);
    }
  }

  lemma {:induction false} DecimalLength(n: nat, digits: nat, bound: nat)
    requires digits >= 1 && bound == Pow10(digits) && n < bound
    ensures |Decimal(n)| <= digits
    decreases digits
  {
    if n >= 10 {
      DecimalLength(n / 10, digits - 1, Pow10(digits - 1));
    }
  }

  lemma {:induction false} DecimalDigits(n: nat, digits: nat)
    requires digits >= 1 && (digits == 1 || Pow10(digits - 1) <= n) && n < Pow10(digits)
    ensures |Decimal(n)| == digits
    decreases digits
  {
    if digits > 1 {
      DecimalDigits(n / 10, digits - 1);
    }
  }

  function Pow10(k: nat): nat { if k == 0 then 1 else 10 * Pow10(k - 1) }

  // ---- memory primitives

  /** memcpy from a disjoint source. */
  method MemCopy(dst: array<byte>, at: nat, src: seq<byte>)
    requires at + |src| <= dst.Length
    modifies dst
    ensures dst[..] == Overlay(old(dst[..]), at, src)
  {
    for i := 0 to |src|
      invariant forall k :: 0 <= k < dst.Length ==> dst[k] == if at <= k < at + i then src[k - at] else old(dst[k])
    {
      dst[at + i] := src[i];
    }
  }

  method MemSet(dst: array<byte>, at: nat, b: byte, n: nat)
    requires at + n <= dst.Length
    modifies dst
    ensures dst[..] == Overlay(old(dst[..]), at, Fill(n, b))
  {
    for i := 0 to n
      invariant forall k :: 0 <= k < dst.Length ==> dst[k] == if at <= k < at + i then b else old(dst[k])
    {
      dst[at + i] := b;
    }
  }

  /** memmove inside one array: the two ranges may overlap in either direction. */
  method MemMove(a: array<byte>, dst: nat, src: nat, n: nat)
    requires dst + n <= a.Length && src + n <= a.Length
    modifies a
    ensures a[..] == Overlay(old(a[..]), dst, old(a[src..src + n]))
  {
    if dst <= src {
      MoveDown(a, dst, src, n);
    } else {
      MoveUp(a, dst, src, n);
    }
  }

  method MoveDown(a: array<byte>, dst: nat, src: nat, n: nat)
    requires dst <= src && src + n <= a.Length
    modifies a
    ensures a[..] == Overlay(old(a[..]), dst, old(a[src..src + n]))
  {
    for i := 0 to n
      invariant forall k :: dst <= k < dst + i ==> a[k] == old(a[k + (src - dst)])
      invariant forall k :: 0 <= k < dst || dst + i <= k < a.Length ==> a[k] == old(a[k])
    {
      a[dst + i] := a[src + i];
    }
  }

  method MoveUp(a: array<byte>, dst: nat, src: nat, n: nat)
    requires src < dst && dst + n <= a.Length
    modifies a
    ensures a[..] == Overlay(old(a[..]), dst, old(a[src..src + n]))
  {
    for i := n downto 0
      invariant forall k :: dst + i <= k < dst + n ==> a[k] == old(a[k - (dst - src)])
      invariant forall k :: 0 <= k < dst + i || dst + n <= k < a.Length ==> a[k] == old(a[k])
    {
      a[dst + i] := a[src + i];
    }
  }

  /** strnlen over the first n bytes of an array. */
  method Strnlen(a: array<byte>, n: nat) returns (len: nat)
    requires n <= a.Length
    ensures len == FirstNul(a[..n])
  {
    len := 0;
    while len < n && a[len] != NUL
      invariant len <= n && NulFree(a[..len])
    {
      len := len + 1;
    }
    assert a[..n][..len] == a[..len];
    FirstNulUnique(a[..n], len);
  }
}
