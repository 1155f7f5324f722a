/** The registry of shared appenders in loglib/mtaf_appender.cpp and one round of the shared thread
    over it, under the shared spinlock. */
module Registry {
  import opened Bytes
  import opened Appenders
  import LogBuffers
  import PtrBuffers

  /** The vector erase of destroy: the first occurrence goes, the rest keep their order. */
  function Without<T(==)>(xs: seq<T>, x: T): (r: seq<T>)
    ensures x !in xs ==> r == xs
    ensures x in xs ==> |r| == |xs| - 1
    ensures multiset(r) == multiset(xs) - multiset{x}
  {
    if xs == [] then []
    else if xs[0] == x then
      assert xs == [x] + xs[1..];
      xs[1..]
    else
      assert xs == [xs[0]] + xs[1..];
      [xs[0]] + Without(xs[1..], x)
  }

  lemma PutBack<T>(xs: seq<T>, i: nat)
    requires 0 < i < |xs|
    ensures [xs[0]] + (xs[1..][..i - 1] + xs[1..][i..]) == xs[..i] + xs[i + 1..]
  {
  }

  lemma {:induction false} WithoutAt<T>(xs: seq<T>, x: T, i: nat)
    requires i < |xs| && xs[i] == x && x !in xs[..i]
    ensures Without(xs, x) == xs[..i] + xs[i + 1..]
    decreases i
  {
    if i > 0 {
      var rest := xs[1..];
      assert xs[..i][0] != x;
      assert rest[..i - 1] == xs[..i][1..];
      WithoutAt(rest, x, i - 1);
      PutBack(xs, i);
    }
  }

  /** Different appenders share no area and no buffer. */
  ghost predicate Separate(xs: seq<Appender>)
    reads xs, set x | x in xs && x.logBuff != null :: x.logBuff
  {
    forall i, j :: 0 <= i < j < |xs| ==>
      && xs[i] != xs[j] && xs[i].area != xs[j].area
      && (xs[i].logBuff != null && xs[j].logBuff != null ==> xs[i].logBuff.buff != xs[j].logBuff.buff)
  }

  class SharedAppenders {
    var appenders: seq<Appender>

    constructor ()
      ensures appenders == []
    {
      appenders := [];
    }

    method PushBack(x: Appender)
      modifies this
      ensures appenders == old(appenders) + [x]
    {
      appenders := appenders + [x];
    }

    method Erase(x: Appender)
      modifies this
      ensures appenders == Without(old(appenders), x)
    {
      var i := 0;
      while i < |appenders|
        invariant 0 <= i <= |appenders| && appenders == old(appenders) && x !in appenders[..i]
      {
        if appenders[i] == x {
          WithoutAt(appenders, x, i);
          appenders := appenders[..i] + appenders[i + 1..];
          return;
        }
        i := i + 1;
      }
      assert appenders[..i] == appenders;
    }

    /** One round of __async_log_shared_thread_operation: every open appender is drained and its block
        written, every closed one is left alone. */
    method FlushRound(openOk: nat -> bool, writeOk: nat -> bool, ghost repr: set<object>)
      requires Separate(appenders) && this !in repr
      requires forall k :: 0 <= k < |appenders| ==>
                 && appenders[k].Valid() && appenders[k] in repr && appenders[k].area in repr
                 && (appenders[k].logBuff != null ==> appenders[k].logBuff.buff in repr)
      modifies repr
      ensures forall k :: 0 <= k < |appenders| ==>
                && appenders[k].Valid()
                && Snapshot(appenders[k]) == Visited(old(Snapshot(appenders[k])), openOk(k) && writeOk(k))
      ensures forall k :: 0 <= k < |appenders| && old(appenders[k].logClose) ==>
                Snapshot(appenders[k]) == old(Snapshot(appenders[k]))
      ensures forall k :: 0 <= k < |appenders| && !old(appenders[k].logClose) ==>
                var was, now := old(Snapshot(appenders[k])), Snapshot(appenders[k]);
                && was.view.Some? && !now.closed && now.view.Some?
                && forall live :: LogBuffers.CursorAt(was.view.value, live) ==>
                     && now.file == was.file + (if live != [] && openOk(k) && writeOk(k) then [live] else [])
                     && LogBuffers.CursorAt(now.view.value, [])
    {
      for i := 0 to |appenders|
        invariant Separate(appenders)
        invariant forall k :: 0 <= k < |appenders| ==>
                    && appenders[k].Valid()
                    && (appenders[k].logBuff != null ==> appenders[k].logBuff.buff in repr)
                    && Snapshot(appenders[k]) ==
                       if k < i then Visited(old(Snapshot(appenders[k])), openOk(k) && writeOk(k))
                       else old(Snapshot(appenders[k]))
      {
        hide Visited, Snapshot, Appender.Valid, Separate;
        VisitAt(appenders, i, appenders[i], openOk(i), writeOk(i));
      }
      forall k | 0 <= k < |appenders| ensures VisitWell(old(Snapshot(appenders[k])), Snapshot(appenders[k]), openOk(k) && writeOk(k)) {
        VisitWrites(old(Snapshot(appenders[k])), openOk(k) && writeOk(k));
      }
    }
  }

  /** One visit within the registry: the other appenders do not notice. */
  method VisitAt(xs: seq<Appender>, i: nat, x: Appender, openOk: bool, writeOk: bool)
    requires Separate(xs) && i < |xs| && x == xs[i] && forall k :: 0 <= k < |xs| ==> xs[k].Valid()
    modifies x.area, x`file, x`logfileOpen, if x.logBuff == null then {} else {x.logBuff.buff}
    ensures Separate(xs)
    ensures x.Valid() && Snapshot(x) == Visited(old(Snapshot(x)), openOk && writeOk)
    ensures forall k :: 0 <= k < |xs| && k != i ==> xs[k].Valid() && Snapshot(xs[k]) == old(Snapshot(xs[k]))
  {
    hide LogBuffers.Clear, LogBuffers.Drained;
    if !x.logClose {
      VisitOpen(x, openOk, writeOk);
    }
  }

  /** Everything about an appender that a flush can change. */
  datatype Snap = Snap(closed: bool, view: Option<PtrBuffers.View>, area: seq<byte>, file: seq<seq<byte>>)

  ghost function Snapshot(x: Appender): Snap
    requires x.Valid()
    reads x, x.area, x.logBuff, if x.logBuff == null then {} else {x.logBuff.buff}
  {
    Snap(x.logClose, if x.logBuff == null then None else Some(x.logBuff.V()), x.area[..], x.file)
  }

  /** One visit, on values: a closed appender stays, an open one is drained into its file. */
  function Visited(s: Snap, ok: bool): Snap
    requires s.view.Some? ==> LogBuffers.WholeArea(s.view.value)
  {
    if s.closed || s.view.None? then s
    else
      var block := LogBuffers.Drained(s.view.value);
      Snap(false, Some(LogBuffers.Clear(s.view.value)), LogBuffers.Clear(s.view.value).mem,
           s.file + if block.Some? && ok then [block.value] else [])
  }

  /** A closed appender is as it was; an open one has its live bytes in the file, as one more block if
      there are any and the write succeeds, and an empty buffer. */
  ghost predicate VisitWell(s: Snap, t: Snap, ok: bool) {
    if s.closed then t == s
    else
      s.view.Some? ==>
        && !t.closed && t.view.Some?
        && forall live :: LogBuffers.CursorAt(s.view.value, live) ==>
             && t.file == s.file + (if live != [] && ok then [live] else [])
             && LogBuffers.CursorAt(t.view.value, [])
  }

  lemma VisitWrites(s: Snap, ok: bool)
    requires s.view.Some? ==> LogBuffers.WholeArea(s.view.value)
    ensures VisitWell(s, Visited(s, ok), ok)
  {
    if s.view.Some? {
      forall live | LogBuffers.CursorAt(s.view.value, live)
        ensures LogBuffers.Drained(s.view.value) == if live == [] then None else Some(live)
        ensures LogBuffers.CursorAt(LogBuffers.Clear(s.view.value), [])
      {
        LogBuffers.FlushTakesLive(s.view.value, live);
      }
    }
    hide LogBuffers.Drained, LogBuffers.Clear, LogBuffers.CursorAt;
  }

  method VisitOpen(x: Appender, openOk: bool, writeOk: bool)
    requires x.Valid() && !x.logClose
    modifies x.area, x.logBuff.buff, x`file, x`logfileOpen
    ensures x.Valid() && Snapshot(x) == Visited(old(Snapshot(x)), openOk && writeOk)
  {
    ghost var v := x.logBuff.V();
    var tmp := x.TakeBlock();
    DrainedNotEmpty(v);
    assert tmp.parray != null ==> |tmp.V().Content()| > 0;
    x.LogToFile(tmp, openOk, writeOk);
  }

  lemma DrainedNotEmpty(v: PtrBuffers.View)
    requires LogBuffers.WholeArea(v)
    ensures LogBuffers.Drained(v).Some? ==> LogBuffers.Drained(v).value != []
  {
  }
}
