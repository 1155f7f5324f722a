/** The appender object carries out the steps of the pipeline machine: each locked section, run on an
    object that represents a state, leaves the object representing the machine's next state. */
module Refinement {
  import opened Bytes
  import opened Appenders
  import AutoBuffers
  import Formatter
  import LogBuffers
  import Shared = Registry
  import opened Pipeline

  function FileBytes(file: seq<Block>): (r: seq<seq<byte>>)
    ensures |r| == |file|
  {
    seq(|file|, j requires 0 <= j < |file| => file[j].bytes)
  }

  ghost predicate Represents(a: Appender, s: State)
    requires a.Valid()
    reads a, a.area, a.logBuff, if a.logBuff == null then {} else {a.logBuff.buff}
  {
    && Structure(s)
    && a.area[..] == s.v.mem
    && (a.logBuff != null <==> s.up)
    && (s.up ==> a.logBuff.V() == s.v)
    && a.file == FileBytes(s.file)
    && (s.up || s.inflight != map[] ==> a.logdirSet)
  }

  /** tmp is the local buffer in which flusher `who` carries its block, if it has one. */
  ghost predicate Carries(tmp: AutoBuffers.AutoBuffer, s: State, who: nat)
    requires tmp.Valid()
    reads tmp, tmp.parray
  {
    && (tmp.parray != null <==> who in s.inflight)
    && (who in s.inflight ==> tmp.V().Content() == s.inflight[who].bytes)
  }

  method DoAppend(a: Appender, info: Option<Formatter.Info>, body: Option<seq<byte>>, ghost s: State)
    requires a.Valid() && Inv(s) && Represents(a, s) && s.up
    requires Formatter.InfoOk(info) && (body.Some? ==> NulFree(body.value)) && !(info.None? && body == Some([]))
    modifies a.area, a.logBuff.buff, a.formatter
    ensures a.Valid()
    ensures var record := Formatter.Record(info, body, SCRATCH);
            Enabled(s, Append(record)) && Represents(a, AppendStep(s, record))
  {
    FormattedIsRecord(info, body);
    hide Formatter.Record, Inv, LogBuffers.Write, Entry, IsRecord, StoredEntry;
    AppendStructure(s, Formatter.Record(info, body, SCRATCH));
    var accepted := a.AppendAsync(info, body);
  }

  lemma FormattedIsRecord(info: Option<Formatter.Info>, body: Option<seq<byte>>)
    requires Formatter.InfoOk(info) && (body.Some? ==> NulFree(body.value)) && !(info.None? && body == Some([]))
    ensures IsRecord(Formatter.Record(info, body, SCRATCH))
  {
    Formatter.LineShape([], info, body, SCRATCH);
  }

  lemma AppendStructure(s: State, record: seq<byte>)
    requires Inv(s) && s.up && IsRecord(record)
    ensures Structure(AppendStep(s, record))
  {
    AppendKeeps(s, record);
  }

  method DoDrain(a: Appender, who: nat, ghost s: State) returns (tmp: AutoBuffers.AutoBuffer)
    requires a.Valid() && Inv(s) && Represents(a, s) && Enabled(s, Drain(who))
    modifies a.area, a.logBuff.buff
    ensures a.Valid() && Represents(a, DrainStep(s, who))
    ensures fresh(tmp) && tmp.Valid() && Carries(tmp, DrainStep(s, who), who)
  {
    DrainUpKeeps(s, who);
    hide Inv, LogBuffers.Clear, LogBuffers.Drained;
    tmp := a.TakeBlock();
  }

  method DoLand(a: Appender, tmp: AutoBuffers.AutoBuffer, who: nat, openOk: bool, writeOk: bool, ghost s: State)
    requires a.Valid() && tmp.Valid() && Inv(s) && Represents(a, s) && Carries(tmp, s, who)
    requires who in s.inflight
    modifies a`file, a`logfileOpen
    ensures a.Valid() && Enabled(s, Land(who, openOk && writeOk))
    ensures Represents(a, LandStep(s, who, openOk && writeOk))
  {
    assert BlockFits(s, s.inflight[who]);
    LandKeeps(s, who, openOk && writeOk);
    assert s.inflight[who].bytes != [];
    hide Inv, BlockFits, Formatter.Record;
    assert tmp.length > 0 by {
      assert |tmp.V().Content()| > 0;
    }
    a.LogToFile(tmp, openOk, writeOk);
  }

  /** A visit of the shared thread to an open appender: the machine's drain, and then, if that took a
      block, its landing. */
  method DoVisit(a: Appender, who: nat, openOk: bool, writeOk: bool, ghost s: State)
    requires a.Valid() && !a.logClose && Inv(s) && Represents(a, s) && Enabled(s, Drain(who))
    modifies a.area, a.logBuff.buff, a`file, a`logfileOpen
    ensures var d := DrainStep(s, who);
            && a.Valid() && Structure(d) && (who in d.inflight ==> Enabled(d, Land(who, openOk && writeOk)))
            && Represents(a, if who in d.inflight then LandStep(d, who, openOk && writeOk) else d)
  {
    DrainUpKeeps(s, who);
    DrainTakes(s, who);
    hide Inv, LogBuffers.Clear, LogBuffers.Drained;
    Shared.VisitOpen(a, openOk, writeOk);
  }

  lemma DrainTakes(s: State, who: nat)
    requires Inv(s) && Enabled(s, Drain(who))
    ensures var d := DrainStep(s, who);
            && (who in d.inflight <==> LogBuffers.Drained(s.v).Some?)
            && (who in d.inflight ==> d.inflight[who] == Block(|s.place|, LogBuffers.Drained(s.v).value) && |s.place| < |d.place|)
  {
  }

  method DoOpen(a: Appender, who: nat, ghost s: State) returns (tmp: AutoBuffers.AutoBuffer)
    requires a.Valid() && a.logClose && Inv(s) && Represents(a, s) && Enabled(s, Open(who))
    modifies a`logClose, a`logBuff, a`logdirSet, a.area
    ensures a.Valid() && Represents(a, OpenStep(s, who))
    ensures fresh(tmp) && tmp.Valid() && Carries(tmp, OpenStep(s, who), who)
  {
    OpenKeeps(s, who);
    hide Inv, LogBuffers.Clear, LogBuffers.Drained;
    tmp := a.Open();
  }

  method DoWipe(a: Appender, ghost s: State)
    requires a.Valid() && a.logClose && Inv(s) && Represents(a, s) && s.up
    modifies a`logBuff, a.area
    ensures a.Valid() && Represents(a, WipeStep(s))
  {
    WipeKeeps(s);
    hide Inv;
    a.Wipe();
  }

  /** A new process over the bytes and the log file a crash left behind represents the crashed state. */
  method Restart(mapped: array<byte>, existing: seq<seq<byte>>, ghost s: State) returns (a: Appender)
    requires Inv(s) && mapped.Length == BLOCK && mapped[..] == s.v.mem && existing == FileBytes(s.file)
    ensures fresh(a) && a.Valid() && a.logClose && a.area == mapped
    ensures Structure(CrashStep(s)) && Represents(a, CrashStep(s))
  {
    CrashKeeps(s);
    hide Inv;
    a := new Appender(mapped, existing);
  }
}
