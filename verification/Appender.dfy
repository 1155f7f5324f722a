/** loglib/mtaf_appender.cpp: one appender in async mode over an mmap area.
    Every method is one locked section of the source (or the unlocked glue around one), so that
    the concurrent behaviour is the interleaving of these methods; see Pipeline. */
module Appenders {
  import opened Bytes
  import PtrBuffers
  import AutoBuffers
  import Formatter
  import LogBuffers

  const BLOCK: nat := 150 * 1024
  const SCRATCH: nat := 16 * 1024
  /** From this fill on, records are replaced by an overflow notice. */
  const GUARD: nat := BLOCK * 4 / 5

  function LeadStart(): (r: seq<byte>)
    ensures NulFree(r) && |r| == 33
  {
    Ascii("[F][ sg_buffer_async.Length() >= ")
  }

  function LeadEnd(): (r: seq<byte>)
    ensures NulFree(r) && |r| == 29
  {
    Ascii("BUFFER_BLOCK_LENTH*4/5, len: ")
  }

  function OverflowNotice(length: nat): seq<byte> {
    LeadStart() + LeadEnd() + Decimal(length) + [LF]
  }

  /** What an append of `record` hands to the log buffer. */
  function Entry(record: seq<byte>, length: nat): (r: seq<byte>)
    requires |record| <= SCRATCH && length <= BLOCK
    ensures |r| <= SCRATCH
  {
    OverflowNoticeShape(length);
    if length >= GUARD then OverflowNotice(length) else record
  }

  /** The shape the formatter guarantees for its output. */
  predicate IsRecord(record: seq<byte>) {
    record != [] && NulFree(record) && record[|record| - 1] == LF && |record| <= SCRATCH - 129
  }

  lemma OverflowNoticeShape(length: nat)
    requires length <= BLOCK
    ensures OverflowNotice(length) != [] && NulFree(OverflowNotice(length)) && |OverflowNotice(length)| < 70
  {
    hide LeadStart, LeadEnd;
    DecimalLength(length, 6, 1000000) by {
      Formatter.PowersOfTen();
    }
  }

  /** The guard and the record bound together: a genuine record is never cut by the area and
      leaves room for its terminator. */
  lemma GenuineRecordFits(record: seq<byte>, length: nat)
    requires IsRecord(record) && length <= BLOCK
    ensures Entry(record, length) != [] && NulFree(Entry(record, length))
    ensures 5 * length < 4 * 153600 ==> Entry(record, length) == record && length + |record| < 153600 - 4
    ensures 5 * length >= 4 * 153600 ==> Entry(record, length) == OverflowNotice(length)
    ensures length < GUARD ==> Entry(record, length) == record && length + |record| < BLOCK - LogBuffers.SLACK
    ensures length + |Entry(record, length)| > BLOCK ==> length >= GUARD && Entry(record, length) == OverflowNotice(length)
  {
    OverflowNoticeShape(length);
  }

  /** A reader of the notice finds the fill level behind its fixed text. */
  lemma OverflowNoticeReadsBack(length: nat)
    ensures LeadStart() == Ascii("[F][ sg_buffer_async.Length() >= ")
    ensures LeadEnd() == Ascii("BUFFER_BLOCK_LENTH*4/5, len: ")
    ensures var n := OverflowNotice(length);
            && |n| > 62 && n[..33] == LeadStart() && n[33..62] == LeadEnd()
            && Until(n[62..], 10) == |n| - 63 && DecimalValue(n[62..|n| - 1]) == length
  {
    assert LeadStart() == Ascii("[F][ sg_buffer_async.Length() >= ");
    assert LeadEnd() == Ascii("BUFFER_BLOCK_LENTH*4/5, len: ");
    hide LeadStart, LeadEnd, Ascii, Decimal, DecimalValue, Until;
    var digits, n := Decimal(length), OverflowNotice(length);
    DecimalRoundTrip(length);
    assert n[62..] == digits + [10] + [];
    UntilFinds(digits, 10, []);
    assert n[62..|n| - 1] == digits;
  }

  class Appender {
    /** The mmapped file: its bytes outlive the process. */
    const area: array<byte>
    const formatter: Formatter.LineFormatter
    var logClose: bool
    var logBuff: LogBuffers.LogBuffer?
    var logdirSet: bool
    var logfileOpen: bool
    /** The log file, one element per successful fwrite. */
    var file: seq<seq<byte>>

    ghost predicate Valid()
      reads this, logBuff, if logBuff == null then {} else {logBuff.buff}
    {
      && area.Length == BLOCK
      && (logBuff != null ==> logBuff.Valid() && logBuff.buff.parray == area)
      && (!logClose ==> logBuff != null && logdirSet)
      && !logfileOpen
    }

    /** mtaf_log_appender_create, over a mapped area and a log file that may both predate it. */
    constructor (mapped: array<byte>, existing: seq<seq<byte>>)
      requires mapped.Length == BLOCK
      ensures Valid() && logClose && logBuff == null && area == mapped && file == existing && fresh(formatter)
    {
      area, logClose, logBuff, logdirSet, logfileOpen, file := mapped, true, null, false, false, existing;
      formatter := new Formatter.LineFormatter();
    }

    /** mtaf_log_appender_open up to the point where the recovered block is written: attach the
        area whatever it holds, flush all of it, open for appends. */
    method Open() returns (tmp: AutoBuffers.AutoBuffer)
      requires Valid() && logClose && logBuff == null
      modifies this`logClose, this`logBuff, this`logdirSet, area
      ensures Valid() && !logClose && logBuff != null && fresh(logBuff) && fresh(logBuff.buff)
      ensures logBuff.V() == LogBuffers.Clear(LogBuffers.Attach(old(area[..])))
      ensures fresh(tmp) && tmp.Valid()
      ensures Holds(tmp, LogBuffers.Drained(LogBuffers.Attach(old(area[..]))))
    {
      logBuff := new LogBuffers.LogBuffer(area);
      tmp := new AutoBuffers.AutoBuffer(128);
      var copied := logBuff.Flush(tmp);
      logdirSet := true;
      logClose := false;
    }

    /** tmp holds exactly the drained block, and its pointer says whether there is one. */
    ghost predicate Holds(tmp: AutoBuffers.AutoBuffer, block: Option<seq<byte>>)
      requires tmp.Valid()
      reads tmp, tmp.parray
    {
      && (tmp.parray != null <==> block.Some?)
      && (block.Some? ==> tmp.V().Content() == block.value)
    }

    /** __appender_async, under the buffer mutex. */
    method AppendAsync(info: Option<Formatter.Info>, body: Option<seq<byte>>) returns (accepted: bool)
      requires Valid() && Formatter.InfoOk(info)
      requires (body.Some? ==> NulFree(body.value)) && !(info.None? && body == Some([]))
      modifies area, if logBuff == null then {} else {logBuff.buff}, formatter
      ensures Valid() && accepted == (logBuff != null)
      ensures accepted ==>
                var entry := Entry(Formatter.Record(info, body, 16 * 1024), old(logBuff.buff.length));
                logBuff.V() == LogBuffers.Write(old(logBuff.V()), entry)
    {
      if logBuff == null {
        return false;
      }
      var entry := Prepare(info, body, logBuff.buff.length);
      accepted := logBuff.WriteData(entry);
    }

    /** The scratch buffer of one append: format the record, then let the notice overwrite it
        if the area is already filled to `fill` bytes or more than the guard allows. */
    method Prepare(info: Option<Formatter.Info>, body: Option<seq<byte>>, fill: nat) returns (entry: seq<byte>)
      requires Formatter.InfoOk(info) && fill <= BLOCK
      requires (body.Some? ==> NulFree(body.value)) && !(info.None? && body == Some([]))
      modifies formatter
      ensures entry == Entry(Formatter.Record(info, body, SCRATCH), fill) && entry != []
    {
      var temp := new byte[SCRATCH](_ => NUL);
      var log := new PtrBuffers.PtrBuffer(temp, 0, SCRATCH);
      FormatEmpty(info, body, log);
      Formatter.LineShape([], info, body, SCRATCH);
      OverflowNoticeShape(fill);
      hide Formatter.Record, OverflowNotice;
      if fill >= GUARD {
        PrintNotice(fill, log);
      }
      entry := temp[..log.length];
    }

    method FormatEmpty(info: Option<Formatter.Info>, body: Option<seq<byte>>, log: PtrBuffers.PtrBuffer)
      requires log.Valid() && log.length == log.pos == 0 && log.maxLength == log.parray.Length == SCRATCH
      requires Formatter.InfoOk(info) && (body.Some? ==> NulFree(body.value)) && !(info.None? && body == Some([]))
      modifies formatter, log`pos, log`length, log.parray
      ensures log.Valid() && log.V().Content() == Formatter.Record(info, body, SCRATCH)
    {
      hide Formatter.Line;
      assert log.V().Content() == [];
      formatter.Format(info, body, log);
    }

    /** snprintf of the notice over the start of the scratch buffer. */
    static method PrintNotice(length: nat, log: PtrBuffers.PtrBuffer)
      requires log.Valid() && log.maxLength == SCRATCH && length <= BLOCK
      modifies log`pos, log`length, log.parray
      ensures log.Valid() && log.parray == old(log.parray) && log.V().Content() == OverflowNotice(length)
    {
      OverflowNoticeShape(length);
      var notice := OverflowNotice(length);
      MemCopy(log.parray, 0, notice);
      MemSet(log.parray, |notice|, NUL, 1);
      log.SetLengthTo(|notice|, |notice|);
    }

    /** The first section of __log_thread_task and flush_sync: under the buffer mutex, flush into a
        fresh buffer. The mutex is released before the block is written. */
    method TakeBlock() returns (tmp: AutoBuffers.AutoBuffer)
      requires Valid() && logBuff != null
      modifies area, logBuff.buff
      ensures Valid() && logBuff.V() == LogBuffers.Clear(old(logBuff.V()))
      ensures fresh(tmp) && tmp.Valid() && Holds(tmp, old(LogBuffers.Drained(logBuff.V())))
    {
      tmp := new AutoBuffers.AutoBuffer(128);
      var copied := logBuff.Flush(tmp);
    }

    /** __log2file under the file mutex, async mode: the file is opened, appended to and closed
        again. The environment decides whether fopen and fwrite succeed. */
    method LogToFile(tmp: AutoBuffers.AutoBuffer, openOk: bool, writeOk: bool)
      requires Valid() && tmp.Valid()
      modifies this`file, this`logfileOpen
      ensures Valid()
      ensures file == old(file) + if tmp.parray != null && tmp.length > 0 && logdirSet && openOk && writeOk
                                  then [tmp.V().Content()] else []
    {
      if tmp.parray == null || tmp.length == 0 || !logdirSet {
        return;
      }
      logfileOpen := openOk;
      if logfileOpen {
        if writeOk {
          file := file + [tmp.parray[..tmp.length]];
        }
        logfileOpen := false;
      }
    }

    /** The last sections of mtaf_log_appender_close: zero the area and drop the buffer. */
    method Wipe()
      requires Valid() && logClose && logBuff != null
      modifies this`logBuff, area
      ensures Valid() && logBuff == null && area[..] == Fill(BLOCK, NUL)
    {
      MemSet(area, 0, NUL, BLOCK);
      logBuff := null;
    }

    /** mtaf_log_appender_close with the shared thread and nobody else about: raise the flag, flush,
        write, wipe. */
    method Close(openOk: bool, writeOk: bool)
      requires Valid() && !logClose
      modifies this, area, logBuff.buff
      ensures Valid() && logClose && logBuff == null && area[..] == Fill(BLOCK, NUL)
      ensures var block := old(LogBuffers.Drained(logBuff.V()));
              file == old(file) + if block.Some? && openOk && writeOk then [block.value] else []
    {
      logClose := true;
      ghost var block := LogBuffers.Drained(logBuff.V());
      var tmp := TakeBlock();
      LogToFile(tmp, openOk, writeOk);
      Wipe();
    }
  }
}
