/** loglib/mtaf_formatter.cpp: one log line into a scratch PtrBuffer. */
module Formatter {
  import opened Bytes
  import opened PtrBuffers

  /** Below this much room no record is written, only an overflow notice. */
  const RESERVE: nat := 5 * 1024
  /** Room a record always leaves behind its body, and a notice needs to be written at all. */
  const BODY_MARGIN: nat := 130
  const NOTICE_ROOM: nat := 128
  const BODY_LIMIT: nat := 0xFFFF
  const SNPRINTF_LIMIT: nat := 1024

  /** time is the already printed local time, or empty when the stamp is zero. */
  datatype Info = Info(level: nat, time: seq<byte>, tag: seq<byte>)

  function LevelLetter(level: nat): seq<byte>
    requires level < 6
  {
    [Ascii("VDIWEF")[level]]
  }

  function Header(info: Option<Info>, hasBody: bool): seq<byte>
    requires info.Some? ==> info.value.level < 6
  {
    match info
    case None => []
    case Some(i) =>
      Ascii("[") + (if hasBody then LevelLetter(i.level) else LevelLetter(5)) + Ascii("][") + i.time
      + Ascii("][") + i.tag + Ascii("]: ")
  }

  /** What the caller must supply: a known level, C strings, a header that snprintf does not cut. */
  predicate InfoOk(info: Option<Info>) {
    info.Some? ==>
      && info.value.level < 6 && NulFree(info.value.time) && NulFree(info.value.tag)
      && |info.value.time| + |info.value.tag| + 9 < SNPRINTF_LIMIT
  }

  /** How much of a body of n bytes is kept when `used` bytes of `max` are taken. */
  function BodyKept(n: nat, used: nat, max: nat): nat {
    Min(n, Min(if max - used > BODY_MARGIN then max - used - BODY_MARGIN else 0, BODY_LIMIT))
  }

  function BodyText(body: Option<seq<byte>>, used: nat, max: nat): seq<byte> {
    match body
    case None => Ascii("error!! NULL==_logbody")
    case Some(b) => b[..BodyKept(|b|, used, max)]
  }

  function EndLine(text: seq<byte>): seq<byte>
    requires text != []
  {
    if text[|text| - 1] == LF then text else text + [LF]
  }

  /** The contents of a buffer of `max` bytes after one more line behind `before`. */
  function Line(before: seq<byte>, info: Option<Info>, body: Option<seq<byte>>, max: nat): (r: seq<byte>)
    requires InfoOk(info) && !(before == [] && info.None? && body == Some([])) && |before| + RESERVE < max
    ensures r != [] && |r| <= max - 129
  {
    HeaderIsText(info, body.Some?);
    var used := before + Header(info, body.Some?);
    BodyFits(body, |used|, max);
    EndLine(used + BodyText(body, |used|, max))
  }

  /** The line for an empty scratch buffer. */
  function Record(info: Option<Info>, body: Option<seq<byte>>, max: nat): (r: seq<byte>)
    requires InfoOk(info) && !(info.None? && body == Some([])) && max > RESERVE
    ensures r != [] && |r| <= max - 129
  {
    Line([], info, body, max)
  }

  lemma HeaderIsText(info: Option<Info>, hasBody: bool)
    requires InfoOk(info)
    ensures NulFree(Header(info, hasBody)) && |Header(info, hasBody)| < SNPRINTF_LIMIT
    ensures info.Some? <==> Header(info, hasBody) != []
  {
  }

  lemma BodyFits(body: Option<seq<byte>>, used: nat, max: nat)
    requires max > used + 2 * BODY_MARGIN
    ensures used + |BodyText(body, used, max)| <= max - BODY_MARGIN
    ensures body != Some([]) ==> BodyText(body, used, max) != []
  {
  }

  /** Shape of the buffer after a line, whatever C string was there before: it ends its line, with a
      newline added only if missing, is NUL-free, stays 129 bytes clear of the end, and carries the
      old contents, the header and the longest body prefix the margin allows. */
  lemma LineShape(before: seq<byte>, info: Option<Info>, body: Option<seq<byte>>, max: nat)
    requires InfoOk(info) && !(before == [] && info.None? && body == Some([])) && |before| + 5 * 1024 < max
    requires NulFree(before) && (body.Some? ==> NulFree(body.value))
    ensures var r := Line(before, info, body, max); var used := before + Header(info, body.Some?);
            && r != [] && r[|r| - 1] == 10 && NulFree(r) && |r| <= max - 129
            && used <= r
            && (var t := used + BodyText(body, |used|, max);
                t != [] && r == if t[|t| - 1] == 10 then t else t + [10])
            && (body.Some? ==>
                  var k := BodyKept(|body.value|, |used|, max);
                  && used + body.value[..k] <= r
                  && (k < |body.value| ==> k == 65535 || |used| + k == max - 130)
                  && k <= 65535 && |used| + k <= max - 130)
  {
    HeaderIsText(info, body.Some?);
    var used := before + Header(info, body.Some?);
    BodyTextShape(body, |used|, max);
    BodyFits(body, |used|, max);
    hide Header, BodyText, EndLine, InfoOk;
    var t := used + BodyText(body, |used|, max);
    EndLineShape(t);
    if body.Some? {
      assert t == used + body.value[..BodyKept(|body.value|, |used|, max)];
    }
  }

  /** In the 16K scratch buffer a line of at most 16254 bytes, header and body, is printed whole. */
  lemma ShortLineIsWhole(info: Option<Info>, body: seq<byte>)
    requires InfoOk(info) && NulFree(body) && (info.Some? || body != [])
    requires |Header(info, true)| + |body| <= 16254
    ensures var line := Header(info, true) + body;
            line != [] && Record(info, Some(body), 16 * 1024) == if line[|line| - 1] == 10 then line else line + [10]
  {
    LineShape([], info, Some(body), 16 * 1024);
    hide Header, Line, InfoOk;
    assert [] + Header(info, true) == Header(info, true);
    var line := Header(info, true) + body;
    assert body[..|body|] == body;
    BodyTextShape(Some(body), |Header(info, true)|, 16 * 1024);
  }

  // ---- reading a line back

  datatype Fields = Fields(letter: byte, time: seq<byte>, tag: seq<byte>, text: seq<byte>)

  /** What stands before the first "]", and what behind it and an x. */
  function Bracketed(s: seq<byte>, x: byte): Option<(seq<byte>, seq<byte>)> {
    var i := Until(s, 93);
    if |s| < i + 2 || s[i + 1] != x then None else Some((s[..i], s[i + 2..]))
  }

  /** A reader of "[x][time][tag]: text" that goes by position and brackets. */
  function ReadLine(r: seq<byte>): Option<Fields> {
    if |r| < 4 || r[0] != 91 || r[2] != 93 || r[3] != 91 then None
    else
      match Bracketed(r[4..], 91)
      case None => None
      case Some(timed) =>
        match Bracketed(timed.1, 58)
        case None => None
        case Some(tagged) =>
          if tagged.1 == [] || tagged.1[0] != 32 then None
          else Some(Fields(r[1], timed.0, tagged.0, tagged.1[1..]))
  }

  lemma BracketedRead(field: seq<byte>, x: byte, rest: seq<byte>)
    requires 93 !in field
    ensures Bracketed(field + [93, x] + rest, x) == Some((field, rest))
  {
    var s := field + [93] + ([x] + rest);
    assert s == field + [93, x] + rest;
    UntilFinds(field, 93, [x] + rest);
    hide Until;
    assert s[..|field|] == field && s[|field| + 2..] == rest;
  }

  lemma FieldsRead(letter: byte, time: seq<byte>, tag: seq<byte>, text: seq<byte>)
    requires 93 !in time && 93 !in tag
    ensures ReadLine([91, letter, 93, 91] + (time + [93, 91] + (tag + [93, 58] + ([32] + text))))
            == Some(Fields(letter, time, tag, text))
  {
    var more := tag + [93, 58] + ([32] + text);
    var rest := time + [93, 91] + more;
    BracketedRead(time, 91, more);
    BracketedRead(tag, 58, [32] + text);
    hide Bracketed;
    assert ([91, letter, 93, 91] + rest)[4..] == rest;
    assert ([32] + text)[1..] == text;
  }

  lemma Regrouped(lead: seq<byte>, time: seq<byte>, tag: seq<byte>, text: seq<byte>)
    ensures lead + time + [93, 91] + tag + [93, 58, 32] + text
            == lead + (time + [93, 91] + (tag + [93, 58] + ([32] + text)))
  {
    assert [93, 58, 32] + text == [93, 58] + ([32] + text);
  }

  /** V, D, I, W, E, F. */
  const LETTERS: seq<byte> := [86, 68, 73, 87, 69, 70]

  lemma HeaderBytes(i: Info, hasBody: bool)
    requires i.level < 6
    ensures Header(Some(i), hasBody)
            == [91, if hasBody then LETTERS[i.level] else 70, 93, 91] + i.time + [93, 91] + i.tag + [93, 58, 32]
  {
    assert Ascii("[") == [91] && Ascii("][") == [93, 91] && Ascii("]: ") == [93, 58, 32];
    assert Ascii("VDIWEF") == LETTERS;
    var letter := if hasBody then LevelLetter(i.level) else LevelLetter(5);
    assert letter == [if hasBody then LETTERS[i.level] else 70];
    assert [91] + letter + [93, 91] == [91, if hasBody then LETTERS[i.level] else 70, 93, 91];
  }

  /** From a line with C strings free of closing brackets a reader recovers the letter of its level (or F
      for a missing body), its time and its tag, and behind them what LineShape says of the body. */
  lemma LineReadsBack(i: Info, body: Option<seq<byte>>, max: nat)
    requires InfoOk(Some(i)) && max > 5 * 1024 && (body.Some? ==> NulFree(body.value))
    requires 93 !in i.time && 93 !in i.tag
    ensures var r := ReadLine(Record(Some(i), body, max));
            && r.Some? && r.value.time == i.time && r.value.tag == i.tag
            && r.value.letter == (if body.None? then 70 else [86, 68, 73, 87, 69, 70][i.level])
            && Record(Some(i), body, max) == Header(Some(i), body.Some?) + r.value.text
  {
    RecordHasHeader(Some(i), body, max);
    HeaderBytes(i, body.Some?);
    hide Header, Record, InfoOk, NulFree, ReadLine;
    HeadedRead(Record(Some(i), body, max), if body.Some? then LETTERS[i.level] else 70, i.time, i.tag);
  }

  lemma RecordHasHeader(info: Option<Info>, body: Option<seq<byte>>, max: nat)
    requires InfoOk(info) && max > 5 * 1024 && !(info.None? && body == Some([])) && (body.Some? ==> NulFree(body.value))
    ensures Header(info, body.Some?) <= Record(info, body, max)
  {
    LineShape([], info, body, max);
    hide Header, Line, InfoOk;
    assert [] + Header(info, body.Some?) == Header(info, body.Some?);
  }

  lemma HeadedRead(r: seq<byte>, letter: byte, time: seq<byte>, tag: seq<byte>)
    requires 93 !in time && 93 !in tag
    requires [91, letter, 93, 91] + time + [93, 91] + tag + [93, 58, 32] <= r
    ensures var h := [91, letter, 93, 91] + time + [93, 91] + tag + [93, 58, 32];
            ReadLine(r) == Some(Fields(letter, time, tag, r[|h|..])) && r == h + r[|h|..]
  {
    var h := [91, letter, 93, 91] + time + [93, 91] + tag + [93, 58, 32];
    FieldsRead(letter, time, tag, r[|h|..]);
    Regrouped([91, letter, 93, 91], time, tag, r[|h|..]);
    hide ReadLine;
    assert r == h + r[|h|..];
  }

  /** A missing body is reported as such. */
  lemma MissingBodyIsTold(info: Option<Info>, max: nat)
    requires InfoOk(info) && max > 5 * 1024
    ensures Record(info, None, max) == Header(info, false) + Ascii("error!! NULL==_logbody") + [10]
  {
    HeaderIsText(info, false);
    hide Header, InfoOk;
    assert [] + Header(info, false) == Header(info, false);
  }

  lemma BodyTextShape(body: Option<seq<byte>>, used: nat, max: nat)
    requires body.Some? ==> NulFree(body.value)
    requires max > used + 2 * BODY_MARGIN
    ensures var t := BodyText(body, used, max);
            && NulFree(t) && used + |t| <= max - BODY_MARGIN
            && (t == [] ==> body == Some([]))
            && (body.Some? ==> t == body.value[..BodyKept(|body.value|, used, max)])
  {
  }

  lemma EndLineShape(t: seq<byte>)
    requires t != [] && NulFree(t)
    ensures var r := EndLine(t); t <= r && |r| <= |t| + 1 && NulFree(r) && r[|r| - 1] == LF
  {
  }

  // ---- the overflow notice

  const COUNTER_LIMIT: nat := 1000000000
  const STRNLEN_LIMIT: nat := 1024 * 1024

  function NoticeLead(): (r: seq<byte>)
    ensures NulFree(r) && |r| == 27
  {
    Ascii("[F]log_size <= 5*1024, err(")
  }

  function Notice(count: nat, size: nat): seq<byte> {
    NoticeLead() + Decimal(count) + Ascii(", ") + Decimal(size) + Ascii(")\n")
  }

  lemma NoticeShape(count: nat, size: nat)
    requires count < COUNTER_LIMIT && size <= STRNLEN_LIMIT
    ensures NulFree(Notice(count, size)) && 0 < |Notice(count, size)| < 50
  {
    DecimalLength(count, 9, COUNTER_LIMIT) by {
      PowersOfTen();
    }
    DecimalLength(size, 7, 10000000) by {
      PowersOfTen();
    }
  }

  lemma PowersOfTen()
    ensures Pow10(3) == 1000 && Pow10(6) == 1000000 && Pow10(7) == 10000000 && Pow10(9) == COUNTER_LIMIT
  {
    assert Pow10(3) == 1000;
    assert Pow10(6) == 1000000;
  }

  lemma AsciiBits()
    ensures Ascii(", ") == [44, 32] && Ascii(")\n") == [41, 10]
  {
  }

  lemma NoticeLeadText()
    ensures NoticeLead() == Ascii("[F]log_size <= 5*1024, err(")
  {
  }

  /** A reader of the notice finds both counters behind its fixed text. */
  lemma NoticeReadsBack(count: nat, size: nat)
    ensures var n := Notice(count, size);
            && |n| > 27 && n[..27] == NoticeLead()
            && var i := Until(n[27..], 44);
               && 29 + i <= |n| && DecimalValue(n[27..27 + i]) == count
               && var j := Until(n[29 + i..], 41);
                  && DecimalValue(n[29 + i..29 + i + j]) == size && n[29 + i + j..] == [41, 10]
  {
    hide NoticeLead, Until, Decimal, DecimalValue, Ascii;
    AsciiBits();
    var lead, n := NoticeLead(), Notice(count, size);
    var a, b := Decimal(count), Decimal(size);
    DecimalDigitsOnly(count);
    DecimalDigitsOnly(size);
    DecimalRoundTrip(count);
    DecimalRoundTrip(size);
    assert n == lead + (a + [44] + ([32] + b + [41, 10]));
    hide Notice;
    NumbersRead(lead, a, b, n);
  }

  lemma NumbersRead(lead: seq<byte>, a: seq<byte>, b: seq<byte>, n: seq<byte>)
    requires |lead| == 27 && 44 !in a && 41 !in b && n == lead + (a + [44] + ([32] + b + [41, 10]))
    ensures n[..27] == lead && Until(n[27..], 44) == |a| && n[27..27 + |a|] == a
    ensures Until(n[29 + |a|..], 41) == |b| && n[29 + |a|..29 + |a| + |b|] == b && n[29 + |a| + |b|..] == [41, 10]
  {
    assert n[27..] == a + [44] + ([32] + b + [41, 10]);
    UntilFinds(a, 44, [32] + b + [41, 10]);
    assert n[29 + |a|..] == b + [41] + [10];
    UntilFinds(b, 41, [10]);
  }

  // ---- the formatter, with its two static counters

  class LineFormatter {
    var errorCount: nat
    var errorSize: nat

    constructor ()
      ensures errorCount == 0 && errorSize == 0
    {
      errorCount, errorSize := 0, 0;
    }

    /** snprintf at the cursor: the text and its NUL, then move length and cursor over the text. */
    static method PrintAtCursor(log: PtrBuffer, text: seq<byte>)
      requires log.Valid() && log.pos == log.length && log.length + |text| < log.maxLength
      modifies log`pos, log`length, log.parray
      ensures log.Valid() && log.pos == log.length
      ensures log.V().Content() == old(log.V().Content()) + text
      ensures log.parray[log.maxLength..] == old(log.parray[log.maxLength..])
    {
      MemCopy(log.parray, log.pos, text);
      MemSet(log.parray, log.pos + |text|, NUL, 1);
      log.SetLengthTo(log.pos + |text|, log.length + |text|);
    }

    static method PutText(log: PtrBuffer, text: seq<byte>)
      requires log.Valid() && log.pos == log.length && log.length + |text| <= log.maxLength && log.maxLength >= 4
      modifies log`pos, log`length, log.parray
      ensures log.Valid() && log.pos == log.length
      ensures log.V().Content() == old(log.V().Content()) + text
      ensures log.parray[log.maxLength..] == old(log.parray[log.maxLength..])
    {
      AppendAtEnd(log.V(), text);
      OutsideUntouched(log.V(), text);
      log.Write(text);
    }

    method PutRecord(info: Option<Info>, body: Option<seq<byte>>, log: PtrBuffer)
      requires log.Valid() && log.pos == log.length && log.length + RESERVE < log.maxLength
      requires InfoOk(info) && !(log.length == 0 && info.None? && body == Some([]))
      modifies log`pos, log`length, log.parray
      ensures log.Valid() && log.pos == log.length
      ensures log.parray[log.maxLength..] == old(log.parray[log.maxLength..])
      ensures log.V().Content() == Line(old(log.V().Content()), info, body, log.maxLength)
    {
      HeaderIsText(info, body.Some?);
      hide Header, BodyText, EndLine, InfoOk;
      ghost var before := log.V().Content();
      if info.Some? {
        PrintAtCursor(log, Header(info, body.Some?));
      } else {
        assert before + [] == before;
      }
      assert log.V().Content() == before + Header(info, body.Some?);
      PutBody(body, log);
    }

    static method PutBody(body: Option<seq<byte>>, log: PtrBuffer)
      requires log.Valid() && log.pos == log.length && log.length + 2 * BODY_MARGIN < log.maxLength
      requires log.length > 0 || body != Some([])
      modifies log`pos, log`length, log.parray
      ensures log.Valid() && log.pos == log.length
      ensures log.parray[log.maxLength..] == old(log.parray[log.maxLength..])
      ensures var before := old(log.V().Content());
              var text := before + BodyText(body, |before|, log.maxLength);
              text != [] && log.V().Content() == EndLine(text)
    {
      BodyFits(body, log.length, log.maxLength);
      hide BodyText;
      PutText(log, BodyText(body, log.length, log.maxLength));
      ghost var text := log.V().Content();
      assert text[|text| - 1] == log.parray[log.pos - 1];
      if log.parray[log.pos - 1] != LF {
        PutText(log, [LF]);
      }
    }

    method PutNotice(size: nat, log: PtrBuffer)
      requires log.Valid() && log.pos == log.length && log.maxLength <= log.length + RESERVE && log.maxLength >= 4
      requires errorCount < COUNTER_LIMIT - 1 && size <= STRNLEN_LIMIT
      modifies this, log`pos, log`length, log.parray
      ensures log.Valid() && log.pos == log.length
      ensures log.parray[log.maxLength..] == old(log.parray[log.maxLength..])
      ensures if old(log.length) + NOTICE_ROOM <= log.maxLength then
                && errorCount == errorSize == 0
                && log.V().Content() == old(log.V().Content()) + Notice(old(errorCount) + 1, size)
              else
                && errorCount == old(errorCount) + 1 && errorSize == size
                && log.V() == old(log.V())
    {
      errorCount := errorCount + 1;
      errorSize := size;
      if log.maxLength >= log.length + NOTICE_ROOM {
        NoticeShape(errorCount, errorSize);
        hide Notice;
        PrintAtCursor(log, Notice(errorCount, errorSize));
        PutText(log, []);
        errorCount := 0;
        errorSize := 0;
      }
    }

    /** Format one line at the end of log. With room, the contents grow by the record and both
        counters stay; without it they grow by a notice that resets the counters, or, with
        less than NOTICE_ROOM left, only the counters move. */
    method Format(info: Option<Info>, body: Option<seq<byte>>, log: PtrBuffer)
      requires log.Valid() && log.pos == log.length && log.maxLength >= 4
      requires InfoOk(info) && (body.Some? ==> NulFree(body.value))
      requires log.maxLength <= log.length + RESERVE ==> body.Some? && errorCount < COUNTER_LIMIT - 1
      requires !(log.length == 0 && info.None? && body == Some([]))
      modifies this, log`pos, log`length, log.parray
      ensures log.Valid() && log.pos == log.length
      ensures log.parray[log.maxLength..] == old(log.parray[log.maxLength..])
      ensures var before := old(log.V().Content());
              if old(log.length) + 5 * 1024 < log.maxLength then
                && errorCount == old(errorCount) && errorSize == old(errorSize)
                && log.V().Content() == Line(before, info, body, log.maxLength)
              else if old(log.length) + 128 <= log.maxLength then
                && errorCount == errorSize == 0
                && log.V().Content() == before + Notice(old(errorCount) + 1, Min(|body.value|, 1024 * 1024))
              else
                && errorCount == old(errorCount) + 1 && errorSize == Min(|body.value|, 1024 * 1024)
                && log.V() == old(log.V())
    {
      hide Header, Notice, BodyText, Line;
      if log.maxLength <= log.length + RESERVE {
        PutNotice(Min(|body.value|, STRNLEN_LIMIT), log);
      } else {
        PutRecord(info, body, log);
      }
    }
  }
}
