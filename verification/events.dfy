/** One guide event as `vdr_epg_load` turns it into SVDRP `PUTE` data:
    the XMLTV time stamps read as UTC calendar fields, the 16-bit event id,
    the duration, and the tagged lines of the event body. */
module EpgEvent {
  import opened Wrappers
  import opened Utf8
  import opened Strconv
  import opened GoInt
  import opened GoTime
  import opened GoStrings

  /** `VDREPGEvent`. `channel` is the XMLTV channel id and `duration` holds
      the stop stamp; neither is read when the event is sent. */
  datatype Event = Event(
    channel: string,
    callSign: string,
    start: string,
    stop: string,
    duration: string,
    title: string,
    subTitle: string,
    description: string,
    genres: seq<int>,
    rating: int)

  /** The calendar fields of a stamp, before `time.Date` normalises them. */
  datatype Civil = Civil(year: int, month: int, day: int, hour: int, minute: int, second: int)

  /** `strconv.Atoi` of a byte slice of a Go string. A byte of 0x80 or above
      is neither a digit nor a sign, exactly as its Latin-1 character is not,
      so reading bytes as characters changes nothing. */
  function Field(bs: seq<byte>): (n: int)
    requires |bs| <= 4
    ensures AllDigits(seq(|bs|, i requires 0 <= i < |bs| => bs[i] as char)) && |bs| > 0 ==>
              n == Value(seq(|bs|, i requires 0 <= i < |bs| => bs[i] as char))
  {
    var text := seq(|bs|, i requires 0 <= i < |bs| => bs[i] as char);
    assert |bs| > 0 && AllDigits(text) ==> Unsigned(text) == text;
    Atoi(text)
  }

  /** Slicing a stamp `YYYYMMDDHHMMSS...` at bytes [0:4], [4:6], [6:8],
      [8:10], [10:12] and [12:14]; anything after byte 14, such as the
      XMLTV zone offset, is ignored and the fields are taken as UTC. A stamp
      shorter than 14 bytes makes the slicing panic: `None`. */
  function ParseStamp(stamp: string): (r: Option<Civil>)
    ensures r.None? <==> |EncodeString(stamp)| < 14
  {
    var bs := EncodeString(stamp);
    if |bs| < 14 then None
    else Some(Civil(Field(bs[0..4]), Field(bs[4..6]), Field(bs[6..8]),
                    Field(bs[8..10]), Field(bs[10..12]), Field(bs[12..14])))
  }

  /** The text of ASCII bytes is the text they encode. */
  lemma AsciiBytesText(s: string, bs: seq<byte>, lo: int, hi: int)
    requires forall i :: 0 <= i < |s| ==> s[i] < '\U{80}'
    requires bs == EncodeString(s) && 0 <= lo <= hi <= |s|
    ensures hi <= |bs| && seq(hi - lo, i requires 0 <= i < hi - lo => bs[lo..hi][i] as char) == s[lo..hi]
  {
    EncodeAscii(s);
    var t := seq(hi - lo, i requires 0 <= i < hi - lo => bs[lo..hi][i] as char);
    forall i | 0 <= i < hi - lo
      ensures t[i] == s[lo..hi][i]
    {
      assert bs[lo + i] == s[lo + i] as int;
    }
  }


  /** A stamp that starts with fourteen ASCII digits reads as the six
      decimal numbers they spell, whatever follows them. */
  lemma StampDigits(digits: string, zone: string)
    requires |digits| == 14 && AllDigits(digits)
    ensures ParseStamp(digits + zone) ==
              Some(Civil(Value(digits[0..4]), Value(digits[4..6]), Value(digits[6..8]),
                         Value(digits[8..10]), Value(digits[10..12]), Value(digits[12..14])))
  {
    var stamp := digits + zone;
    EncodeStringAppend(digits, zone);
    var bs := EncodeString(digits);
    assert forall i :: 0 <= i < |digits| ==> digits[i] < '\U{80}' by {
      forall i | 0 <= i < |digits| ensures digits[i] < '\U{80}' {
        assert IsDigit(digits[i]);
      }
    }
    EncodeAscii(digits);
    var all := EncodeString(stamp);
    assert all[..14] == bs;
    forall lo, hi | 0 <= lo < hi <= 14 && hi - lo <= 4
      ensures all[lo..hi] == bs[lo..hi]
      ensures AllDigits(digits[lo..hi])
      ensures seq(hi - lo, i requires 0 <= i < hi - lo => bs[lo..hi][i] as char) == digits[lo..hi]
    {
      AsciiBytesText(digits, bs, lo, hi);
    }
  }

  /** Seconds since the epoch of the UTC time a stamp's fields denote. */
  function StampTime(c: Civil): int {
    Unix(c.year, c.month, c.day, c.hour, c.minute, c.second)
  }

  /** The id VDR gets for an event: the start minute, truncated toward zero,
      modulo 0xffff (65535), also truncated. */
  function EventId(start: int): (eid: int)
    ensures start >= 0 ==> 0 <= eid < 0xffff
    ensures start < 0 ==> -0xffff < eid <= 0
  {
    TruncMod(TruncDiv(start, 60), 0xffff)
  }

  /** For starts at or after the epoch, two events get the same id exactly
      when their start minutes differ by a multiple of 65535, so ids repeat
      every 65535 minutes (about 45.5 days) and never sooner. */
  lemma EventIdCollides(a: int, b: int)
    requires a >= 0 && b >= 0
    ensures EventId(a) == EventId(b) <==> (a / 60 - b / 60) % 0xffff == 0
  {
    var ma := a / 60;
    var mb := b / 60;
    assert EventId(a) == ma % 0xffff;
    assert EventId(b) == mb % 0xffff;
    var qa := ma / 0xffff;
    var qb := mb / 0xffff;
    assert ma - mb == (qa - qb) * 0xffff + (ma % 0xffff - mb % 0xffff);
    if (ma - mb) % 0xffff == 0 {
      var k := (ma - mb) / 0xffff;
      assert ma % 0xffff - mb % 0xffff == (k - (qa - qb)) * 0xffff;
    }
  }

  /** An event 65535 minutes later gets the same id. */
  lemma EventIdPeriod(start: int)
    requires start >= 0
    ensures EventId(start + 60 * 0xffff) == EventId(start)
  {
    EventIdCollides(start + 60 * 0xffff, start);
    assert (start + 60 * 0xffff) / 60 == start / 60 + 0xffff;
  }

  /** The genre field: each code in decimal followed by one space. */
  function GenreField(codes: seq<int>): string {
    if |codes| == 0 then "" else FormatInt(codes[0]) + " " + GenreField(codes[1..])
  }

  /** The decimal texts of `codes`. */
  function Texts(codes: seq<int>): (ts: seq<string>)
    ensures |ts| == |codes|
    ensures forall i :: 0 <= i < |codes| ==> ts[i] == FormatInt(codes[i])
  {
    if |codes| == 0 then [] else [FormatInt(codes[0])] + Texts(codes[1..])
  }

  lemma NoSpaceInNumber(n: int)
    ensures ' ' !in FormatInt(n)
  {
  }

  lemma {:induction false} GenreFieldJoin(codes: seq<int>)
    ensures GenreField(codes) == Join(Texts(codes) + [""], ' ')
  {
    if |codes| > 0 {
      GenreFieldJoin(codes[1..]);
      var parts := Texts(codes) + [""];
      assert parts[1..] == Texts(codes[1..]) + [""];
    }
  }

  /** The genre field reads back: split at spaces it yields one piece per
      code, each of which `Atoi` turns back into the code, and a final empty
      piece after the trailing space. */
  lemma GenreFieldReadsBack(codes: seq<int>)
    requires forall i :: 0 <= i < |codes| ==> MinInt64 <= codes[i] <= MaxInt64
    ensures var parts := Split(GenreField(codes), ' ');
            && |parts| == |codes| + 1
            && parts[|codes|] == ""
            && forall i :: 0 <= i < |codes| ==> Atoi(parts[i]) == codes[i]
  {
    GenreFieldJoin(codes);
    var parts := Texts(codes) + [""];
    forall i | 0 <= i < |parts|
      ensures ' ' !in parts[i]
    {
      if i < |codes| {
        NoSpaceInNumber(codes[i]);
      }
    }
    SplitJoin(parts, ' ');
    forall i | 0 <= i < |codes|
      ensures Atoi(parts[i]) == codes[i]
    {
      AtoiFormatInt(codes[i]);
    }
  }

  /** The `E` line, `E %d %d %d 0`: the tag, the id, the start, the
      duration and table id 0, separated by single spaces. */
  function EventLine(eid: int, start: int, duration: int): string {
    Join(["E", FormatInt(eid), FormatInt(start), FormatInt(duration), "0"], ' ')
  }

  /** The `E` line is its tag and four numbers, separated by single
      spaces. */
  lemma EventLineFields(eid: int, start: int, duration: int)
    ensures Split(EventLine(eid, start, duration), ' ') == ["E", FormatInt(eid), FormatInt(start), FormatInt(duration), "0"]
  {
    NoSpaceInNumber(eid);
    NoSpaceInNumber(start);
    NoSpaceInNumber(duration);
    var parts := ["E", FormatInt(eid), FormatInt(start), FormatInt(duration), "0"];
    assert forall i :: 0 <= i < |parts| ==> ' ' !in parts[i];
    SplitJoin(parts, ' ');
  }

  /** The `E` line splits at spaces into its tag and four numbers that read
      back as the id, the start and the duration. */
  lemma EventLineReadsBack(eid: int, start: int, duration: int)
    requires MinInt64 <= eid <= MaxInt64 && MinInt64 <= start <= MaxInt64 && MinInt64 <= duration <= MaxInt64
    ensures var parts := Split(EventLine(eid, start, duration), ' ');
            && |parts| == 5 && parts[0] == "E" && parts[4] == "0"
            && Atoi(parts[1]) == eid && Atoi(parts[2]) == start && Atoi(parts[3]) == duration
  {
    EventLineFields(eid, start, duration);
    AtoiFormatInt(eid);
    AtoiFormatInt(start);
    AtoiFormatInt(duration);
  }

  /** The first character of each line. */
  function Tags(lines: seq<string>): string
    requires forall i :: 0 <= i < |lines| ==> |lines[i]| > 0
  {
    seq(|lines|, i requires 0 <= i < |lines| => lines[i][0])
  }

  /** The body of one event, from its `E` line to its `e` line, given the
      id, start and duration the `E` line carries. */
  function EventLines(e: Event, eid: int, start: int, duration: int): (lines: seq<string>)
    ensures |lines| == if e.subTitle != "" then 7 else 6
    ensures forall i :: 0 <= i < |lines| ==> |lines[i]| > 0
    ensures lines[0] == EventLine(eid, start, duration)
  {
    var head := EventLine(eid, start, duration);
    var d := "D " + e.description;
    var g := "G " + GenreField(e.genres);
    var r := "R " + FormatInt(e.rating);
    if e.subTitle != "" then [head, "T " + e.title, "S " + e.subTitle, d, g, r, "e"]
    else [head, "T " + e.title, d, g, r, "e"]
  }

  /** The body carries the title, the subtitle when there is one, the
      description, the genre field and the rating, each behind its tag, and
      ends with `e`. */
  lemma EventLinesContent(e: Event, eid: int, start: int, duration: int)
    ensures var lines := EventLines(e, eid, start, duration);
            && lines[1] == "T " + e.title && lines[|lines| - 1] == "e"
            && (e.subTitle != "" ==> lines[2] == "S " + e.subTitle)
            && lines[|lines| - 4] == "D " + e.description
            && lines[|lines| - 3] == "G " + GenreField(e.genres)
            && lines[|lines| - 2] == "R " + FormatInt(e.rating)
  {
    var head := EventLine(eid, start, duration);
    var d := "D " + e.description;
    var g := "G " + GenreField(e.genres);
    var r := "R " + FormatInt(e.rating);
    if e.subTitle != "" {
      assert EventLines(e, eid, start, duration) == [head, "T " + e.title, "S " + e.subTitle, d, g, r, "e"];
    } else {
      assert EventLines(e, eid, start, duration) == [head, "T " + e.title, d, g, r, "e"];
    }
  }

  /** The lines of an event body come in the order E, T, S, D, G, R, e, the
      subtitle line present exactly when the subtitle is not empty. */
  lemma EventLinesOrder(e: Event, eid: int, start: int, duration: int)
    ensures var lines := EventLines(e, eid, start, duration);
            Tags(lines) == if e.subTitle != "" then "ETSDGRe" else "ETDGRe"
  {
    var lines := EventLines(e, eid, start, duration);
    EventLinesContent(e, eid, start, duration);
    EventLineTag(eid, start, duration);
    var tags := if e.subTitle != "" then "ETSDGRe" else "ETDGRe";
    forall i | 0 <= i < |lines|
      ensures lines[i][0] == tags[i]
    {
    }
    TagsOf(lines, tags);
  }

  lemma EventLineTag(eid: int, start: int, duration: int)
    ensures EventLine(eid, start, duration)[0] == 'E'
  {
  }

  lemma TagsOf(lines: seq<string>, tags: string)
    requires |lines| == |tags|
    requires forall i :: 0 <= i < |lines| ==> |lines[i]| > 0 && lines[i][0] == tags[i]
    ensures Tags(lines) == tags
  {
  }



  /** The start and stop of an event in seconds, or `None` when either
      stamp is too short to slice. */
  function Times(e: Event): (r: Option<(int, int)>)
    ensures r.None? <==> |EncodeString(e.start)| < 14 || |EncodeString(e.stop)| < 14
  {
    match (ParseStamp(e.start), ParseStamp(e.stop))
    case (Some(a), Some(b)) => Some((StampTime(a), StampTime(b)))
    case _ => None
  }
}
