/** One run worked through end to end: the channel of the loader's sample
    `channels.conf` line, written back in VDR's layout; a guide with one
    channel and one programme on it; and a peer that answers every wait with
    the expected code. */
module PipelineExample {
  import opened Wrappers
  import opened Utf8
  import opened Strconv
  import opened GoStrings
  import opened Channels
  import opened ChannelExamples
  import Tables
  import opened Svdrp
  import opened EpgEvent
  import GoTime
  import opened EpgSession
  import opened Guide
  import opened Pipeline

  const Dir: Directory := map["WCVB" := Wcvb]

  /** XMLTV stamps: fourteen digits, then the zone offset, which is
      ignored. */
  const Start: string := "19700101000100" + " +0000"
  const Stop: string := "19700101000200" + " +0000"

  /** An XMLTV channel whose second display name is the VDR call sign. */
  const WcvbXml: Channel := Channel("wcvb.us", ["5.1 WCVB", "WCVB"])

  const News: Programme := Programme(Start, Stop, "wcvb.us", "News", "", "Local", "", "", ["Action"], "TV-PG")

  const Items: seq<Item> := [ChannelItem(WcvbXml), ProgrammeItem(News)]

  /** The event the guide queues for `News`. */
  const NewsEvent: Event := Event("wcvb.us", "WCVB", Start, Stop, Stop, "News", "", "Local", [0x10], 10)

  /** The channel element binds its id to the call sign of its first
      listed display name. */
  lemma ExampleXref()
    ensures Xrefs(Dir, Items[..1]) == map["wcvb.us" := "WCVB"]
  {
    assert FirstListed(WcvbXml.names, Dir) == Some("WCVB");
    assert Items[..1][..0] == [];
  }

  /** The programme becomes one event for `WCVB`, its category and rating
      looked up in the tables. */
  lemma ExampleQueue()
    ensures Queue(Dir, Items) == [NewsEvent]
  {
    ExampleXref();
    Tables.SynonymExample();
    Tables.RatingExample();
    assert Tables.GenreCodes(["Action"]) == [0x10];
    assert Items[..1][..0] == [];
    assert Queue(Dir, Items[..1]) == [];
  }

  lemma DigitValues()
    ensures Value("1970") == 1970 && Value("01") == 1 && Value("00") == 0
    ensures Value("02") == 2
  {
    assert Value("1") == 1;
    ValueSnoc("1", '9', "19");
    ValueSnoc("19", '7', "197");
    ValueSnoc("197", '0', "1970");
    assert Value("0") == 0;
    ValueSnoc("0", '1', "01");
    ValueSnoc("0", '0', "00");
    ValueSnoc("0", '2', "02");
  }

  lemma StartStamp()
    ensures ParseStamp(Start) == Some(Civil(1970, 1, 1, 0, 1, 0))
  {
    var d := "19700101000100";
    assert d[0..4] == "1970" && d[4..6] == "01" && d[6..8] == "01";
    assert d[8..10] == "00" && d[10..12] == "01" && d[12..14] == "00";
    DigitValues();
    assert AllDigits(d);
    StampDigits(d, " +0000");
  }

  lemma StopStamp()
    ensures ParseStamp(Stop) == Some(Civil(1970, 1, 1, 0, 2, 0))
  {
    var d := "19700101000200";
    assert d[0..4] == "1970" && d[4..6] == "01" && d[6..8] == "01";
    assert d[8..10] == "00" && d[10..12] == "02" && d[12..14] == "00";
    DigitValues();
    assert AllDigits(d);
    StampDigits(d, " +0000");
  }

  /** The stamps read as one and two minutes after the epoch. */
  lemma ExampleTimes()
    ensures Times(NewsEvent) == Some((60, 120))
  {
    StartStamp();
    StopStamp();
    EpochMinutes(1);
    EpochMinutes(2);
  }

  lemma EpochMinutes(m: int)
    ensures StampTime(Civil(1970, 1, 1, 0, m, 0)) == 60 * m
  {
    assert GoTime.Days(1970, 1, 1) == 0;
  }

  const NewsBody: seq<string> := ["E 1 60 60 0", "T News", "D Local", "G 16 ", "R 10", "e"]

  /** The lines of the event: id 1 (the start minute), start 60, duration
      60, an empty subtitle left out, one genre code and the age 10. */
  lemma ExampleBody()
    ensures Body(NewsEvent, 60, 120) == NewsBody
  {
    assert EventId(60) == 1 && GoTime.SubSeconds(60, 120) == 60;
    assert Body(NewsEvent, 60, 120) ==
      [EventLine(1, 60, 60), "T " + "News", "D " + "Local", "G " + GenreField([16]), "R " + FormatInt(10), "e"];
    ExampleEventLine();
    ExampleTail();
  }

  lemma ExampleTail()
    ensures "T " + "News" == "T News" && "D " + "Local" == "D Local"
    ensures "G " + GenreField([16]) == "G 16 " && "R " + FormatInt(10) == "R 10"
  {
    assert FormatInt(16) == "16" && FormatInt(10) == "10";
    assert GenreField([16]) == "16 ";
  }

  lemma ExampleEventLine()
    ensures EventLine(1, 60, 60) == "E 1 60 60 0"
  {
    assert FormatInt(1) == "1" && FormatInt(60) == "60";
    var parts := ["E", "1", "60", "60", "0"];
    assert Join(parts[3..], ' ') == "60 0" by {
      assert parts[3..][1..] == ["0"];
    }
    assert Join(parts[2..], ' ') == "60 60 0" by {
      assert parts[2..][1..] == parts[3..];
    }
    assert Join(parts[1..], ' ') == "1 60 60 0" by {
      assert parts[1..][1..] == parts[2..];
    }
  }

  /** The block's `C` line and the event's body, sent in one write. */
  const NewsWrite: Action := Send(["C A-0-509-3 WCVB"] + NewsBody)

  /** The event's write: the `C` line of the freshly opened block, then
      the body. */
  lemma ExampleWrite()
    ensures Write(Dir, "", NewsEvent, 60, 120) == NewsWrite
  {
    WriteFirst(Dir, NewsEvent, 60, 120);
    ExampleHeader();
    ExampleBody();
  }

  lemma ExampleHeader()
    ensures HeaderLine(Dir, "WCVB") == "C A-0-509-3 WCVB"
  {
    SampleLineId();
    assert HeaderLine(Dir, "WCVB") == "C " + "A-0-509-3" + " " + "WCVB";
  }

  /** The write of a block's first event starts with the `C` line. */
  lemma WriteFirst(dir: Directory, e: Event, start: int, stop: int)
    requires e.callSign in dir
    ensures Write(dir, "", e, start, stop) == Send([HeaderLine(dir, e.callSign)] + Body(e, start, stop))
  {
  }

  lemma ExampleAccept()
    ensures Accept(Dir, EpgSession.Start, NewsEvent) ==
              Running(State("WCVB", map["WCVB" := 2], Greeting + OpenBlock + [NewsWrite]))
  {
    ExampleTimes();
    ExampleWrite();
    FirstAccept(Dir, NewsEvent, 60, 120, NewsWrite);
  }

  /** The first event of a known channel opens a block and is written. */
  lemma FirstAccept(dir: Directory, e: Event, start: int, stop: int, w: Action)
    requires e.callSign in dir && e.callSign != ""
    requires Times(e) == Some((start, stop)) && Write(dir, "", e, start, stop) == w
    ensures Accept(dir, EpgSession.Start, e) == Running(State(e.callSign, map[e.callSign := 2], Greeting + OpenBlock + [w]))
  {
    HandshakeFirst(e.callSign);
    ExampleCounts(e.callSign);
  }

  lemma HandshakeFirst(k: string)
    ensures Handshake("", k) == OpenBlock
  {
    assert [] + OpenBlock == OpenBlock;
  }

  /** The block open and the event each bump the fresh counter. */
  lemma ExampleCounts(k: string)
    ensures Bump(Bump(map[], k), k) == map[k := 2]
  {
    var once := Bump(map[], k);
    assert once == map[k := 1];
    assert Lookup(once, k, 0) == 1;
  }

  /** The session greets, opens a block for `WCVB` whose `C` line shares the
      write with the event, and signs off; the channel's counter is 2, one
      for the block and one for the event. */
  lemma ExampleLoad()
    ensures Load(Dir, [NewsEvent]) == Finished(Greeting + OpenBlock + [NewsWrite] + Farewell, map["WCVB" := 2])
  {
    ExampleAccept();
    LoadOne(Dir, NewsEvent, State("WCVB", map["WCVB" := 2], Greeting + OpenBlock + [NewsWrite]));
  }

  /** A queue of one event of a known channel that is read finishes with
      the farewell after it. */
  lemma LoadOne(dir: Directory, e: Event, s: State)
    requires e.callSign in dir && Accept(dir, EpgSession.Start, e) == Running(s)
    ensures Load(dir, [e]) == Finished(s.trace + Farewell, s.counts)
  {
    FeedOne(dir, e);
  }

  lemma FeedOne(dir: Directory, e: Event)
    ensures Feed(dir, [e]) == Step(dir, Running(EpgSession.Start), e)
  {
    assert [e][..0] == [];
  }

  /** The peer's reply lines: each status code followed by a newline. */
  const Replies: seq<seq<byte>> := [[50, 50, 48, 10], [50, 53, 48, 10], [51, 53, 52, 10], [50, 53, 48, 10], [50, 50, 49, 10]]

  /** The sample line loads into a directory holding only `WCVB`. */
  lemma ExampleConf()
    ensures LoadChannels([FormatLine(Wcvb, "")]) == Loaded(Dir)
  {
    assert WellFormed(Wcvb);
    ParseFormatLine(Wcvb, "");
    assert Wcvb.(aliases := [], number := "") == Wcvb;
    LoadOneLine(FormatLine(Wcvb, ""), Wcvb);
  }

  lemma LoadOneLine(line: string, ch: VDRChannel)
    requires ParseLine(line) == Entry(ch)
    ensures LoadChannels([line]) == Loaded(map[ch.callSign := ch])
  {
    var parsed := ParseAll([line]);
    assert parsed == [Entry(ch)];
    assert parsed[..0] == [];
    assert Collect(parsed[..0]) == Loaded(map[]);
    assert Collect(parsed) == Loaded(map[][ch.callSign := ch]);
  }

  /** The waits of a trace made of two parts are those of the first part,
      then those of the second. */
  lemma {:induction false} ExpectedAppend(a: seq<Action>, b: seq<Action>)
    ensures Expected(a + b) == Expected(a) + Expected(b)
    decreases |a|
  {
    if |a| > 0 {
      assert (a + b)[1..] == a[1..] + b;
      ExpectedAppend(a[1..], b);
    } else {
      assert a + b == b;
    }
  }

  /** The run waits for 220, 250, 354, 250 and 221, in that order. */
  lemma ExampleWaits()
    ensures Expected(Greeting + OpenBlock + [NewsWrite] + Farewell) == [220, 250, 354, 250, 221]
  {
    ExpectedAppend(Greeting + OpenBlock + [NewsWrite], Farewell);
    ExpectedAppend(Greeting + OpenBlock, [NewsWrite]);
    ExpectedAppend(Greeting, OpenBlock);
    ExpectedThree(Greeting);
    assert Expected(OpenBlock) == [354] by {
      assert OpenBlock[1..] == [Expect(354)];
    }
    assert Expected([NewsWrite]) == [];
    ExpectedAppend(CloseBlock, [Send(["QUIT"]), Expect(ServiceClosing)]);
    ExpectedThree(CloseBlock);
    assert Expected([Send(["QUIT"]), Expect(ServiceClosing)]) == [221] by {
      assert [Send(["QUIT"]), Expect(ServiceClosing)][1..] == [Expect(ServiceClosing)];
    }
  }

  /** The waits of three actions, the last a wait. */
  lemma ExpectedThree(t: seq<Action>)
    requires |t| == 3 && t[2].Expect?
    ensures Expected(t) == (if t[0].Expect? then [t[0].code] else []) + (if t[1].Expect? then [t[1].code] else []) + [t[2].code]
  {
    assert t[1..][1..] == [t[2]];
    assert Expected([t[2]]) == [t[2].code];
  }

  /** Every reply carries the code of its wait. */
  lemma ExampleReplies()
    ensures AcceptedUpTo(Replies, [220, 250, 354, 250, 221], 5)
  {
    var codes := [220, 250, 354, 250, 221];
    forall j | 0 <= j < 5
      ensures ReplyOk(Replies[j], codes[j])
    {
      NumericIsReplyOk(Replies[j], codes[j]);
    }
  }

  /** The whole run: the sample line loaded, the guide translated, the
      event sent in its block, every wait answered, and `nchan` reporting
      two for `WCVB`. */
  lemma ExampleRun()
    ensures EpgLoad([FormatLine(Wcvb, "")], Items, Replies) == Done(map["WCVB" := 2])
  {
    ExampleConf();
    ExampleQueue();
    ExampleLoad();
    ExampleWaits();
    ExampleReplies();
    ReplayCompletes(Greeting + OpenBlock + [NewsWrite] + Farewell, Replies);
  }
}
