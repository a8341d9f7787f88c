/** VDR's channel directory: the `channels.conf` line format, the directory
    keyed by call sign that the loader builds from it, and the channel
    identifier VDR derives from a channel's parameters. */
module Channels {
  import opened GoStrings
  import opened Strconv
  import opened GoInt

  /** One `channels.conf` entry. `aliases` and `number` exist in the
      record but the loader never fills them in. */
  datatype VDRChannel = VDRChannel(
    name: string,
    aliases: seq<string>,
    callSign: string,
    number: string,
    frequency: string,
    param: string,
    source: string,
    srate: string,
    vpid: string,
    apid: string,
    tpid: string,
    condAccess: string,
    serviceId: string,
    networkId: string,
    transportId: string,
    radioId: string)

  /** Channels by call sign. */
  type Directory = map<string, VDRChannel>

  /** What the loader makes of one line: nothing (empty line or a `:` group
      marker), a logged complaint (no comma in the name part), a channel,
      or a crash (Go panics indexing `fields[12]` on a short line). */
  datatype ConfLine = Skipped | NoCallSign | Entry(channel: VDRChannel) | TooFewFields

  /** Some comma comes before the first colon, i.e. the name part of the
      line is a list of at least two names. */
  predicate CommaBeforeColon(line: string) {
    exists i :: 0 <= i < |line| && line[i] == ',' && ':' !in line[..i]
  }

  /** The name part holds a comma exactly when a comma precedes every colon. */
  lemma FirstFieldComma(line: string)
    ensures ',' in Split(line, ':')[0] <==> CommaBeforeColon(line)
  {
    var p0 := Split(line, ':')[0];
    SplitHead(line, ':');
    if ',' in p0 {
      var i :| 0 <= i < |p0| && p0[i] == ',';
      assert line[..i] == p0[..i];
      assert line[i] == ',';
    }
    if CommaBeforeColon(line) {
      var i :| 0 <= i < |line| && line[i] == ',' && ':' !in line[..i];
      assert forall j :: 0 <= j <= i ==> line[j] != ':' by {
        forall j | 0 <= j < i
          ensures line[j] != ':'
        {
          assert line[..i][j] == line[j];
        }
      }
      if |Split(line, ':')| > 1 {
        assert line[|p0|] == ':';
        assert i < |p0|;
      }
      assert p0[i] == ',';
    }
  }

  /** One line of `channels.conf`, classified and parsed as the loader does:
      colon fields, the first of them split on commas, the second name split
      on semicolons. */
  function ParseLine(line: string): (r: ConfLine)
    ensures r.Skipped? <==> |line| == 0 || line[0] == ':'
    ensures r.NoCallSign? <==> |line| > 0 && line[0] != ':' && !CommaBeforeColon(line)
    ensures r.TooFewFields? <==>
              |line| > 0 && line[0] != ':' && CommaBeforeColon(line) && Count(line, ':') < 12
    ensures r.Entry? ==>
              && r.channel.aliases == [] && r.channel.number == ""
              && ':' !in r.channel.name && ',' !in r.channel.name
              && ':' !in r.channel.callSign && ',' !in r.channel.callSign && ';' !in r.channel.callSign
              && HasPrefix(line, r.channel.name + "," + r.channel.callSign)
    ensures r.Entry? ==>
              var k := |r.channel.name| + 1 + |r.channel.callSign|;
              k < |line| && line[k] in {';', ',', ':'}
  {
    FirstFieldComma(line);
    if HasPrefix(line, ":") || |line| == 0 then Skipped
    else
      var fields := Split(line, ':');
      var ncs := Split(fields[0], ',');
      if |ncs| < 2 then NoCallSign
      else if |fields| < 13 then TooFewFields
      else
        var cs := Split(ncs[1], ';');
        CallSignPrefix(line, fields, ncs, cs);
        CallSignEnds(line, fields, ncs, cs);
        Entry(VDRChannel(
          name := ncs[0], aliases := [], callSign := cs[0], number := "",
          frequency := fields[1], param := fields[2], source := fields[3],
          srate := fields[4], vpid := fields[5], apid := fields[6],
          tpid := fields[7], condAccess := fields[8], serviceId := fields[9],
          networkId := fields[10], transportId := fields[11], radioId := fields[12]))
  }

  lemma CallSignPrefix(line: string, fields: seq<string>, ncs: seq<string>, cs: seq<string>)
    requires fields == Split(line, ':') && |fields| >= 1
    requires ncs == Split(fields[0], ',') && |ncs| >= 2
    requires cs == Split(ncs[1], ';')
    ensures ':' !in ncs[0] && ':' !in cs[0] && ',' !in cs[0]
    ensures HasPrefix(line, ncs[0] + "," + cs[0])
  {
    SplitHead(line, ':');
    JoinPrefix(ncs, ',');
    SplitHead(ncs[1], ';');
    assert fields[0] == Join(ncs, ',');
    assert ':' !in ncs[0] + [','] + ncs[1];
    NamesPrefix(line, fields[0], ncs[0], ncs[1], cs[0]);
  }

  /** The call sign stops at a `;`, a `,` or a `:` of the line: it is the
      whole text between the first comma and the next separator. */
  lemma CallSignEnds(line: string, fields: seq<string>, ncs: seq<string>, cs: seq<string>)
    requires fields == Split(line, ':') && |fields| >= 2
    requires ncs == Split(fields[0], ',') && |ncs| >= 2
    requires cs == Split(ncs[1], ';')
    ensures var k := |ncs[0]| + 1 + |cs[0]|;
            k < |line| && line[k] in {';', ',', ':'}
  {
    var k := |ncs[0]| + 1 + |cs[0]|;
    SplitHead(line, ':');
    var r := Join(ncs[1..], ',');
    assert fields[0] == ncs[0] + [','] + r;
    forall i | 0 <= i < |ncs[1..]|
      ensures ',' !in ncs[1..][i]
    {
      assert ncs[1..][i] == ncs[i + 1];
    }
    SplitJoin(ncs[1..], ',');
    PieceEnds(r, ',');
    PieceEnds(ncs[1], ';');
    if |cs[0]| < |ncs[1]| {
      assert line[k] == fields[0][k] == r[|cs[0]|] == ncs[1][|cs[0]|];
    } else if |ncs[1]| < |r| {
      assert line[k] == fields[0][k] == r[|ncs[1]|];
    } else {
      assert k == |fields[0]|;
    }
  }

  lemma NamesPrefix(line: string, names: string, name: string, signs: string, sign: string)
    requires HasPrefix(line, names) && HasPrefix(names, name + "," + signs) && HasPrefix(signs, sign)
    ensures HasPrefix(line, name + "," + sign)
  {
    var head := name + ",";
    assert (head + signs)[..|head + sign|] == head + signs[..|sign|];
    PrefixTrans(names, head + signs, head + sign);
    PrefixTrans(line, names, head + sign);
  }

  /** No field holds a separator of the line format. */
  predicate WellFormed(ch: VDRChannel) {
    && ':' !in ch.name && ',' !in ch.name
    && ':' !in ch.callSign && ',' !in ch.callSign && ';' !in ch.callSign
    && ':' !in ch.frequency && ':' !in ch.param && ':' !in ch.source
    && ':' !in ch.srate && ':' !in ch.vpid && ':' !in ch.apid
    && ':' !in ch.tpid && ':' !in ch.condAccess && ':' !in ch.serviceId
    && ':' !in ch.networkId && ':' !in ch.transportId && ':' !in ch.radioId
  }

  /** The thirteen colon fields of a channel's line. */
  function LineFields(ch: VDRChannel, provider: string): seq<string> {
    var names := ch.name + "," + ch.callSign + (if provider == "" then "" else ";" + provider);
    [names, ch.frequency, ch.param, ch.source, ch.srate, ch.vpid, ch.apid,
     ch.tpid, ch.condAccess, ch.serviceId, ch.networkId, ch.transportId, ch.radioId]
  }

  /** A `channels.conf` line in VDR's own layout,
      `name,callsign[;provider]:frequency:param:source:srate:vpid:apid:tpid:ca:sid:nid:tid:rid`. */
  function FormatLine(ch: VDRChannel, provider: string): string {
    Join(LineFields(ch, provider), ':')
  }

  /** The colon fields of a formatted line are the thirteen fields. */
  lemma FormatLineFields(ch: VDRChannel, provider: string)
    requires WellFormed(ch)
    requires ':' !in provider
    ensures Split(FormatLine(ch, provider), ':') == LineFields(ch, provider)
  {
    var parts := LineFields(ch, provider);
    var tail := if provider == "" then "" else ";" + provider;
    assert parts[0] == ch.name + [','] + ch.callSign + tail;
    assert ':' !in parts[0];
    SplitJoin(parts, ':');
  }

  /** The name part of a formatted line splits into the name and the call
      sign (with the provider after a semicolon). */
  lemma FormatLineNames(ch: VDRChannel, provider: string)
    requires WellFormed(ch)
    requires ',' !in provider
    ensures var ncs := Split(LineFields(ch, provider)[0], ',');
            |ncs| == 2 && ncs[0] == ch.name && Split(ncs[1], ';')[0] == ch.callSign
  {
    var tail := if provider == "" then "" else ";" + provider;
    var csPart := ch.callSign + tail;
    assert LineFields(ch, provider)[0] == ch.name + [','] + csPart;
    assert ',' !in csPart;
    SplitAfterPiece(ch.name, csPart, ',');
    SplitNoSeparator(csPart, ',');
    if provider == "" {
      assert csPart == ch.callSign;
      SplitNoSeparator(ch.callSign, ';');
    } else {
      assert csPart == ch.callSign + [';'] + provider;
      SplitAfterPiece(ch.callSign, provider, ';');
    }
  }

  /** Parsing a line in VDR's layout recovers every field the loader keeps;
      the provider suffix is dropped and the unset fields come back empty. */
  lemma ParseFormatLine(ch: VDRChannel, provider: string)
    requires WellFormed(ch)
    requires ':' !in provider && ',' !in provider
    ensures ParseLine(FormatLine(ch, provider)) == Entry(ch.(aliases := [], number := ""))
  {
    var line := FormatLine(ch, provider);
    var parts := LineFields(ch, provider);
    FormatLineFields(ch, provider);
    FormatLineNames(ch, provider);
    SplitHead(line, ':');
    assert HasPrefix(line, parts[0]);
    assert |parts[0]| > 0 && parts[0][0] != ':';
    assert line[0] != ':';
  }

  /** Outcome of reading the whole file: the directory, or the index of the
      line that crashes the loader. */
  datatype LoadResult = Loaded(dir: Directory) | Crashed(line: nat)

  /** The line defines the channel with call sign `k`. */
  predicate Defines(p: ConfLine, k: string) {
    p.Entry? && p.channel.callSign == k
  }

  /** The loader's loop over the lines once parsed, in file order: each
      channel is stored under its call sign, overwriting an earlier one; the
      first line too short to index crashes the loop. */
  function Collect(parsed: seq<ConfLine>): (r: LoadResult)
    ensures r.Loaded? <==> forall i :: 0 <= i < |parsed| ==> !parsed[i].TooFewFields?
    ensures r.Crashed? ==>
              && r.line < |parsed| && parsed[r.line].TooFewFields?
              && forall i :: 0 <= i < r.line ==> !parsed[i].TooFewFields?
    ensures r.Loaded? ==> forall k :: k in r.dir ==> r.dir[k].callSign == k
  {
    if |parsed| == 0 then Loaded(map[])
    else
      var last := |parsed| - 1;
      assert forall i :: 0 <= i < last ==> parsed[..last][i] == parsed[i];
      match Collect(parsed[..last])
      case Crashed(i) => Crashed(i)
      case Loaded(dir) =>
        match parsed[last]
        case TooFewFields => Crashed(last)
        case Entry(ch) => Loaded(dir[ch.callSign := ch])
        case _ => Loaded(dir)
  }

  /** The directory changes only at an entry line, and then only at its
      call sign. */
  lemma CollectStep(parsed: seq<ConfLine>)
    requires |parsed| > 0 && Collect(parsed).Loaded?
    ensures Collect(parsed[..|parsed| - 1]).Loaded?
    ensures var before := Collect(parsed[..|parsed| - 1]).dir;
            var p := parsed[|parsed| - 1];
            Collect(parsed).dir == if p.Entry? then before[p.channel.callSign := p.channel] else before
  {
  }

  /** The collected directory holds exactly the call signs some line
      defines. */
  lemma {:induction false} CollectKeys(parsed: seq<ConfLine>)
    requires Collect(parsed).Loaded?
    ensures forall k :: k in Collect(parsed).dir <==>
              exists i :: 0 <= i < |parsed| && Defines(parsed[i], k)
  {
    if |parsed| > 0 {
      var last := |parsed| - 1;
      var prefix := parsed[..last];
      CollectStep(parsed);
      CollectKeys(prefix);
      var dir := Collect(parsed).dir;
      var before := Collect(prefix).dir;
      forall k
        ensures k in dir <==> exists i :: 0 <= i < |parsed| && Defines(parsed[i], k)
      {
        assert k in dir <==> Defines(parsed[last], k) || k in before;
        if k in before {
          var i :| 0 <= i < last && Defines(prefix[i], k);
          assert prefix[i] == parsed[i];
        }
        if exists i :: 0 <= i < |parsed| && Defines(parsed[i], k) {
          var i :| 0 <= i < |parsed| && Defines(parsed[i], k);
          if i < last {
            assert prefix[i] == parsed[i];
          }
        }
      }
    }
  }

  /** Each call sign is bound to the channel of the last line defining
      it. */
  lemma {:induction false} CollectLastWins(parsed: seq<ConfLine>)
    requires Collect(parsed).Loaded?
    ensures forall i :: (0 <= i < |parsed| && parsed[i].Entry? &&
              forall j :: i < j < |parsed| ==> !Defines(parsed[j], parsed[i].channel.callSign)) ==>
              && parsed[i].channel.callSign in Collect(parsed).dir
              && Collect(parsed).dir[parsed[i].channel.callSign] == parsed[i].channel
  {
    if |parsed| > 0 {
      var last := |parsed| - 1;
      var prefix := parsed[..last];
      CollectStep(parsed);
      CollectLastWins(prefix);
      var dir := Collect(parsed).dir;
      var before := Collect(prefix).dir;
      forall i | 0 <= i < |parsed| && parsed[i].Entry? &&
                 forall j :: i < j < |parsed| ==> !Defines(parsed[j], parsed[i].channel.callSign)
        ensures parsed[i].channel.callSign in dir && dir[parsed[i].channel.callSign] == parsed[i].channel
      {
        var k := parsed[i].channel.callSign;
        if i < last {
          assert !Defines(parsed[last], k);
          assert forall j :: i < j < last ==> prefix[j] == parsed[j];
          assert prefix[i] == parsed[i];
        }
      }
    }
  }

  /** Every line of the file, parsed. */
  function ParseAll(lines: seq<string>): (parsed: seq<ConfLine>)
    ensures |parsed| == |lines|
    ensures forall i :: 0 <= i < |lines| ==> parsed[i] == ParseLine(lines[i])
  {
    seq(|lines|, i requires 0 <= i < |lines| => ParseLine(lines[i]))
  }

  /** `load_vdr_channels`: the directory read from the file's lines. */
  function LoadChannels(lines: seq<string>): (r: LoadResult)
    ensures r.Loaded? <==> forall i :: 0 <= i < |lines| ==> !ParseLine(lines[i]).TooFewFields?
    ensures r.Loaded? ==> forall k :: k in r.dir ==> r.dir[k].callSign == k
  {
    Collect(ParseAll(lines))
  }

  /** The directory holds exactly the call signs some line declares, each
      bound to the channel of the last line declaring it. */
  lemma LoadChannelsLastWins(lines: seq<string>)
    requires LoadChannels(lines).Loaded?
    ensures var parsed := ParseAll(lines);
            forall k :: k in LoadChannels(lines).dir <==>
              exists i :: 0 <= i < |lines| && Defines(parsed[i], k)
    ensures var parsed := ParseAll(lines);
            forall i :: (0 <= i < |lines| && parsed[i].Entry? &&
              forall j :: i < j < |lines| ==> !Defines(parsed[j], parsed[i].channel.callSign)) ==>
              && parsed[i].channel.callSign in LoadChannels(lines).dir
              && LoadChannels(lines).dir[parsed[i].channel.callSign] == parsed[i].channel
  {
    CollectKeys(ParseAll(lines));
    CollectLastWins(ParseAll(lines));
  }

  /** `vdr_make_channel_id`: `source-nid-tid-sid` when the transport or
      network id is not "0", else `source-nid-frequency-sid` with the
      frequency read as a number (0 if it is not one) and, for ATSC ("A") and
      terrestrial ("T") channels, divided by 1000 toward zero. */
  function ChannelId(c: VDRChannel): string {
    var fq := Atoi(c.frequency);
    var fq := if c.source == "A" || c.source == "T" then TruncDiv(fq, 1000) else fq;
    if c.transportId != "0" || c.networkId != "0" then
      c.source + "-" + c.networkId + "-" + c.transportId + "-" + c.serviceId
    else
      c.source + "-" + c.networkId + "-" + FormatInt(fq) + "-" + c.serviceId
  }

  /** The frequency figure the identifier uses when both ids are "0". */
  function IdFrequency(c: VDRChannel): (f: int)
    ensures c.source != "A" && c.source != "T" ==> f == Atoi(c.frequency)
    ensures (c.source == "A" || c.source == "T") && Atoi(c.frequency) >= 0 ==> 0 <= Atoi(c.frequency) - 1000 * f < 1000
    ensures (c.source == "A" || c.source == "T") && Atoi(c.frequency) < 0 ==> -1000 < Atoi(c.frequency) - 1000 * f <= 0
  {
    if c.source == "A" || c.source == "T" then TruncDiv(Atoi(c.frequency), 1000) else Atoi(c.frequency)
  }

  /** When the transport or network id is set, the identifier is made of the
      source and the three ids and does not depend on the frequency. */
  lemma ChannelIdIgnoresFrequency(c: VDRChannel, f: string)
    requires c.transportId != "0" || c.networkId != "0"
    ensures ChannelId(c) == c.source + "-" + c.networkId + "-" + c.transportId + "-" + c.serviceId
    ensures ChannelId(c.(frequency := f)) == ChannelId(c)
  {
  }

  /** When both ids are "0", the identifier is the source and "-0-", then
      the (scaled) frequency in Go's decimal text, which reads back as that
      number, then "-" and the service id. */
  lemma ChannelIdFrequency(c: VDRChannel)
    requires c.transportId == "0" && c.networkId == "0"
    ensures var id := ChannelId(c);
            var p := c.source + "-0-";
            var q := "-" + c.serviceId;
            && |p| + |q| <= |id|
            && id[..|p|] == p
            && id[|id| - |q|..] == q
            && id[|p|..|id| - |q|] == FormatInt(IdFrequency(c))
            && Atoi(id[|p|..|id| - |q|]) == IdFrequency(c)
  {
    ChannelIdZeroIds(c);
    ThreeParts(ChannelId(c), c.source + "-0-", FormatInt(IdFrequency(c)), "-" + c.serviceId);
    AtoiFormatInt(IdFrequency(c));
  }

  lemma ChannelIdZeroIds(c: VDRChannel)
    requires c.transportId == "0" && c.networkId == "0"
    ensures ChannelId(c) == (c.source + "-0-") + FormatInt(IdFrequency(c)) + ("-" + c.serviceId)
  {
    var m := FormatInt(IdFrequency(c));
    var p := c.source + "-0-";
    assert c.source + "-" + c.networkId + "-" == p;
    assert p + m + "-" + c.serviceId == p + m + ("-" + c.serviceId);
  }

  /** The parts of a three-part concatenation are read back by slicing. */
  lemma ThreeParts(s: string, p: string, m: string, q: string)
    requires s == p + m + q
    ensures |p| + |q| <= |s| && s[..|p|] == p && s[|s| - |q|..] == q && s[|p|..|s| - |q|] == m
  {
  }

}

module ChannelExamples {
  import opened Strconv
  import opened Channels

  /** A channel with only the fields the identifier reads filled in. */
  function Tuned(source: string, frequency: string, serviceId: string, networkId: string, transportId: string): VDRChannel {
    VDRChannel("", [], "", "", frequency, "", source, "", "", "", "", "", serviceId, networkId, transportId, "")
  }

  /** The channel of the sample line in the loader's comment,
      `ABC,WCVB:509028:M10:A:0:49=2:0:0:0:3:0:0:0`. */
  const Wcvb: VDRChannel :=
    VDRChannel("ABC", [], "WCVB", "", "509028", "M10", "A", "0", "49=2", "0", "0", "0", "3", "0", "0", "0")

  lemma ValueSnoc(s: string, c: char, t: string)
    requires AllDigits(s) && IsDigit(c) && t == s + [c]
    ensures AllDigits(t) && Value(t) == Value(s) * 10 + DigitValue(c)
  {
    assert t[..|s|] == s;
  }

  /** The sample line's channel is ATSC, so its frequency is scaled. */
  lemma SampleLineId()
    ensures ChannelId(Wcvb) == "A-0-509-3"
  {
    SampleFrequency();
    assert FormatInt(509) == "509";
    assert ChannelId(Wcvb) == "A" + "-" + "0" + "-" + "509" + "-" + "3";
  }

  lemma SampleFrequency()
    ensures Atoi("509028") == 509028
  {
    assert Value("5") == 5;
    ValueSnoc("5", '0', "50");
    ValueSnoc("50", '9', "509");
    ValueSnoc("509", '0', "5090");
    ValueSnoc("5090", '2', "50902");
    ValueSnoc("50902", '8', "509028");
    assert Unsigned("509028") == "509028";
  }

  /** A terrestrial channel with both ids "0": frequency 474000 becomes 474. */
  lemma TerrestrialId()
    ensures ChannelId(Tuned("T", "474000", "3", "0", "0")) == "T-0-474-3"
  {
    TerrestrialFrequency();
    assert FormatInt(474) == "474";
    assert ChannelId(Tuned("T", "474000", "3", "0", "0")) == "T" + "-" + "0" + "-" + "474" + "-" + "3";
  }

  lemma TerrestrialFrequency()
    ensures Atoi("474000") == 474000
  {
    assert Value("4") == 4;
    ValueSnoc("4", '7', "47");
    ValueSnoc("47", '4', "474");
    ValueSnoc("474", '0', "4740");
    ValueSnoc("4740", '0', "47400");
    ValueSnoc("47400", '0', "474000");
    assert Unsigned("474000") == "474000";
  }

  /** A set transport id selects the id form whatever the frequency. */
  lemma TransportId()
    ensures ChannelId(Tuned("S", "123000", "7", "1", "1")) == "S-1-1-7"
  {
  }
}
