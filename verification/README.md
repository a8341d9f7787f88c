# vdr-epg-tool in Dafny

`vdr-epg-tool` feeds an XMLTV programme guide into a VDR video recorder over
VDR's SVDRP control protocol. Its one verb, `epg-load`, works like this:

- It reads VDR's `channels.conf` into a directory of channels keyed by call sign.
- It decodes the XMLTV file, re-encoding it from Latin-1 to UTF-8 when the XML prolog declares a Latin-1 alias.
- It maps each XMLTV channel id to a call sign through the channel's display names.
- It turns every `programme` element into a guide event, looking up the category and rating codes in two fixed tables.
- A second goroutine streams the events to VDR. The session greets, clears the guide (`CLRE`), opens a `PUTE` block per run of same-channel events, writes each event's tagged lines, checks the three-digit status code of every reply it waits for, and ends with a close and `QUIT`.

This project models all of that as pure functions over immutable data:

| module | what it models |
|---|---|
| `Channels` | `channels.conf` line parsing, the loader (`load_vdr_channels`), and the channel identifier (`vdr_make_channel_id`) |
| `ChannelExamples` | the identifier worked out for concrete channels |
| `Charset` | the Latin-1 charset names, `isCharset`, the Latin-1 reader, `CharsetReader` |
| `Tables` | the `genres` and `ratings` maps |
| `Svdrp` | the wire form of a write, and `svdrp_wait_for_reply` played against a list of reply lines |
| `EpgEvent` | the guide event, stamp slicing, the event id, and the `E`/`T`/`S`/`D`/`G`/`R`/`e` lines |
| `EpgSession` | `vdr_epg_load` as a fold over the queued events, producing the trace of writes and reply waits plus the `nchan` counters |
| `Guide` | the translation loop of `main` over the decoded `channel` and `programme` elements |
| `Pipeline` | `main`'s `epg-load` verb end to end, with how the process exits |
| `PipelineExample` | one complete run, from the sample `channels.conf` line to `QUIT` |

The parts of Go's standard library that decide results are modelled where the code uses them:

- `GoStrings`: `strings.Split`, `Join`, `HasPrefix` and `ToLower`.
- `Strconv`: `strconv.Atoi` with both of its paths, and `FormatInt`.
- `GoInt`: integer `/` and `%`, which truncate toward zero.
- `GoTime`: `time.Date(...).Unix()` with month normalisation, and the saturating `Time.Sub` read back as whole seconds.
- `Utf8`: UTF-8 encoding as RFC 3629, section 3 defines it.

## Model

| member | source | states |
|---|---|---|
| Charset.IsCharset | vdr-epg-tool.go:63-71 | a charset matches exactly when some listed name equals it ignoring case |
| Charset.IsCharsetISO88591 | vdr-epg-tool.go:73-91 | a charset is recognised exactly when its lower case is one of the nine registered Latin-1 names, lower-cased |
| Charset.Latin1ToUtf8 | vdr-epg-tool.go:52-61 | the re-encoded stream is longer than the input by exactly the number of bytes at or above 0x80 |
| Charset.EncodeLatin1Byte | vdr-epg-tool.go:52-61 | a byte at or above 0x80 becomes two UTF-8 bytes led by 0xC2 or 0xC3 |
| Charset.Latin1Append | vdr-epg-tool.go:52-61 | re-encoding distributes over concatenation, so the chunk size `Read` is called with does not matter |
| Charset.Latin1Ascii | vdr-epg-tool.go:52-61 | an all-ASCII stream passes through unchanged |
| Charset.Latin1RoundTrip | vdr-epg-tool.go:52-61 | decoding the UTF-8 output gives back the Latin-1 input |
| Charset.CharsetReader | vdr-epg-tool.go:93-98 | a non-Latin-1 charset passes the stream through untouched; a Latin-1 one yields UTF-8 that decodes back to the input |
| GoStrings.Split | vdr-epg-tool.go:388-396 | one more piece than separators, no piece contains the separator, the pieces join back into the text, and there is a single piece exactly when the separator is absent |
| GoStrings.SplitJoin | vdr-epg-tool.go:388-396 | splitting undoes joining when no piece contains the separator |
| Strconv.FormatInt | vdr-epg-tool.go:512 | the text has a leading minus exactly for negative numbers, its digits denote the absolute value, and it has no leading zero (so it is Go's one canonical decimal text) |
| Strconv.Atoi | vdr-epg-tool.go:424 | the result is in the 64-bit range; a short text that is not an optionally signed digit string reads as 0, and one that is reads as its signed value |
| Strconv.AtoiFormatInt | vdr-epg-tool.go:424-432 | `Atoi` reads back every 64-bit number `FormatInt` prints |
| Strconv.ScanUintDigits | vdr-epg-tool.go:424 | `Atoi`'s slow-path digit loop computes the value of a digit string that fits in 64 bits |
| GoInt.TruncDiv | vdr-epg-tool.go:428-429 | the quotient rounds toward zero: the remainder has the dividend's sign and is smaller than the divisor |
| GoInt.TruncMod | vdr-epg-tool.go:506 | the remainder has the dividend's sign, lies below the divisor, and recombines with the truncated quotient into the dividend |
| Utf8.EncodeRune | vdr-epg-tool.go:57 | one byte below U+0080, two below U+0800, three below U+10000, else four; a single byte equals the code point; otherwise a lead byte followed by continuation bytes |
| Utf8.EncodeRuneDecodes | vdr-epg-tool.go:57 | the encoding is UTF-8: each length has its lead-byte range, and the payload bits of lead and continuation bytes decode back to the code point |
| Utf8.EncodeStringAppend | vdr-epg-tool.go:57 | the encoding of a concatenation is the concatenation of the encodings |
| GoTime.DaysBeforeYearCounts | vdr-epg-tool.go:491 | the closed-form day count for whole years equals the year-by-year count of 365 and 366-day years |
| GoTime.UnixCounts | vdr-epg-tool.go:491 | `Unix` (`time.Date(...).Unix()`): for months 1 to 12, seconds since the epoch are the days of the earlier years and months plus the day, hour, minute and second |
| GoTime.UnixMonthCarry | vdr-epg-tool.go:491 | twelve months more is the same instant as one year more |
| GoTime.UnixDayRollover | vdr-epg-tool.go:491 | the day after a month's last day is the first of the next month, also across a year end |
| GoTime.SubSeconds | vdr-epg-tool.go:504 | the duration in seconds is the exact difference when that fits a `time.Duration`, and is otherwise saturated at about 292 years either way |
| Channels.FirstFieldComma | vdr-epg-tool.go:388-391 | the name field holds a comma exactly when a comma comes before the first colon of the line |
| Channels.ParseLine | vdr-epg-tool.go:385-413 | empty and `:` lines are skipped; a line with no comma before its first colon is rejected; one with fewer than twelve colons panics; otherwise the entry's name and call sign are the text before the first comma and the next text up to a `;`, `,` or `:` |
| Channels.ParseFormatLine | vdr-epg-tool.go:385-413 | parsing a line written in VDR's layout recovers every field the loader keeps; the provider suffix is dropped and the unset fields come back empty |
| Channels.Collect | vdr-epg-tool.go:383-415 | loading succeeds exactly when no line panics, and otherwise crashes at the first such line; every channel is filed under its own call sign |
| Channels.CollectKeys | vdr-epg-tool.go:414 | the directory holds exactly the call signs some line defines |
| Channels.CollectLastWins | vdr-epg-tool.go:414 | each call sign is bound to the channel of the last line that defines it |
| Channels.LoadChannels | vdr-epg-tool.go:375-420 | loading succeeds exactly when no line of the file panics, and the directory is keyed by call sign |
| Channels.LoadChannelsLastWins | vdr-epg-tool.go:375-420 | the same key and last-wins properties, stated for the file's lines |
| Channels.IdFrequency | vdr-epg-tool.go:424-429 | the frequency figure is the parsed frequency, and for sources `A` and `T` it is the parsed frequency divided by 1000 toward zero |
| Channels.ChannelIdIgnoresFrequency | vdr-epg-tool.go:434-436 | `ChannelId` (`vdr_make_channel_id`), first form: with a non-"0" transport or network id, the identifier is `source-nid-tid-sid` and does not depend on the frequency |
| Channels.ChannelIdFrequency | vdr-epg-tool.go:422-438 | `ChannelId` (`vdr_make_channel_id`), second form: with both ids "0", the identifier is `source-0-`, then exactly `FormatInt` of the (scaled) frequency, which reads back as that number, then `-sid` |
| ChannelExamples.SampleLineId | vdr-epg-tool.go:376 | the ATSC channel of the loader's sample line gets the identifier `A-0-509-3` |
| ChannelExamples.TerrestrialId | vdr-epg-tool.go:428-432 | a terrestrial channel on 474000 with both ids "0" gets `T-0-474-3` |
| ChannelExamples.TransportId | vdr-epg-tool.go:434-436 | a transport id of "1" selects the id form whatever the frequency: `S-1-1-7` |
| Tables.Lookup | vdr-epg-tool.go:639 | a missing key reads as 0; a present key reads as the value of its first entry, which is an entry of the table |
| Tables.GenreCode | vdr-epg-tool.go:155-293 | a known category reads as its table code and an unknown one as 0; every code lies below 0xC0 |
| Tables.GenreCodes | vdr-epg-tool.go:642-644 | one code per category, in category order, unknown ones included as 0 |
| Tables.RatingCode | vdr-epg-tool.go:295-302 | a known label reads as its age and anything else as 0; the result is one of 0, 2, 7, 8, 10, 14 and 18 |
| Tables.SynonymExample | vdr-epg-tool.go:157-158 | a synonym shares its category's code |
| Tables.RatingExample | vdr-epg-tool.go:295-302 | labels match case-sensitively: `tv-pg` and the empty rating read as 0 |
| Tables.GenreGroups | vdr-epg-tool.go:155-276 | each group of entries holds only codes whose high nibble is the content group its heading names |
| Tables.GenreCodesInGroups | vdr-epg-tool.go:155-293 | every genre code is a content byte of the groups 0x0 to 0xB |
| Svdrp.CheckReply | vdr-epg-tool.go:352-368 | a reply line passes exactly when its first three bytes spell the code; it is too short exactly when it has fewer than three bytes |
| Svdrp.ReplyOkNumeric | vdr-epg-tool.go:361-363 | for a three-digit code, a reply passes exactly when it starts with three ASCII digits whose decimal value is the code |
| Svdrp.WireLine | vdr-epg-tool.go:346-350 | `Wire` (`svdrp_write`): one line goes out as its UTF-8 bytes followed by CR LF |
| Svdrp.WireAppend | vdr-epg-tool.go:346-350 | the bytes of a write are those of each of its lines in turn |
| Svdrp.WireEnds | vdr-epg-tool.go:346-350 | every non-empty write ends with CR LF |
| Svdrp.Replay | vdr-epg-tool.go:352-368 | a failure names a wait of the trace |
| Svdrp.ReplayCompletes | vdr-epg-tool.go:352-368 | the conversation completes exactly when every wait finds its code in the next reply |
| Svdrp.ReplayFailsFirst | vdr-epg-tool.go:352-368 | a failure is at the first wait whose reply is missing or wrong; it is a read error exactly when the replies ran out, and a short reply exactly when the line is under three bytes |
| EpgEvent.ParseStamp | vdr-epg-tool.go:482-489 | slicing a stamp panics exactly when its bytes number fewer than 14 |
| EpgEvent.StampDigits | vdr-epg-tool.go:482-491 | a stamp starting with fourteen digits reads as the six numbers they spell, whatever follows (the zone offset is ignored) |
| EpgEvent.Field | vdr-epg-tool.go:484-489 | a slice of digit bytes reads as the decimal number they spell |
| EpgEvent.EventId | vdr-epg-tool.go:506 | the id of a start at or after the epoch lies in 0..65534, and that of an earlier start in -65534..0 |
| EpgEvent.EventIdCollides | vdr-epg-tool.go:506 | two starts at or after the epoch share an id exactly when their start minutes differ by a multiple of 65535 |
| EpgEvent.EventIdPeriod | vdr-epg-tool.go:506 | a start 65535 minutes later gets the same id |
| EpgEvent.GenreFieldReadsBack | vdr-epg-tool.go:510-513 | splitting the genre field at spaces gives one piece per code, and each piece reads back as its code, then a final empty piece |
| EpgEvent.EventLineReadsBack | vdr-epg-tool.go:515 | the `E` line splits into its tag, three numbers that read back as the id, start and duration, and the table id 0 |
| EpgEvent.EventLines | vdr-epg-tool.go:515-523 | an event body has seven lines with a subtitle and six without, none empty, and starts with the `E` line |
| EpgEvent.EventLinesContent | vdr-epg-tool.go:515-523 | `EventLines`: the body carries the title, the subtitle when there is one, the description, the genre field and the rating, each behind its tag, and ends with `e` |
| EpgEvent.EventLinesOrder | vdr-epg-tool.go:515-523 | the body's tags are `ETSDGRe`, or `ETDGRe` when the subtitle is empty |
| EpgEvent.Times | vdr-epg-tool.go:482-502 | an event's times cannot be read exactly when its start or stop stamp is shorter than 14 bytes |
| EpgSession.Bump | vdr-epg-tool.go:479 | incrementing a counter adds its key, raises it by one from 0 or its old value, and leaves the others alone |
| EpgSession.Write | vdr-epg-tool.go:475-525 | an event is one write of at least six lines, headed by the `C` line exactly when a block was just opened |
| EpgSession.Load | vdr-epg-tool.go:446-533 | every trace starts with the greeting and `CLRE`; a finished one ends with the close and `QUIT`; every wait is for a three-digit code |
| EpgSession.FeedBeginsWithGreeting | vdr-epg-tool.go:447-448 | `Feed`: whatever the events, the trace starts with the wait for 220, `CLRE` and the wait for 250 |
| EpgSession.FeedCodes | vdr-epg-tool.go:447-533 | `Feed`: every wait of the trace, and of the closing actions, is for a three-digit code |
| EpgSession.AcceptExtends | vdr-epg-tool.go:470-525 | `Accept`: an event extends the trace by its block handshake, then by its write unless its stamps panic |
| EpgSession.FeedIgnoresUnknown | vdr-epg-tool.go:465-467 | dropping the events of unknown call signs beforehand changes nothing |
| EpgSession.AcceptPanics | vdr-epg-tool.go:482-502 | an event of a known channel stops the session exactly when its times cannot be read |
| EpgSession.FeedPanics | vdr-epg-tool.go:465-502 | the session stops early exactly when some event of a known channel has a short stamp |
| EpgSession.FeedCurrent | vdr-epg-tool.go:475-478 | `cur_channel` is the call sign of the last accepted event, or "" before the first |
| EpgSession.BlocksAreRuns | vdr-epg-tool.go:470-479 | without an empty call sign, one block opens per run of same-channel events, and every block but the last is closed before the next opens |
| EpgSession.AcceptBlocks | vdr-epg-tool.go:470-479 | an accepted event sends `PUTE` exactly when it opens a block and `c` exactly when it closes one |
| EpgSession.FeedBlocks | vdr-epg-tool.go:470-479 | `PUTE` and `c` are sent as often as the accepted call signs open and close blocks |
| EpgSession.OpensForAtMost | vdr-epg-tool.go:475-479 | blocks opened for a channel never outnumber its events |
| EpgSession.TallyCounts | vdr-epg-tool.go:479-527 | the reference tally has a counter exactly for the accepted channels, each holding the channel's events plus its block opens |
| EpgSession.FeedTally | vdr-epg-tool.go:454-527 | the session's `nchan` equals the reference tally of the accepted call signs |
| EpgSession.FeedCounts | vdr-epg-tool.go:454-527 | `nchan` has a counter exactly for the channels of accepted events, holding that channel's events plus the blocks opened for it |
| EpgSession.FarewellCounts | vdr-epg-tool.go:531-533 | the closing actions contain one `c` and no `PUTE` |
| EpgSession.LoadBlocks | vdr-epg-tool.go:470-533 | a finished run sends `PUTE` once per block opened, and `c` once per channel change plus once at the end |
| EpgSession.LoadBalanced | vdr-epg-tool.go:470-533 | without an empty call sign, a finished run closes every block it opens, one per run of same-channel events; with no accepted event it still sends a lone `c` |
| EpgSession.FeedWrites | vdr-epg-tool.go:475-525 | the event writes are exactly the reference writes: one per accepted event, in queue order, with the `C` line in the same write as a block's first event |
| EpgSession.KnownFilters | vdr-epg-tool.go:465-467 | `Known`: an event is accepted exactly when it is queued and its call sign is in the directory, and each accepted event occurs as often as it is queued |
| Guide.FirstListed | vdr-epg-tool.go:616-625 | a found display name is a call sign of the directory |
| Guide.FirstListedFirst | vdr-epg-tool.go:616-625 | no name is found exactly when none is in the directory; a found name is the first that is |
| Guide.MapChannel | vdr-epg-tool.go:612-625 | a `channel` element with a known name binds its id to that entry's call sign, leaving every other id as it was; with no known name, nothing changes |
| Guide.TranslateFields | vdr-epg-tool.go:626-644 | `Translate`: an event keeps the programme's texts and stamps; the stop stamp is also the duration field; there is one genre code per category in order, 0 for an unknown category; an unknown rating is 0; the call sign is the bound one, or "" for an unbound channel id |
| Guide.XrefsStep | vdr-epg-tool.go:612-625 | the cross-reference changes only at a `channel` element with a known name, and only at that element's id |
| Guide.XrefKeys | vdr-epg-tool.go:612-625 | an id is bound exactly when some `channel` element with that id listed a known name |
| Guide.XrefLastWins | vdr-epg-tool.go:612-625 | a bound id carries the call sign chosen by the last `channel` element that bound it |
| Guide.IngestQueuesProgrammes | vdr-epg-tool.go:598-648 | `Queue`: each `programme` element queues exactly one event, in document order, with that programme's texts, stamps, genre codes and rating; `channel` elements queue nothing |
| Guide.IngestCallSigns | vdr-epg-tool.go:618-632 | with a directory keyed by call sign, every bound call sign and every queued event's call sign is "" or a call sign of the directory |
| Pipeline.EpgLoad | vdr-epg-tool.go:584-650 | the process dies in the loader exactly when a `channels.conf` line is too short, and names a line of the file |
| Pipeline.LoadHalts | vdr-epg-tool.go:465-502 | a run halts exactly when some event of a known channel has a short stamp |
| Pipeline.FinishDone | vdr-epg-tool.go:447-533 | `Finish`: the process completes exactly when no event of a known channel has a short stamp and every reply wait finds its code |
| Pipeline.FinishPanics | vdr-epg-tool.go:482-502 | the stamp panic ends the process exactly when some event of a known channel has a short stamp and every wait before it found its code |
| Pipeline.FinishFatal | vdr-epg-tool.go:352-368 | a fatal exit names the first wait whose reply is missing, short or wrong; every earlier wait got its code |
| Pipeline.FinishCounts | vdr-epg-tool.go:535-537 | a completed run reports a counter for exactly the channels of accepted events, holding their events plus the blocks opened for them |
| Pipeline.EpgLoadDone | vdr-epg-tool.go:584-650 | the whole verb completes exactly when the directory loads, no queued event of a known channel has a short stamp, and every reply wait finds its code |
| PipelineExample.ExampleXref | vdr-epg-tool.go:612-625 | a channel element whose second display name is `WCVB` binds its id to `WCVB` |
| PipelineExample.ExampleQueue | vdr-epg-tool.go:626-645 | the sample programme becomes one event for `WCVB` with genre 0x10 and rating 10 |
| PipelineExample.ExampleTimes | vdr-epg-tool.go:482-502 | the sample stamps read as 60 and 120 seconds after the epoch, zone offset ignored |
| PipelineExample.ExampleBody | vdr-epg-tool.go:506-523 | the sample event's lines: id 1, start 60, duration 60, title, description, genre field `16 `, rating 10, end marker |
| PipelineExample.ExampleWrite | vdr-epg-tool.go:475-525 | the first event's write is `C A-0-509-3 WCVB` followed by its body |
| PipelineExample.ExampleLoad | vdr-epg-tool.go:446-533 | the sample session greets, opens one block, writes the event, signs off, and counts 2 for `WCVB` |
| PipelineExample.ExampleConf | vdr-epg-tool.go:375-420 | the sample channel, written in VDR's layout, loads into a directory holding only `WCVB` |
| PipelineExample.ExampleWaits | vdr-epg-tool.go:447-533 | the sample run waits for 220, 250, 354, 250 and 221, in that order |
| PipelineExample.ExampleRun | vdr-epg-tool.go:584-650 | the whole sample run completes, with `nchan` reporting 2 for `WCVB` |

## Behaviour as written

Where the code and the tool's specification differ, the model follows the code:

- An unknown category adds the code 0 to the event's genre list. It is not left out, because `genres[val]` yields Go's zero value.
- The event id is taken modulo `0xffff`, which is 65535, not 65536. Both the division and the remainder truncate toward zero, so a start before the epoch gets an id of 0 or below.
- At the end of the queue the block is closed (`c`, `.`) whether or not one is open. A run with no accepted event still sends a lone `c`.
- A `channel` element stores its display names in `Aliases` on a copy of the directory entry. The copy is discarded, so the directory never records aliases.
- A `channel` element with no known display name leaves the cross-reference as it was. If an earlier element with the same id bound it, that binding stays.
- The bound value is the call sign of the directory entry, not the matched display name. These agree because the loader files every channel under its own call sign.

Edge cases the code has, kept in the model:

- A `channels.conf` entry whose call sign is empty can be loaded, because its key is "". In the session, "" is also the "no block open" value of `cur_channel`. An event for that channel therefore opens a new block each time and never closes the previous one. `EpgSession.BlocksAreRuns` and `EpgSession.LoadBalanced` exclude this case explicitly.
- A programme whose channel id is unbound gets the call sign "". It is sent only if the directory has such an entry.
- A stamp shorter than 14 bytes panics after the block handshake for its event has been sent. Stamps are sliced by bytes, so a multi-byte character counts by its UTF-8 length.
- A reply line shorter than three bytes panics when the status is sliced. It is reported as `ShortReply`.

## Left out

- TCP I/O is left out. Writes are assumed to succeed, because the code ignores their errors. The connect failure on lines 441-444 ends the process before any protocol step, so it is not an outcome of the model.
- Svdrp.Replay: each wait consumes exactly the next reply line. The code builds a fresh `bufio.Reader` for every wait, so bytes buffered past the first newline are lost. A peer that sends two replies in one segment can therefore stall or fail the real tool, and the model does not show this.
- The goroutine and the one-slot channel between the decoder and the session are left out. They only hand events over in order, so the session is modelled as a fold over the whole queue.
- XML tokenising and `DecodeElement` are left out. The guide is given as its decoded `channel` and `programme` elements in document order, up to the first syntax error. `Decoder.Token` returns no token together with any error, so the loop ends at the `t == nil` test (lines 600-602) and the logging branch at lines 605-608 is never reached. A malformed guide is therefore cut short without a message. The errors of `DecodeElement` (lines 614 and 628) are discarded, and other elements are ignored.
- The line scanner of `load_vdr_channels` is left out. The file is given as its lines. Its read error, including a line longer than the scanner's buffer, ends the process and is not modelled.
- The session reads replies with no time-out, so a peer that stays silent hangs the real tool for ever. The model cannot represent a hang: running out of replies is `ReadFailed`, as when the peer closes the connection.
- Channels.ParseLine: Go strings are byte strings, and `channels.conf` lines are split as raw bytes. The model takes each line as a sequence of Unicode characters, so a Latin-1 or invalid UTF-8 line cannot be written down. It also cannot show such a call sign failing to match a display name that the XML decoder produced as UTF-8.
- EpgEvent.EventLines: a body line is a list element. A title, subtitle or description that contains a CR or LF splits the real wire line, and VDR then reads the rest as a separate line. The model neither shows nor excludes this.
- Svdrp.Wire: the text is sent verbatim. `svdrp_write` uses the assembled command as a format string (line 349), so a `%` in a title or description is rewritten by `fmt` in the real tool.
- Logging, the debug output, the `vdr_status_codes` descriptions (used only in messages), the command-line options and the missing-verb error are left out.
- `l.Fatalln` and runtime panics are modelled as the `Pipeline.Exit` outcomes, not as process termination.
- The event's `channel` and `duration` fields are carried but never sent, as in the code.
- GoStrings.ToLower lower-cases only the runes whose lower case is ASCII. This is exact for comparing against the all-ASCII charset names, and it is the only use.
- EpgSession.LoadBalanced and EpgSession.BlocksAreRuns require that no call sign is "". The empty call sign behaves as described above.
- PipelineExample.ExampleRun starts from the sample channel written out with `Channels.FormatLine`. It is not proved that this text is character for character the comment's line `ABC,WCVB:509028:M10:A:0:49=2:0:0:0:3:0:0:0`.
- GoTime.SubSeconds covers only whole-second times. Those are the only times the code builds.
