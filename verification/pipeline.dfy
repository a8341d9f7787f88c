/** The `epg-load` verb end to end: the channel directory is read from
    `channels.conf`, the guide's elements are translated into events in
    document order, the session sends them, and the peer's replies decide
    how the process ends. The goroutine and the queue between the decoder
    and the session only hand events over in order, so the run is the
    session's fold over the whole queue. */
module Pipeline {
  import opened Utf8
  import opened Channels
  import opened Svdrp
  import opened EpgEvent
  import opened EpgSession
  import opened Guide

  /** How the process ends. */
  datatype Exit =
    | ConfCrashed(line: nat)            // a `channels.conf` line too short to index
    | Fatal(wait: nat, why: Failure)    // a reply wait that ends the process
    | StampPanic                        // an event stamp too short to slice
    | Done(counts: map<string, int>)    // `QUIT` acknowledged; the `nchan` counters

  /** The process once the directory is loaded and the guide queues
      `events`: the first failing reply wait or the stamp panic, whichever
      the trace reaches first, ends it. */
  function Finish(dir: Directory, events: seq<Event>, replies: seq<seq<byte>>): Exit {
    var run := Load(dir, events);
    match Replay(run.trace, replies)
    case Failed(w, why) => Fatal(w, why)
    case Completed => if run.Halted? then StampPanic else Done(run.counts)
  }

  /** `main` with the `epg-load` verb. The loader runs first, so a crash
      there ends the process before any connection is made. */
  function EpgLoad(lines: seq<string>, items: seq<Item>, replies: seq<seq<byte>>): (x: Exit)
    ensures x.ConfCrashed? <==> LoadChannels(lines).Crashed?
    ensures x.ConfCrashed? ==> x.line < |lines|
  {
    match LoadChannels(lines)
    case Crashed(i) =>
      CrashedLineInRange(lines);
      ConfCrashed(i)
    case Loaded(dir) => Finish(dir, Queue(dir, items), replies)
  }

  lemma CrashedLineInRange(lines: seq<string>)
    ensures LoadChannels(lines).Crashed? ==> LoadChannels(lines).line < |lines|
  {
  }

  /** A run halts exactly when some event of a known channel has a stamp
      too short to slice. */
  lemma LoadHalts(dir: Directory, events: seq<Event>)
    ensures Load(dir, events).Halted? <==> exists i :: 0 <= i < |events| && Unreadable(dir, events[i])
  {
    FeedPanics(dir, events);
  }

  /** The process completes exactly when no event of a known channel has a
      short stamp and every reply wait of the session finds its code. */
  lemma FinishDone(dir: Directory, events: seq<Event>, replies: seq<seq<byte>>)
    ensures var trace := Load(dir, events).trace;
            Finish(dir, events, replies).Done? <==>
              && (forall i :: 0 <= i < |events| ==> !Unreadable(dir, events[i]))
              && AcceptedUpTo(replies, Expected(trace), |Expected(trace)|)
  {
    LoadHalts(dir, events);
    ReplayCompletes(Load(dir, events).trace, replies);
  }

  /** The stamp panic ends the process exactly when some event of a known
      channel has a short stamp and every wait before it finds its code. */
  lemma FinishPanics(dir: Directory, events: seq<Event>, replies: seq<seq<byte>>)
    ensures var trace := Load(dir, events).trace;
            Finish(dir, events, replies) == StampPanic <==>
              && (exists i :: 0 <= i < |events| && Unreadable(dir, events[i]))
              && AcceptedUpTo(replies, Expected(trace), |Expected(trace)|)
  {
    LoadHalts(dir, events);
    ReplayCompletes(Load(dir, events).trace, replies);
  }

  /** A fatal exit names the first wait whose reply is missing, too short
      or wrong; every earlier wait got its code. */
  lemma FinishFatal(dir: Directory, events: seq<Event>, replies: seq<seq<byte>>)
    ensures var x := Finish(dir, events, replies);
            var codes := Expected(Load(dir, events).trace);
            x.Fatal? ==>
              && x.wait < |codes|
              && AcceptedUpTo(replies, codes, x.wait)
              && (x.why == ReadFailed <==> x.wait == |replies|)
              && (x.wait < |replies| ==> !ReplyOk(replies[x.wait], codes[x.wait]))
  {
    ReplayFailsFirst(Load(dir, events).trace, replies);
  }

  /** A completed process reports, for exactly the channels of accepted
      events, that channel's events plus the blocks opened for it. */
  lemma FinishCounts(dir: Directory, events: seq<Event>, replies: seq<seq<byte>>)
    ensures var x := Finish(dir, events, replies);
            x.Done? ==> CountsMatch(x.counts, Signs(Known(dir, events)))
  {
    FeedCounts(dir, events);
  }

  /** The whole process completes exactly when the directory loads, no
      event the guide queues for a known channel has a short stamp, and
      every reply wait finds its code. */
  lemma EpgLoadDone(lines: seq<string>, items: seq<Item>, replies: seq<seq<byte>>)
    ensures EpgLoad(lines, items, replies).Done? <==>
              && LoadChannels(lines).Loaded?
              && var dir := LoadChannels(lines).dir;
                 var events := Queue(dir, items);
                 var trace := Load(dir, events).trace;
                 && (forall i :: 0 <= i < |events| ==> !Unreadable(dir, events[i]))
                 && AcceptedUpTo(replies, Expected(trace), |Expected(trace)|)
  {
    if LoadChannels(lines).Loaded? {
      var dir := LoadChannels(lines).dir;
      FinishDone(dir, Queue(dir, items), replies);
    }
  }
}
