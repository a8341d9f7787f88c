/** `vdr_epg_load` as a fold over the guide events in the order they are
    queued: it greets the peer, clears its guide, then streams each event of
    a known channel inside a `PUTE` block for that channel, switching blocks
    when the channel changes, and ends with a close and `QUIT`. The result is
    the trace of writes and reply waits, which `Svdrp.Replay` plays against
    the peer's replies. */
module EpgSession {
  import opened Wrappers
  import opened Utf8
  import opened Strconv
  import opened GoTime
  import opened Channels
  import opened Svdrp
  import opened EpgEvent

  /** Connected: wait for the greeting, then clear the guide. */
  const Greeting: seq<Action> := [Expect(ServiceReady), Send(["CLRE"]), Expect(ActionOk)]

  /** End the open block: the cancel line `c`, then `.`, then an OK. */
  const CloseBlock: seq<Action> := [Send(["c"]), Send(["."]), Expect(ActionOk)]

  /** Start a block: `PUTE`, then the go-ahead to send data. */
  const OpenBlock: seq<Action> := [Send(["PUTE"]), Expect(StartSending)]

  /** End of input: close the block, whether or not one is open, and quit. */
  const Farewell: seq<Action> := CloseBlock + [Send(["QUIT"]), Expect(ServiceClosing)]

  /** `cur_channel`, the `nchan` counters and the actions so far. */
  datatype State = State(current: string, counts: map<string, int>, trace: seq<Action>)

  /** Still reading events, or stopped by a stamp too short to slice. */
  datatype Progress = Running(state: State) | Panicked(trace: seq<Action>)

  const Start: State := State("", map[], Greeting)

  /** `nchan[k]++`: a missing counter starts from 0. */
  function Bump(counts: map<string, int>, k: string): (m: map<string, int>)
    ensures m.Keys == counts.Keys + {k}
    ensures m[k] == Lookup(counts, k, 0) + 1
    ensures forall j :: j in counts && j != k ==> m[j] == counts[j]
  {
    counts[k := Lookup(counts, k, 0) + 1]
  }

  /** The `C` line that heads a block: the channel id, then the call sign. */
  function HeaderLine(dir: Directory, callSign: string): string
    requires callSign in dir
  {
    "C " + ChannelId(dir[callSign]) + " " + callSign
  }

  /** The block is closed before an event whose call sign differs from a
      non-empty current one. */
  predicate Closes(current: string, callSign: string) {
    current != "" && current != callSign
  }

  /** A block is opened when none is (the current call sign is empty) or
      the call sign changes. */
  predicate Opens(current: string, callSign: string) {
    current == "" || current != callSign
  }

  /** The body lines of `e` once its stamps are read. */
  function Body(e: Event, start: int, stop: int): seq<string> {
    EventLines(e, EventId(start), start, SubSeconds(start, stop))
  }

  /** The block handshake before an event for `callSign`: close the open
      block if the channel changes, open one if none is open or it changed. */
  function Handshake(current: string, callSign: string): seq<Action> {
    (if Closes(current, callSign) then CloseBlock else []) + (if Opens(current, callSign) then OpenBlock else [])
  }

  /** The single write for one event: its body, preceded by the `C` line
      when a block was just opened. */
  function Write(dir: Directory, current: string, e: Event, start: int, stop: int): (w: Action)
    requires e.callSign in dir
    ensures w.Send? && |w.lines| >= 6
    ensures Opens(current, e.callSign) <==> w.lines[0] == HeaderLine(dir, e.callSign)
  {
    var header := if Opens(current, e.callSign) then [HeaderLine(dir, e.callSign)] else [];
    var body := Body(e, start, stop);
    assert body[0][0] == 'E' && HeaderLine(dir, e.callSign)[0] == 'C';
    Send(header + body)
  }

  /** One event of a known channel: close and open blocks as needed, read
      the stamps (which may panic), then write the event. Both the block
      open and the event bump the channel's counter. */
  function Accept(dir: Directory, s: State, e: Event): Progress
    requires e.callSign in dir
  {
    var cs := e.callSign;
    var trace := s.trace + Handshake(s.current, cs);
    var counts := if Opens(s.current, cs) then Bump(s.counts, cs) else s.counts;
    match Times(e)
    case None => Panicked(trace)
    case Some((start, stop)) =>
      Running(State(cs, Bump(counts, cs), trace + [Write(dir, s.current, e, start, stop)]))
  }

  /** One event off the queue: an event whose call sign is not in the
      directory is dropped without a trace. */
  function Step(dir: Directory, p: Progress, e: Event): Progress {
    match p
    case Panicked(_) => p
    case Running(s) => if e.callSign in dir then Accept(dir, s, e) else p
  }

  /** The session after the events so far. */
  function Feed(dir: Directory, events: seq<Event>): Progress
    decreases |events|
  {
    if |events| == 0 then Running(Start)
    else Step(dir, Feed(dir, events[..|events| - 1]), events[|events| - 1])
  }

  function TraceOf(p: Progress): seq<Action> {
    match p
    case Running(s) => s.trace
    case Panicked(t) => t
  }

  /** `t` starts with `p`. */
  predicate Begins<T(==)>(t: seq<T>, p: seq<T>) {
    |p| <= |t| && t[..|p|] == p
  }

  /** A whole run: the finished trace with the counters, or the trace up to
      a panic. */
  datatype Run = Finished(trace: seq<Action>, counts: map<string, int>) | Halted(trace: seq<Action>)

  /** `vdr_epg_load` once the queue is closed. */
  function Load(dir: Directory, events: seq<Event>): (r: Run)
    ensures Begins(r.trace, Greeting)
    ensures r.Finished? ==> |r.trace| >= |Greeting| + |Farewell| && r.trace[|r.trace| - |Farewell|..] == Farewell
    ensures ThreeDigitCodes(r.trace)
  {
    FeedBeginsWithGreeting(dir, events);
    FeedCodes(dir, events);
    ThreeDigitAppend(TraceOf(Feed(dir, events)), Farewell);
    match Feed(dir, events)
    case Running(s) => Finished(s.trace + Farewell, s.counts)
    case Panicked(t) => Halted(t)
  }

  /** Every trace starts with the greeting and the guide clear. */
  lemma {:induction false} FeedBeginsWithGreeting(dir: Directory, events: seq<Event>)
    ensures Begins(TraceOf(Feed(dir, events)), Greeting)
    decreases |events|
  {
    if |events| > 0 {
      var prefix := events[..|events| - 1];
      FeedBeginsWithGreeting(dir, prefix);
      var p := Feed(dir, prefix);
      var e := events[|events| - 1];
      assert Feed(dir, events) == Step(dir, p, e);
      if p.Running? && e.callSign in dir {
        AcceptExtends(dir, p.state, e);
        BeginsTrans(TraceOf(Accept(dir, p.state, e)), p.state.trace, Greeting);
      }
    }
  }


  lemma ThreeDigitAppend(a: seq<Action>, b: seq<Action>)
    requires ThreeDigitCodes(a) && ThreeDigitCodes(b)
    ensures ThreeDigitCodes(a + b)
  {
    forall i | 0 <= i < |a + b| && (a + b)[i].Expect?
      ensures 100 <= (a + b)[i].code <= 999
    {
      if i >= |a| {
        assert (a + b)[i] == b[i - |a|];
      }
    }
  }

  /** What an event of a known channel leaves in the trace, stopped or
      not: the trace before it, then its handshake, then its write. */
  lemma AcceptExtends(dir: Directory, s: State, e: Event)
    requires e.callSign in dir
    ensures var t := TraceOf(Accept(dir, s, e));
            var h := s.trace + Handshake(s.current, e.callSign);
            && Begins(t, h) && Begins(t, s.trace)
            && (Accept(dir, s, e).Panicked? ==> t == h)
            && (Accept(dir, s, e).Running? ==> |t| == |h| + 1 && t[|t| - 1].Send?)
  {
    var h := s.trace + Handshake(s.current, e.callSign);
    if Accept(dir, s, e).Running? {
      AcceptShape(dir, s, e);
    }
    assert Begins(TraceOf(Accept(dir, s, e)), h);
    assert Begins(h, s.trace) by {
      assert h[..|s.trace|] == s.trace;
    }
    BeginsTrans(TraceOf(Accept(dir, s, e)), h, s.trace);
  }

  lemma BeginsTrans<T>(t: seq<T>, m: seq<T>, g: seq<T>)
    requires Begins(t, m) && Begins(m, g)
    ensures Begins(t, g)
  {
    assert t[..|g|] == t[..|m|][..|g|];
  }

  lemma AcceptCodes(dir: Directory, s: State, e: Event)
    requires e.callSign in dir && ThreeDigitCodes(s.trace)
    ensures ThreeDigitCodes(TraceOf(Accept(dir, s, e)))
  {
    AcceptExtends(dir, s, e);
    HandshakeCodes(s.current, e.callSign);
    ExtendCodes(s.trace, Handshake(s.current, e.callSign), TraceOf(Accept(dir, s, e)));
  }

  lemma HandshakeCodes(current: string, callSign: string)
    ensures ThreeDigitCodes(Handshake(current, callSign))
  {
    ThreeDigitAppend(if Closes(current, callSign) then CloseBlock else [], if Opens(current, callSign) then OpenBlock else []);
  }

  /** Appending waits for three-digit codes and at most one write keeps
      every wait three-digit. */
  lemma ExtendCodes(before: seq<Action>, h: seq<Action>, t: seq<Action>)
    requires ThreeDigitCodes(before) && ThreeDigitCodes(h) && Begins(t, before + h)
    requires |t| == |before + h| || (|t| == |before + h| + 1 && t[|t| - 1].Send?)
    ensures ThreeDigitCodes(t)
  {
    ThreeDigitAppend(before, h);
    forall i | 0 <= i < |t| && t[i].Expect?
      ensures 100 <= t[i].code <= 999
    {
      assert i < |before + h| && t[i] == (before + h)[i];
    }
  }

  /** Every wait is for one of the codes 220, 221, 250 and 354. */
  lemma {:induction false} FeedCodes(dir: Directory, events: seq<Event>)
    ensures ThreeDigitCodes(TraceOf(Feed(dir, events)))
    ensures ThreeDigitCodes(Farewell)
    decreases |events|
  {
    if |events| > 0 {
      var prefix := events[..|events| - 1];
      var e := events[|events| - 1];
      FeedCodes(dir, prefix);
      var p := Feed(dir, prefix);
      assert Feed(dir, events) == Step(dir, p, e);
      if p.Running? && e.callSign in dir {
        AcceptCodes(dir, p.state, e);
      }
    }
  }

  /** The events whose call sign is in the directory, in queue order. */
  function Known(dir: Directory, events: seq<Event>): (ks: seq<Event>)
    ensures |ks| <= |events|
    ensures forall i :: 0 <= i < |ks| ==> ks[i].callSign in dir
    decreases |events|
  {
    if |events| == 0 then []
    else
      var ks := Known(dir, events[..|events| - 1]);
      if events[|events| - 1].callSign in dir then ks + [events[|events| - 1]] else ks
  }

  /** The accepted events are exactly the queued events of known
      channels, each as often as it is queued, in queue order. */
  lemma {:induction false} KnownFilters(dir: Directory, events: seq<Event>)
    ensures var ks := Known(dir, events);
            && (forall e: Event :: e in ks <==> e in events && e.callSign in dir)
            && multiset(ks) <= multiset(events)
            && (forall e: Event :: e.callSign in dir ==> multiset(ks)[e] == multiset(events)[e])
    decreases |events|
  {
    if |events| > 0 {
      var prefix := events[..|events| - 1];
      var e := events[|events| - 1];
      KnownFilters(dir, prefix);
      assert events == prefix + [e];
    }
  }

  /** Dropping the events of unknown channels beforehand changes nothing. */
  lemma {:induction false} FeedIgnoresUnknown(dir: Directory, events: seq<Event>)
    ensures Feed(dir, Known(dir, events)) == Feed(dir, events)
    decreases |events|
  {
    if |events| > 0 {
      var prefix := events[..|events| - 1];
      var e := events[|events| - 1];
      FeedIgnoresUnknown(dir, prefix);
      var ks := Known(dir, prefix);
      if e.callSign in dir {
        assert (ks + [e])[..|ks + [e]| - 1] == ks;
      }
    }
  }

  lemma AcceptPanics(dir: Directory, s: State, e: Event)
    requires e.callSign in dir
    ensures Accept(dir, s, e).Panicked? <==> Times(e).None?
  {
  }

  /** `e` belongs to a known channel and has a stamp too short to slice. */
  predicate Unreadable(dir: Directory, e: Event) {
    e.callSign in dir && Times(e).None?
  }

  /** Some element of `s` satisfies `p`, checked from the back. */
  function Any<T>(s: seq<T>, p: T -> bool): bool
    decreases |s|
  {
    |s| > 0 && (Any(s[..|s| - 1], p) || p(s[|s| - 1]))
  }

  lemma {:induction false} AnyExists<T>(s: seq<T>, p: T -> bool)
    ensures Any(s, p) <==> exists i :: 0 <= i < |s| && p(s[i])
    decreases |s|
  {
    if |s| > 0 {
      var prefix := s[..|s| - 1];
      AnyExists(prefix, p);
      if exists i :: 0 <= i < |s| && p(s[i]) {
        var i :| 0 <= i < |s| && p(s[i]);
        if i < |prefix| {
          assert prefix[i] == s[i];
        }
      }
      if exists i :: 0 <= i < |prefix| && p(prefix[i]) {
        var i :| 0 <= i < |prefix| && p(prefix[i]);
        assert s[i] == prefix[i];
      }
    }
  }

  function UnreadableIn(dir: Directory): Event -> bool {
    e => Unreadable(dir, e)
  }

  lemma {:induction false} FeedPanicsAny(dir: Directory, events: seq<Event>)
    ensures Feed(dir, events).Panicked? <==> Any(events, UnreadableIn(dir))
    decreases |events|
  {
    if |events| > 0 {
      var prefix := events[..|events| - 1];
      var e := events[|events| - 1];
      FeedPanicsAny(dir, prefix);
      var p := Feed(dir, prefix);
      assert Feed(dir, events) == Step(dir, p, e);
      if p.Running? && e.callSign in dir {
        AcceptPanics(dir, p.state, e);
      }
    }
  }

  /** The run stops early exactly when an event of a known channel has a
      start or stop stamp shorter than 14 bytes; other events' stamps are
      never looked at. */
  lemma FeedPanics(dir: Directory, events: seq<Event>)
    ensures Feed(dir, events).Panicked? <==> exists i :: 0 <= i < |events| && Unreadable(dir, events[i])
  {
    FeedPanicsAny(dir, events);
    AnyExists(events, UnreadableIn(dir));
  }

  /** The call signs of `ks`. */
  function Signs(ks: seq<Event>): (signs: seq<string>)
    ensures |signs| == |ks|
  {
    seq(|ks|, i requires 0 <= i < |ks| => ks[i].callSign)
  }

  /** The last call sign, or "" when there is none. */
  function LastSign(signs: seq<string>): string {
    if |signs| == 0 then "" else signs[|signs| - 1]
  }

  /** Blocks opened for a sequence of accepted call signs. */
  function OpenCount(signs: seq<string>): nat
    decreases |signs|
  {
    if |signs| == 0 then 0
    else
      var prefix := signs[..|signs| - 1];
      OpenCount(prefix) + if Opens(LastSign(prefix), signs[|signs| - 1]) then 1 else 0
  }

  /** Blocks closed on a channel change for a sequence of call signs. */
  function CloseCount(signs: seq<string>): nat
    decreases |signs|
  {
    if |signs| == 0 then 0
    else
      var prefix := signs[..|signs| - 1];
      CloseCount(prefix) + if Closes(LastSign(prefix), signs[|signs| - 1]) then 1 else 0
  }

  /** Occurrences of `k` in `signs`. */
  function Occurs(signs: seq<string>, k: string): nat
    decreases |signs|
  {
    if |signs| == 0 then 0
    else Occurs(signs[..|signs| - 1], k) + if signs[|signs| - 1] == k then 1 else 0
  }

  /** Blocks opened for `k`. */
  function OpensFor(signs: seq<string>, k: string): nat
    decreases |signs|
  {
    if |signs| == 0 then 0
    else
      var prefix := signs[..|signs| - 1];
      OpensFor(prefix, k) + if signs[|signs| - 1] == k && Opens(LastSign(prefix), k) then 1 else 0
  }

  /** Runs of equal consecutive call signs: positions that start a run. */
  function Runs(signs: seq<string>): nat
    decreases |signs|
  {
    if |signs| == 0 then 0
    else
      var prefix := signs[..|signs| - 1];
      Runs(prefix) + if |prefix| == 0 || LastSign(prefix) != signs[|signs| - 1] then 1 else 0
  }

  /** With no empty call sign, a block is opened once per run of equal
      consecutive call signs, and every block but the last is closed before
      the next one opens. */
  lemma {:induction false} BlocksAreRuns(signs: seq<string>)
    requires forall i :: 0 <= i < |signs| ==> signs[i] != ""
    ensures OpenCount(signs) == Runs(signs)
    ensures |signs| > 0 ==> CloseCount(signs) == Runs(signs) - 1
    decreases |signs|
  {
    if |signs| > 0 {
      var prefix := signs[..|signs| - 1];
      BlocksAreRuns(prefix);
      assert |prefix| > 0 ==> LastSign(prefix) == signs[|signs| - 2];
    }
  }

  /** Occurrences of action `a` in a trace. */
  function CountOf(t: seq<Action>, a: Action): nat {
    multiset(t)[a]
  }

  lemma CountAppend(a: seq<Action>, b: seq<Action>, x: Action)
    ensures CountOf(a + b, x) == CountOf(a, x) + CountOf(b, x)
  {
    assert multiset(a + b) == multiset(a) + multiset(b);
  }

  /** Accepting one more known event appends its call sign. */
  lemma SignsSnoc(dir: Directory, events: seq<Event>)
    requires |events| > 0
    ensures var prefix := events[..|events| - 1];
            var e := events[|events| - 1];
            var signs := Signs(Known(dir, events));
            if e.callSign in dir then
              |signs| > 0 && signs[..|signs| - 1] == Signs(Known(dir, prefix)) && signs[|signs| - 1] == e.callSign
            else signs == Signs(Known(dir, prefix))
  {
  }

  lemma SignsAppend(dir: Directory, events: seq<Event>)
    requires |events| > 0
    ensures var e := events[|events| - 1];
            Signs(Known(dir, events)) == Signs(Known(dir, events[..|events| - 1])) + if e.callSign in dir then [e.callSign] else []
  {
    SignsSnoc(dir, events);
    var signs := Signs(Known(dir, events));
    if events[|events| - 1].callSign in dir {
      assert signs == signs[..|signs| - 1] + [signs[|signs| - 1]];
    }
  }

  /** `cur_channel` is always the call sign of the last event accepted,
      or "" before the first. */
  lemma {:induction false} FeedCurrent(dir: Directory, events: seq<Event>)
    ensures Feed(dir, events).Running? ==> Feed(dir, events).state.current == LastSign(Signs(Known(dir, events)))
    decreases |events|
  {
    if |events| > 0 {
      var prefix := events[..|events| - 1];
      FeedCurrent(dir, prefix);
      SignsSnoc(dir, events);
    }
  }

  /** One accepted event sends `PUTE` when it opens a block and `c` when
      it closes one, and neither otherwise. */
  lemma AcceptBlocks(dir: Directory, s: State, e: Event)
    requires e.callSign in dir && Accept(dir, s, e).Running?
    ensures var t := Accept(dir, s, e).state.trace;
            && CountOf(t, Send(["PUTE"])) == CountOf(s.trace, Send(["PUTE"])) + (if Opens(s.current, e.callSign) then 1 else 0)
            && CountOf(t, Send(["c"])) == CountOf(s.trace, Send(["c"])) + (if Closes(s.current, e.callSign) then 1 else 0)
  {
    AcceptShape(dir, s, e);
    HandshakeCounts(s.current, e.callSign);
    WriteCounts(s.trace, Handshake(s.current, e.callSign), Accept(dir, s, e).state.trace, Send(["PUTE"]));
    WriteCounts(s.trace, Handshake(s.current, e.callSign), Accept(dir, s, e).state.trace, Send(["c"]));
  }

  /** A write of several lines is never a one-line command. */
  lemma WriteCounts(before: seq<Action>, h: seq<Action>, t: seq<Action>, a: Action)
    requires |t| > 0 && t[..|t| - 1] == before + h && t[|t| - 1].Send? && |t[|t| - 1].lines| >= 6
    requires a.Send? && |a.lines| == 1
    ensures CountOf(t, a) == CountOf(before, a) + CountOf(h, a)
  {
    assert t == (before + h) + [t[|t| - 1]];
    CountAppend(before + h, [t[|t| - 1]], a);
    CountAppend(before, h, a);
  }

  /** An accepted event appends its handshake and then one write of at
      least six lines. */
  lemma AcceptShape(dir: Directory, s: State, e: Event)
    requires e.callSign in dir && Accept(dir, s, e).Running?
    ensures var t := Accept(dir, s, e).state.trace;
            && |t| > 0 && t[..|t| - 1] == s.trace + Handshake(s.current, e.callSign)
            && t[|t| - 1] == Write(dir, s.current, e, Times(e).value.0, Times(e).value.1)
            && t[|t| - 1].Send? && |t[|t| - 1].lines| >= 6
  {
  }

  lemma HandshakeCounts(current: string, callSign: string)
    ensures CountOf(Handshake(current, callSign), Send(["PUTE"])) == if Opens(current, callSign) then 1 else 0
    ensures CountOf(Handshake(current, callSign), Send(["c"])) == if Closes(current, callSign) then 1 else 0
  {
  }

  /** `PUTE` is sent once per block opened and `c` once per block closed on
      a channel change, as counted from the accepted call signs alone. */
  lemma {:induction false} FeedBlocks(dir: Directory, events: seq<Event>)
    ensures Feed(dir, events).Running? ==>
              var t := Feed(dir, events).state.trace;
              var signs := Signs(Known(dir, events));
              CountOf(t, Send(["PUTE"])) == OpenCount(signs) && CountOf(t, Send(["c"])) == CloseCount(signs)
    decreases |events|
  {
    if |events| > 0 {
      var prefix := events[..|events| - 1];
      var e := events[|events| - 1];
      FeedBlocks(dir, prefix);
      FeedCurrent(dir, prefix);
      SignsSnoc(dir, events);
      var p := Feed(dir, prefix);
      assert Feed(dir, events) == Step(dir, p, e);
      if p.Running? && e.callSign in dir && Accept(dir, p.state, e).Running? {
        AcceptBlocks(dir, p.state, e);
      }
    }
  }

  /** Blocks opened for `k` never outnumber its events. */
  lemma {:induction false} OpensForAtMost(signs: seq<string>, k: string)
    ensures OpensFor(signs, k) <= Occurs(signs, k)
    decreases |signs|
  {
    if |signs| > 0 {
      OpensForAtMost(signs[..|signs| - 1], k);
    }
  }

  /** `c` holds a counter exactly for the call signs in `signs`, and it is
      that channel's events plus the blocks opened for it. */
  ghost predicate CountsMatch(c: map<string, int>, signs: seq<string>) {
    && (forall k :: k in c <==> Occurs(signs, k) > 0)
    && (forall k :: k in c ==> c[k] == Occurs(signs, k) + OpensFor(signs, k))
  }

  lemma CountsSnoc(c: map<string, int>, signs: seq<string>, cs: string, next: map<string, int>)
    requires CountsMatch(c, signs)
    requires next.Keys == c.Keys + {cs}
    requires next[cs] == Lookup(c, cs, 0) + (if Opens(LastSign(signs), cs) then 2 else 1)
    requires forall k :: k in c && k != cs ==> next[k] == c[k]
    ensures CountsMatch(next, signs + [cs])
  {
    var after := signs + [cs];
    assert after[..|after| - 1] == signs;
    OpensForAtMost(signs, cs);
    forall k
      ensures k in next <==> Occurs(after, k) > 0
      ensures k in next ==> next[k] == Occurs(after, k) + OpensFor(after, k)
    {
    }
  }

  /** The counters for a sequence of accepted call signs, bumped as the
      session bumps them. */
  function Tally(signs: seq<string>): map<string, int>
    decreases |signs|
  {
    if |signs| == 0 then map[]
    else
      var prefix := signs[..|signs| - 1];
      var cs := signs[|signs| - 1];
      var c := Tally(prefix);
      Bump(if Opens(LastSign(prefix), cs) then Bump(c, cs) else c, cs)
  }

  lemma {:induction false} TallyCounts(signs: seq<string>)
    ensures CountsMatch(Tally(signs), signs)
    decreases |signs|
  {
    if |signs| > 0 {
      var prefix := signs[..|signs| - 1];
      var cs := signs[|signs| - 1];
      TallyCounts(prefix);
      assert signs == prefix + [cs];
      CountsSnoc(Tally(prefix), prefix, cs, Tally(signs));
    }
  }

  /** The session's counters are the tally of the accepted call signs. */
  lemma {:induction false} FeedTally(dir: Directory, events: seq<Event>)
    ensures Feed(dir, events).Running? ==> Feed(dir, events).state.counts == Tally(Signs(Known(dir, events)))
    decreases |events|
  {
    if |events| > 0 {
      var prefix := events[..|events| - 1];
      var e := events[|events| - 1];
      var p := Feed(dir, prefix);
      assert Feed(dir, events) == Step(dir, p, e);
      if p.Running? {
        FeedTally(dir, prefix);
        FeedCurrent(dir, prefix);
        SignsAppend(dir, events);
        var before := Signs(Known(dir, prefix));
        if e.callSign in dir {
          var signs := before + [e.callSign];
          assert signs[..|signs| - 1] == before;
        }
      }
    }
  }

  /** `nchan` has a counter exactly for the channels of accepted events,
      and it holds that channel's events plus the blocks opened for it. */
  lemma FeedCounts(dir: Directory, events: seq<Event>)
    ensures Feed(dir, events).Running? ==> CountsMatch(Feed(dir, events).state.counts, Signs(Known(dir, events)))
  {
    FeedTally(dir, events);
    TallyCounts(Signs(Known(dir, events)));
  }

  /** The closing actions never contain `PUTE` and contain one `c`. */
  lemma FarewellCounts()
    ensures CountOf(Farewell, Send(["PUTE"])) == 0 && CountOf(Farewell, Send(["c"])) == 1
  {
    assert Farewell == [Send(["c"]), Send(["."]), Expect(ActionOk), Send(["QUIT"]), Expect(ServiceClosing)];
  }

  /** A finished run sends `PUTE` once per block opened, and `c` once per
      channel change plus the unconditional one at the end. */
  lemma LoadBlocks(dir: Directory, events: seq<Event>)
    ensures var r := Load(dir, events);
            var signs := Signs(Known(dir, events));
            r.Finished? ==>
              && CountOf(r.trace, Send(["PUTE"])) == OpenCount(signs)
              && CountOf(r.trace, Send(["c"])) == CloseCount(signs) + 1
  {
    FeedBlocks(dir, events);
    FarewellCounts();
    if Feed(dir, events).Running? {
      var t := Feed(dir, events).state.trace;
      CountAppend(t, Farewell, Send(["PUTE"]));
      CountAppend(t, Farewell, Send(["c"]));
    }
  }

  /** With no empty call sign, a finished run that accepted an event closes
      every block it opens, one block per run of same-channel events; one
      that accepted none still sends a lone `c`. */
  lemma LoadBalanced(dir: Directory, events: seq<Event>)
    requires forall k :: k in dir ==> k != ""
    ensures var r := Load(dir, events);
            var signs := Signs(Known(dir, events));
            r.Finished? ==>
              && (|signs| > 0 ==> CountOf(r.trace, Send(["c"])) == CountOf(r.trace, Send(["PUTE"])) == Runs(signs))
              && (|signs| == 0 ==> CountOf(r.trace, Send(["c"])) == 1 && CountOf(r.trace, Send(["PUTE"])) == 0)
  {
    LoadBlocks(dir, events);
    var signs := Signs(Known(dir, events));
    BlocksAreRuns(signs);
  }

  /** The lines of every write of more than one line, in order: the event
      writes, as opposed to the one-line commands. */
  function Writes(t: seq<Action>): seq<seq<string>>
    decreases |t|
  {
    if |t| == 0 then []
    else
      var last := t[|t| - 1];
      Writes(t[..|t| - 1]) + if last.Send? && |last.lines| > 1 then [last.lines] else []
  }

  lemma {:induction false} WritesAppend(a: seq<Action>, b: seq<Action>)
    ensures Writes(a + b) == Writes(a) + Writes(b)
    decreases |b|
  {
    if |b| > 0 {
      var ab := a + b;
      assert ab[..|ab| - 1] == a + b[..|b| - 1];
      WritesAppend(a, b[..|b| - 1]);
    } else {
      assert a + b == a;
    }
  }

  /** The reference for the event writes: for each accepted event in turn,
      its body, headed by the `C` line when its channel differs from the
      previous event's. */
  function EventWrites(dir: Directory, ks: seq<Event>): seq<seq<string>>
    requires forall i :: 0 <= i < |ks| ==> ks[i].callSign in dir
    decreases |ks|
  {
    if |ks| == 0 then []
    else
      var prefix := ks[..|ks| - 1];
      var e := ks[|ks| - 1];
      match Times(e)
      case None => EventWrites(dir, prefix)
      case Some((start, stop)) =>
        var header := if Opens(LastSign(Signs(prefix)), e.callSign) then [HeaderLine(dir, e.callSign)] else [];
        EventWrites(dir, prefix) + [header + Body(e, start, stop)]
  }

  /** A trace of reply waits and one-line commands holds no event write. */
  lemma {:induction false} NoWrites(t: seq<Action>)
    requires forall i :: 0 <= i < |t| ==> t[i].Expect? || |t[i].lines| == 1
    ensures Writes(t) == []
    decreases |t|
  {
    if |t| > 0 {
      NoWrites(t[..|t| - 1]);
    }
  }

  lemma OneLinersNoWrites()
    ensures Writes(Greeting) == [] && Writes(CloseBlock) == [] && Writes(OpenBlock) == []
  {
    NoWrites(Greeting);
    NoWrites(CloseBlock);
    NoWrites(OpenBlock);
  }

  lemma AcceptWrites(dir: Directory, s: State, e: Event)
    requires e.callSign in dir && Accept(dir, s, e).Running?
    ensures var (start, stop) := Times(e).value;
            Writes(Accept(dir, s, e).state.trace) == Writes(s.trace) + [Write(dir, s.current, e, start, stop).lines]
  {
    AcceptShape(dir, s, e);
    var t := Accept(dir, s, e).state.trace;
    HandshakeWrites(s.current, e.callSign);
    LastWrite(s.trace, Handshake(s.current, e.callSign), t);
  }

  lemma HandshakeWrites(current: string, callSign: string)
    ensures Writes(Handshake(current, callSign)) == []
  {
    OneLinersNoWrites();
    WritesAppend(if Closes(current, callSign) then CloseBlock else [], if Opens(current, callSign) then OpenBlock else []);
  }

  lemma LastWrite(before: seq<Action>, h: seq<Action>, t: seq<Action>)
    requires |t| > 0 && t[..|t| - 1] == before + h && t[|t| - 1].Send? && |t[|t| - 1].lines| >= 6
    requires Writes(h) == []
    ensures Writes(t) == Writes(before) + [t[|t| - 1].lines]
  {
    WritesAppend(before, h);
  }

  /** The event writes of a running session are exactly the reference
      writes of the accepted events: one per event, in queue order, the
      `C` line travelling in the same write as the first event of a
      block. */
  lemma {:induction false} FeedWrites(dir: Directory, events: seq<Event>)
    ensures Feed(dir, events).Running? ==> Writes(Feed(dir, events).state.trace) == EventWrites(dir, Known(dir, events))
    decreases |events|
  {
    if |events| == 0 {
      OneLinersNoWrites();
    } else {
      var prefix := events[..|events| - 1];
      var e := events[|events| - 1];
      var p := Feed(dir, prefix);
      assert Feed(dir, events) == Step(dir, p, e);
      if p.Running? && e.callSign in dir && Accept(dir, p.state, e).Running? {
        FeedWrites(dir, prefix);
        FeedCurrent(dir, prefix);
        AcceptWrites(dir, p.state, e);
        var ks := Known(dir, events);
        assert ks[..|ks| - 1] == Known(dir, prefix) && ks[|ks| - 1] == e;
      } else if p.Running? {
        FeedWrites(dir, prefix);
      }
    }
  }
}
