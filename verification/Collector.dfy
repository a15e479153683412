/** The output of a running command: the live batches, their numbers, and the
    copy retained for the result. A reader, a ticker and, at the end, the
    executor share one collector. */
module Collector {
  import opened Text

  datatype Config = Config(streaming: bool, hasSink: bool,
                           flushEvery: int, flushLines: nat, keepaliveEvery: int, maxBytes: nat)
  {
    /** What `newOutputCollector` sets up: streaming needs a sink, and the thresholds are positive. */
    predicate Valid() {
      (streaming ==> hasSink) && flushLines > 0 && flushEvery > 0 && keepaliveEvery > 0 && maxBytes > 0
    }
  }

  // ---- the retained copy ----

  const NOTICE := "[runner] output truncated: " + ("exceeded the retained-output cap" + "\n")

  datatype Retained = Retained(text: string, truncated: bool)

  function Line(s: string): string { s + [NL] }

  function Retain(r: Retained, line: string, maxBytes: nat): Retained {
    if |r.text| + |line| + 1 <= maxBytes then r.(text := r.text + Line(line))
    else if !r.truncated then Retained(r.text + NOTICE, true)
    else r
  }

  function RetainAll(lines: seq<string>, maxBytes: nat): Retained {
    if lines == [] then Retained("", false)
    else Retain(RetainAll(lines[..|lines| - 1], maxBytes), lines[|lines| - 1], maxBytes)
  }

  function AllText(lines: seq<string>): string { FlatMap(lines, Line) }

  // ---- the collector's atomic sections ----

  datatype State = State(retained: Retained, pending: seq<string>, lastFlush: int, lastContact: int, batches: nat)

  function Start(now: int): State { State(Retained("", false), [], now, now, 0) }

  /** `add`, up to the unlock: whether a flush is due. */
  function Added(cfg: Config, s: State, line: string, now: int): (State, bool) {
    var t := s.(retained := Retain(s.retained, line, cfg.maxBytes),
                pending := if cfg.streaming then s.pending + [line] else s.pending);
    (t, cfg.streaming && (|t.pending| >= cfg.flushLines || now - t.lastFlush >= cfg.flushEvery))
  }

  /** `flush`, up to the unlock: the batch to send, if there is one. */
  function Taken(cfg: Config, s: State, now: int): (State, seq<string>) {
    if !cfg.streaming || s.pending == [] then (s, [])
    else (State(s.retained, [], now, now, s.batches + 1), s.pending)
  }

  /** `keepalive`, up to the unlock: whether to send one. */
  function Pinged(cfg: Config, s: State, now: int): (State, bool) {
    var quiet := cfg.hasSink && s.pending == [] && now - s.lastContact >= cfg.keepaliveEvery;
    (if quiet then s.(lastContact := now) else s, quiet)
  }

  class OutputCollector {
    const cfg: Config
    var text: string
    var truncated: bool
    var pending: seq<string>
    var lastFlush: int
    var lastContact: int
    var batches: nat

    ghost function Value(): State
      reads this
    {
      State(Retained(text, truncated), pending, lastFlush, lastContact, batches)
    }

    constructor (cfg: Config, now: int)
      ensures this.cfg == cfg && Value() == Start(now)
    {
      this.cfg := cfg;
      text, truncated, pending, batches := "", false, [], 0;
      lastFlush, lastContact := now, now;
    }

    method Add(line: string, now: int) returns (due: bool)
      modifies this
      ensures (Value(), due) == Added(cfg, old(Value()), line, now)
      ensures old(text) <= text && (due ==> |pending| > 0)
    {
      if |text| + |line| + 1 <= cfg.maxBytes {
        text := text + Line(line);
      } else if !truncated {
        truncated := true;
        text := text + NOTICE;
      }
      if cfg.streaming {
        pending := pending + [line];
      }
      due := cfg.streaming && (|pending| >= cfg.flushLines || now - lastFlush >= cfg.flushEvery);
    }

    method Take(now: int) returns (batch: seq<string>)
      modifies this
      ensures (Value(), batch) == Taken(cfg, old(Value()), now)
      ensures batch + pending == old(pending) && (cfg.streaming ==> pending == [])
    {
      if !cfg.streaming || |pending| == 0 { return []; }
      batch := pending;
      pending := [];
      lastFlush, lastContact := now, now;
      batches := batches + 1;
    }

    method Keepalive(now: int) returns (quiet: bool)
      modifies this
      ensures (Value(), quiet) == Pinged(cfg, old(Value()), now)
      ensures cfg.hasSink && pending == [] ==> now - lastContact < cfg.keepaliveEvery || lastContact == now
    {
      quiet := cfg.hasSink && |pending| == 0 && now - lastContact >= cfg.keepaliveEvery;
      if quiet {
        lastContact := now;
      }
    }
  }

  // ---- the sink ----

  /** One request to the panel. An empty one is a keepalive. `delivered` is its outcome. */
  datatype Message = Message(seqno: nat, lines: seq<string>, delivered: bool)

  predicate IsBatch(m: Message) { m.lines != [] }

  // ---- every interleaving ----

  /** What the thread that adds and flushes is about to do: read on, flush, call
      the sink with a batch it has taken, count the number the sink has read for
      it, or send it. */
  datatype Writer =
    | Reading
    | Due
    | Holding(batch: seq<string>)
    | Building(batch: seq<string>, number: nat)
    | Shipping(batch: seq<string>, number: nat)

  /** The keepalive thread: waiting for its tick, calling the sink, or sending the number it has read. */
  datatype Ticker = Waiting | Pinging | Carrying(number: nat)

  /** `next` is the sink's counter, which both threads use without a lock.
      `consumed` is the output read so far; `result` is `Result.Seq` once it is set. */
  datatype Sys = Sys(collector: State, writer: Writer, ticker: Ticker, eof: bool,
                     next: nat, sent: seq<Message>, consumed: seq<string>, result: Option<nat>)

  datatype Event =
    | Read(line: string, now: int)
    | EndOfOutput
    | Flush(now: int)
    | Number
    | Count
    | Send(delivered: bool)
    | Tick(now: int)
    | Stamp
    | Ping(delivered: bool)
    | Finish

  function Init(now: int): Sys { Sys(Start(now), Reading, Waiting, false, 0, [], [], None) }

  /** One atomic section, one access to the counter or one request. An event that is not possible changes nothing. */
  function Step(cfg: Config, y: Sys, e: Event): Sys {
    match e
    case Read(line, now) =>
      if y.writer != Reading || y.eof then y
      else
        var (c, due) := Added(cfg, y.collector, line, now);
        y.(collector := c, writer := if due then Due else Reading, consumed := y.consumed + [line])
    case EndOfOutput =>
      if y.writer != Reading || y.eof then y else y.(eof := true, writer := Due)
    case Flush(now) =>
      if y.writer != Due then y
      else
        var (c, batch) := Taken(cfg, y.collector, now);
        y.(collector := c, writer := if batch == [] then Reading else Holding(batch))
    case Number =>
      if !y.writer.Holding? then y else y.(writer := Building(y.writer.batch, y.next))
    case Count =>
      if !y.writer.Building? then y else y.(next := y.next + 1, writer := Shipping(y.writer.batch, y.writer.number))
    case Send(delivered) =>
      if !y.writer.Shipping? then y
      else y.(writer := Reading, sent := y.sent + [Message(y.writer.number, y.writer.batch, delivered)])
    case Tick(now) =>
      if y.ticker != Waiting then y
      else
        var (c, quiet) := Pinged(cfg, y.collector, now);
        y.(collector := c, ticker := if quiet then Pinging else Waiting)
    case Stamp =>
      if y.ticker != Pinging then y else y.(ticker := Carrying(y.next))
    case Ping(delivered) =>
      if !y.ticker.Carrying? then y
      else y.(ticker := Waiting, sent := y.sent + [Message(y.ticker.number, [], delivered)])
    case Finish =>
      if y.writer != Reading || !y.eof || y.result != None then y else y.(result := Some(y.collector.batches))
  }

  function Run(cfg: Config, now: int, events: seq<Event>): Sys {
    if events == [] then Init(now) else Step(cfg, Run(cfg, now, events[..|events| - 1]), events[|events| - 1])
  }

  function LinesOf(m: Message): seq<string> { m.lines }

  /** The lines of the messages, in order. Keepalives carry none. */
  function Shipped(sent: seq<Message>): seq<string> { FlatMap(sent, LinesOf) }

  /** The requests that carry output. */
  function Batches(sent: seq<Message>): seq<Message> {
    if sent == [] then []
    else Batches(sent[..|sent| - 1]) + if IsBatch(sent[|sent| - 1]) then [sent[|sent| - 1]] else []
  }

  /** The batches are numbered 0, 1, 2, ... in the order they are sent. */
  ghost predicate Numbered(sent: seq<Message>) {
    forall k :: 0 <= k < |Batches(sent)| ==> Batches(sent)[k].seqno == k
  }

  /** A keepalive never carries a number beyond the one after the next batch's. */
  ghost predicate Ahead(sent: seq<Message>) {
    forall i :: 0 <= i < |sent| && !IsBatch(sent[i]) ==> sent[i].seqno <= |Batches(sent[..i])| + 1
  }

  function Held(w: Writer): seq<string> { if w == Reading || w == Due then [] else w.batch }

  /** Whether a batch has been counted and not yet sent. */
  function InFlight(w: Writer): nat { if w.Shipping? then 1 else 0 }

  ghost predicate Accounted(cfg: Config, y: Sys) {
    if cfg.streaming then Shipped(y.sent) + (Held(y.writer) + y.collector.pending) == y.consumed
    else Shipped(y.sent) == [] && Held(y.writer) == [] && y.collector.pending == []
  }

  ghost predicate Counted(y: Sys) {
    && Numbered(y.sent) && Ahead(y.sent)
    && y.next == |Batches(y.sent)| + InFlight(y.writer)
    && (y.writer == Reading || y.writer == Due || y.writer.batch != [])
    && (y.writer.Building? ==> y.writer.number == y.next)
    && (y.writer.Shipping? ==> y.writer.number + 1 == y.next)
    && (y.ticker.Carrying? ==> y.ticker.number <= y.next)
    && y.collector.batches == |Batches(y.sent)| + if Held(y.writer) == [] then 0 else 1
  }

  /** At most a full batch is ever waiting, and less than one while the reader reads. */
  ghost predicate Bounded(cfg: Config, y: Sys) {
    && |y.collector.pending| <= cfg.flushLines && |Held(y.writer)| <= cfg.flushLines
    && (y.writer == Reading && !y.eof ==> |y.collector.pending| < cfg.flushLines)
    && (y.writer != Due && (y.writer != Reading || y.eof) ==> y.collector.pending == [])
    && forall i :: 0 <= i < |y.sent| ==> |y.sent[i].lines| <= cfg.flushLines
  }

  ghost predicate Closed(y: Sys) {
    y.result != None ==> y.eof && y.writer == Reading && y.result == Some(y.collector.batches)
  }

  lemma BatchesGrow(sent: seq<Message>, m: Message)
    ensures Batches(sent + [m]) == Batches(sent) + if IsBatch(m) then [m] else []
  {
    assert (sent + [m])[..|sent|] == sent;
  }

  lemma BatchSent(sent: seq<Message>, m: Message)
    requires Numbered(sent) && Ahead(sent) && IsBatch(m) && m.seqno == |Batches(sent)|
    ensures Numbered(sent + [m]) && Ahead(sent + [m])
  {
    BatchesGrow(sent, m);
    AheadGrow(sent, m);
  }

  lemma KeepaliveSent(sent: seq<Message>, m: Message)
    requires Numbered(sent) && Ahead(sent) && !IsBatch(m) && m.seqno <= |Batches(sent)| + 1
    ensures Numbered(sent + [m]) && Ahead(sent + [m]) && Batches(sent + [m]) == Batches(sent)
  {
    BatchesGrow(sent, m);
    AheadGrow(sent, m);
  }

  lemma AheadGrow(sent: seq<Message>, m: Message)
    requires Ahead(sent) && (IsBatch(m) || m.seqno <= |Batches(sent)| + 1)
    ensures Ahead(sent + [m])
  {
    var more := sent + [m];
    forall i | 0 <= i < |more| && !IsBatch(more[i]) ensures more[i].seqno <= |Batches(more[..i])| + 1 {
      assert more[..i] == sent[..i];
      if i == |sent| { assert sent[..i] == sent; }
    }
  }

  lemma SendCounts(cfg: Config, y: Sys, delivered: bool)
    requires Counted(y) && y.writer.Shipping?
    ensures Counted(Step(cfg, y, Send(delivered)))
  {
    var m := Message(y.writer.number, y.writer.batch, delivered);
    BatchSent(y.sent, m);
    BatchesGrow(y.sent, m);
  }

  lemma PingCounts(cfg: Config, y: Sys, delivered: bool)
    requires Counted(y) && y.ticker.Carrying?
    ensures Counted(Step(cfg, y, Ping(delivered)))
  {
    var m := Message(y.ticker.number, [], delivered);
    var sent := y.sent + [m];
    KeepaliveSent(y.sent, m);
    assert Step(cfg, y, Ping(delivered)) == y.(ticker := Waiting, sent := sent);
  }

  lemma StepCounts(cfg: Config, y: Sys, e: Event)
    requires Counted(y)
    ensures Counted(Step(cfg, y, e))
  {
    match e
    case Send(delivered) => if y.writer.Shipping? { SendCounts(cfg, y, delivered); }
    case Ping(delivered) => if y.ticker.Carrying? { PingCounts(cfg, y, delivered); }
    case _ =>
  }

  lemma StepAccounts(cfg: Config, y: Sys, e: Event)
    requires Accounted(cfg, y) && Bounded(cfg, y)
    ensures Accounted(cfg, Step(cfg, y, e))
  {
    match e
    case Read(line, now) =>
      if y.writer == Reading && !y.eof { AddAccounts(Shipped(y.sent), y.collector.pending, line); }
    case Flush(now) => TakeAccounts(Shipped(y.sent), y.collector.pending);
    case Send(delivered) =>
      if y.writer.Shipping? {
        FlatMapGrow(y.sent, Message(y.writer.number, y.writer.batch, delivered), LinesOf);
        SendAccounts(Shipped(y.sent), y.writer.batch, y.collector.pending);
      }
    case Ping(delivered) =>
      if y.ticker.Carrying? {
        FlatMapGrow(y.sent, Message(y.ticker.number, [], delivered), LinesOf);
        assert Shipped(y.sent) + [] == Shipped(y.sent);
      }
    case _ =>
  }

  lemma AddAccounts(shipped: seq<string>, pending: seq<string>, line: string)
    ensures shipped + ([] + (pending + [line])) == shipped + ([] + pending) + [line]
  {
  }

  lemma TakeAccounts(shipped: seq<string>, pending: seq<string>)
    ensures shipped + (pending + []) == shipped + ([] + pending)
  {
  }

  lemma SendAccounts(shipped: seq<string>, batch: seq<string>, pending: seq<string>)
    ensures shipped + batch + ([] + pending) == shipped + (batch + pending)
    ensures batch == [] ==> shipped + batch == shipped
  {
  }

  lemma StepBounds(cfg: Config, y: Sys, e: Event)
    requires cfg.Valid() && Bounded(cfg, y) && (!cfg.streaming ==> y.collector.pending == [])
    ensures Bounded(cfg, Step(cfg, y, e))
  {
  }

  lemma StepCloses(cfg: Config, y: Sys, e: Event)
    requires Closed(y)
    ensures Closed(Step(cfg, y, e))
  {
  }

  ghost predicate Kept(cfg: Config, y: Sys) { Accounted(cfg, y) && Counted(y) && Bounded(cfg, y) && Closed(y) }

  lemma StepKeeps(cfg: Config, y: Sys, e: Event)
    requires cfg.Valid() && Kept(cfg, y)
    ensures Kept(cfg, Step(cfg, y, e))
  {
    StepAccounts(cfg, y, e);
    StepCounts(cfg, y, e);
    StepBounds(cfg, y, e);
    StepCloses(cfg, y, e);
  }

  lemma {:induction false} RunKeeps(cfg: Config, now: int, events: seq<Event>)
    requires cfg.Valid()
    ensures Kept(cfg, Run(cfg, now, events))
  {
    if events != [] {
      var before := events[..|events| - 1];
      RunKeeps(cfg, now, before);
      StepKeeps(cfg, Run(cfg, now, before), events[|events| - 1]);
    }
  }

  /** In stream mode, once the result is set, the batches put end to end are
      exactly the output read, whatever was interleaved and whichever requests
      failed, and `Result.Seq` is how many there were. */
  lemma StreamsEverything(cfg: Config, now: int, events: seq<Event>)
    requires cfg.Valid() && cfg.streaming && Run(cfg, now, events).result != None
    ensures var y := Run(cfg, now, events);
      Shipped(y.sent) == y.consumed && y.result == Some(|Batches(y.sent)|)
  {
    RunKeeps(cfg, now, events);
    var y := Run(cfg, now, events);
    assert Shipped(y.sent) + ([] + []) == Shipped(y.sent);
  }

  /** At every moment the batches are numbered 0, 1, 2, ... without a gap or a
      repetition, no request carries more than a full batch, and what is not yet
      sent is at most one full batch. */
  lemma NumbersAndLag(cfg: Config, now: int, events: seq<Event>)
    requires cfg.Valid()
    ensures var y := Run(cfg, now, events);
      && Numbered(y.sent) && Ahead(y.sent)
      && (forall i :: 0 <= i < |y.sent| ==> |y.sent[i].lines| <= cfg.flushLines)
      && (cfg.streaming ==> Shipped(y.sent) <= y.consumed && |y.consumed| - |Shipped(y.sent)| <= cfg.flushLines)
      && (!cfg.streaming ==> Shipped(y.sent) == [])
  {
    RunKeeps(cfg, now, events);
  }

  // ---- the number a keepalive carries ----

  lemma RunThen(cfg: Config, now: int, events: seq<Event>, e: Event)
    ensures Run(cfg, now, events + [e]) == Step(cfg, Run(cfg, now, events), e)
  {
    assert (events + [e])[..|events|] == events;
  }

  lemma {:induction false} CarriesOn(cfg: Config, now: int, before: seq<Event>, between: seq<Event>)
    requires Run(cfg, now, before).ticker.Carrying?
    requires forall i :: 0 <= i < |between| ==> !between[i].Ping?
    ensures Run(cfg, now, before + between).ticker == Run(cfg, now, before).ticker
  {
    if between == [] {
      assert before + between == before;
    } else {
      var rest, last := between[..|between| - 1], between[|between| - 1];
      CarriesOn(cfg, now, before, rest);
      RunThen(cfg, now, before + rest, last);
      assert before + between == before + rest + [last];
      assert !last.Ping?;
    }
  }

  /** A keepalive carries the number of batches sent when it read the counter,
      plus one if a batch was then counted and not yet sent. So it has the next
      batch's number if and only if the batches sent since then are exactly the
      one that was in flight, if any. */
  lemma KeepaliveNumber(cfg: Config, now: int, before: seq<Event>, between: seq<Event>, delivered: bool)
    requires cfg.Valid() && Run(cfg, now, before).ticker == Pinging
    requires forall i :: 0 <= i < |between| ==> !between[i].Ping?
    ensures var y, z := Run(cfg, now, before), Run(cfg, now, before + [Stamp] + between);
      var number := |Batches(y.sent)| + InFlight(y.writer);
      && Step(cfg, z, Ping(delivered)).sent == z.sent + [Message(number, [], delivered)]
      && (number == |Batches(z.sent)| <==> |Batches(z.sent)| - |Batches(y.sent)| == InFlight(y.writer))
  {
    NextIs(cfg, now, before);
    RunThen(cfg, now, before, Stamp);
    CarriesOn(cfg, now, before + [Stamp], between);
    PingSends(cfg, Run(cfg, now, before + [Stamp] + between), delivered);
  }

  lemma NextIs(cfg: Config, now: int, events: seq<Event>)
    requires cfg.Valid()
    ensures var y := Run(cfg, now, events); y.next == |Batches(y.sent)| + InFlight(y.writer)
  {
    RunKeeps(cfg, now, events);
  }

  lemma PingSends(cfg: Config, z: Sys, delivered: bool)
    requires z.ticker.Carrying?
    ensures Step(cfg, z, Ping(delivered)).sent == z.sent + [Message(z.ticker.number, [], delivered)]
  {
  }

  /** One line per batch, and a keepalive after one unit of silence. */
  const EAGER := Config(true, true, 1, 1, 1, 100)

  /** The first batch has been read, flushed and given its number, all at time 0. */
  lemma NumberedFirst() returns (events: seq<Event>)
    ensures Run(EAGER, 0, events) ==
      Sys(State(Retained("a\n", false), [], 0, 0, 1), Building(["a"], 0), Waiting, false, 0, [], ["a"], None)
  {
    events := [Read("a", 0)];
    var read := Sys(State(Retained("a\n", false), ["a"], 0, 0, 0), Due, Waiting, false, 0, [], ["a"], None);
    FirstRead(events, read);
    RunThen(EAGER, 0, events, Flush(0));
    events := events + [Flush(0)];
    var emptied := State(Retained("a\n", false), [], 0, 0, 1);
    assert Run(EAGER, 0, events) == read.(collector := emptied, writer := Holding(["a"]));
    RunThen(EAGER, 0, events, Number);
    events := events + [Number];
  }

  lemma FirstRead(events: seq<Event>, read: Sys)
    requires events == [Read("a", 0)]
    requires read == Sys(State(Retained("a\n", false), ["a"], 0, 0, 0), Due, Waiting, false, 0, [], ["a"], None)
    ensures Run(EAGER, 0, events) == read
  {
    assert events[..0] == [];
    assert Retain(Retained("", false), "a", 100) == Retained("a\n", false);
    assert Step(EAGER, Init(0), Read("a", 0)) == read;
  }

  /** The first batch is counted, its request is slow, and a keepalive overtakes
      it with the number of the second: the panel sees 1 before 0. */
  lemma KeepaliveOvertakes() returns (events: seq<Event>)
    ensures Run(EAGER, 0, events).sent == [Message(1, [], true), Message(0, ["a"], true)]
  {
    events := NumberedFirst();
    events := AndThen(EAGER, 0, events, [Count, Tick(1), Stamp, Ping(true), Send(true)]);
  }

  /** A keepalive reads the counter before the first batch counts and is sent
      after it, with the number the batch already used. */
  lemma KeepaliveLags() returns (events: seq<Event>)
    ensures Run(EAGER, 0, events).sent == [Message(0, ["a"], true), Message(0, [], true)]
  {
    events := NumberedFirst();
    events := AndThen(EAGER, 0, events, [Tick(1), Stamp, Count, Send(true), Ping(true)]);
  }

  /** A run continued by five events. */
  lemma AndThen(cfg: Config, now: int, events: seq<Event>, five: seq<Event>) returns (all: seq<Event>)
    requires |five| == 5
    ensures var y := Run(cfg, now, events);
      Run(cfg, now, all) ==
        Step(cfg, Step(cfg, Step(cfg, Step(cfg, Step(cfg, y, five[0]), five[1]), five[2]), five[3]), five[4])
  {
    RunThen(cfg, now, events, five[0]);
    RunThen(cfg, now, events + [five[0]], five[1]);
    RunThen(cfg, now, events + [five[0]] + [five[1]], five[2]);
    RunThen(cfg, now, events + [five[0]] + [five[1]] + [five[2]], five[3]);
    RunThen(cfg, now, events + [five[0]] + [five[1]] + [five[2]] + [five[3]], five[4]);
    all := events + [five[0]] + [five[1]] + [five[2]] + [five[3]] + [five[4]];
  }

  // ---- the retained copy, over a run ----

  lemma {:induction false} RunRetains(cfg: Config, now: int, events: seq<Event>)
    ensures var y := Run(cfg, now, events); y.collector.retained == RetainAll(y.consumed, cfg.maxBytes)
  {
    if events != [] {
      var before := events[..|events| - 1];
      RunRetains(cfg, now, before);
      var y := Run(cfg, now, before);
      match events[|events| - 1]
      case Read(line, at) => assert (y.consumed + [line])[..|y.consumed|] == y.consumed;
      case _ =>
    }
  }

  lemma {:induction false} RetainedIs(lines: seq<string>, maxBytes: nat)
    ensures var r := RetainAll(lines, maxBytes);
      && (r.truncated <==> |AllText(lines)| > maxBytes)
      && (!r.truncated ==> r.text == AllText(lines))
      && |r.text| <= maxBytes + |NOTICE|
  {
    if lines != [] {
      var before, last := lines[..|lines| - 1], lines[|lines| - 1];
      RetainedIs(before, maxBytes);
      assert lines == before + [last];
      FlatMapGrow(before, last, Line);
      RetainStep(RetainAll(before, maxBytes), AllText(before), last, maxBytes);
    }
  }

  lemma RetainStep(r: Retained, all: string, line: string, maxBytes: nat)
    requires (r.truncated <==> |all| > maxBytes) && (!r.truncated ==> r.text == all) && |r.text| <= maxBytes + |NOTICE|
    ensures var s := Retain(r, line, maxBytes);
      && (s.truncated <==> |all + Line(line)| > maxBytes)
      && (!s.truncated ==> s.text == all + Line(line))
      && |s.text| <= maxBytes + |NOTICE|
  {
  }

  /** The result's output is the whole output, unless that exceeds the cap, and
      then the result says so; it is never longer than the cap and the notice. */
  lemma OutputIsWhole(cfg: Config, now: int, events: seq<Event>)
    ensures var y := Run(cfg, now, events);
      var r := y.collector.retained;
      && (r.truncated <==> |AllText(y.consumed)| > cfg.maxBytes)
      && (!r.truncated ==> r.text == AllText(y.consumed))
      && |r.text| <= cfg.maxBytes + |NOTICE|
  {
    RunRetains(cfg, now, events);
    RetainedIs(Run(cfg, now, events).consumed, cfg.maxBytes);
  }
}
