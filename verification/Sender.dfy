/** The agent's report sender: one attempt per report, a bounded buffer on disk
    for what could not be sent, and an ordered drain once the intake is back. */
module Sender {
  import opened Text
  import opened BufferNames
  import opened Listing

  // ---- the buffer directory ----

  /** `id` is the report's place in the order of submission; nothing reads it. */
  datatype Report = Report(id: nat, body: string)

  type Disk = map<Name, Report>

  datatype Ack = Ack(report: Report, buffered: bool)

  /** Where reports ended up: at the intake, trimmed from the buffer, or never written to it. */
  datatype History = History(acked: seq<Ack>, trimmed: seq<Report>, lost: seq<Report>)

  datatype State = State(disk: Disk, counter: nat, backoff: int, notBefore: Option<int>, history: History)

  datatype Config = Config(maxFiles: nat, initial: int, max: int, factor: real)

  /** The clock readings and the outcome of every fallible step of one call. */
  datatype World = World(
    now: int,
    pushedAt: int,
    failedAt: int,
    sendOk: bool,
    dirOk: bool,
    writeOk: bool,
    listOk: bool,
    readable: Name -> bool,
    flushOk: Name -> bool,
    removable: Name -> bool)

  /** The buffered files, oldest first. */
  ghost function Files(disk: Disk): seq<Name> {
    BeforeIsTotal();
    Listed(disk.Keys, Before)
  }

  // ---- what each operation does ----

  function Trunc(x: real): int { if x >= 0.0 then x.Floor else -(-x).Floor }

  /** `BackoffPolicy.next`. */
  function NextBackoff(cfg: Config, current: int): (next: int)
    ensures next <= cfg.max
  {
    var next := Trunc((if current <= 0 then cfg.initial else current) as real * cfg.factor);
    if next > cfg.max then cfg.max else next
  }

  function Failed(cfg: Config, s: State, at: int): State {
    var wait := NextBackoff(cfg, s.backoff);
    s.(backoff := wait, notBefore := Some(at + wait))
  }

  function Lost(s: State, r: Report): State {
    s.(history := s.history.(lost := s.history.lost + [r]))
  }

  function RemoveOne(s: State, n: Name, removable: Name -> bool): State {
    if n !in s.disk || !removable(n) then s
    else s.(disk := s.disk - {n}, history := s.history.(trimmed := s.history.trimmed + [s.disk[n]]))
  }

  function RemoveAll(s: State, names: seq<Name>, removable: Name -> bool): State {
    if names == [] then s
    else RemoveOne(RemoveAll(s, names[..|names| - 1], removable), names[|names| - 1], removable)
  }

  ghost function Trimmed(cfg: Config, s: State, w: World): State {
    var names := Files(s.disk);
    if !w.listOk || |names| <= cfg.maxFiles then s else RemoveAll(s, names[..|names| - cfg.maxFiles], w.removable)
  }

  function Written(s: State, r: Report, at: int): State {
    s.(counter := s.counter + 1, disk := s.disk[Name(at, s.counter + 1) := r])
  }

  ghost function Pushed(cfg: Config, s: State, r: Report, w: World): State {
    if !w.dirOk then Lost(s, r)
    else
      if !w.writeOk then Lost(s.(counter := s.counter + 1), r)
      else Trimmed(cfg, Written(s, r, w.pushedAt), w)
  }

  function Resent(s: State, n: Name, removable: Name -> bool): State
    requires n in s.disk
  {
    s.(disk := if removable(n) then s.disk - {n} else s.disk,
       history := s.history.(acked := s.history.acked + [Ack(s.disk[n], true)]))
  }

  /** Oldest first, stopping at the first failure; a file that cannot be read is passed over. */
  function Drained(cfg: Config, s: State, names: seq<Name>, w: World): State
    decreases |names|
  {
    if names == [] then s
    else if names[0] !in s.disk || !w.readable(names[0]) then Drained(cfg, s, names[1..], w)
    else if !w.flushOk(names[0]) then Failed(cfg, s, w.failedAt)
    else Drained(cfg, Resent(s, names[0], w.removable), names[1..], w)
  }

  ghost function Flushed(cfg: Config, s: State, w: World): State {
    if w.listOk then Drained(cfg, s, Files(s.disk), w) else s
  }

  predicate InBackoff(s: State, now: int) { s.notBefore != None && now < s.notBefore.value }

  function Sent(s: State, r: Report): State {
    s.(backoff := 0, notBefore := None, history := s.history.(acked := s.history.acked + [Ack(r, false)]))
  }

  ghost function Submitted(cfg: Config, s: State, r: Report, w: World): State {
    if InBackoff(s, w.now) then Pushed(cfg, s, r, w)
    else if !w.sendOk then Failed(cfg, Pushed(cfg, s, r, w), w.failedAt)
    else Flushed(cfg, Sent(s, r), w)
  }

  const EMPTY := State(map[], 0, 0, None, History([], [], []))

  // ---- the code ----

  class ReportSender {
    const cfg: Config
    var disk: Disk
    var counter: nat
    var backoff: int
    var notBefore: Option<int>
    ghost var history: History

    ghost function Value(): State
      reads this
    {
      State(disk, counter, backoff, notBefore, history)
    }

    constructor (cfg: Config)
      ensures this.cfg == cfg && Value() == EMPTY
    {
      this.cfg := cfg;
      disk, counter, backoff, notBefore, history := map[], 0, 0, None, History([], [], []);
    }

    /** `DiskBuffer.Pending`. */
    method Pending() returns (names: seq<Name>)
      ensures names == Files(disk)
    {
      BeforeIsTotal();
      names := SortSet(disk.Keys, Before);
    }

    /** `DiskBuffer.trim`. */
    method Trim(w: World)
      modifies this
      ensures Value() == Trimmed(cfg, old(Value()), w)
    {
      if !w.listOk { return; }
      var pending := Pending();
      if |pending| <= cfg.maxFiles { return; }
      RemoveOldest(pending, |pending| - cfg.maxFiles, w.removable);
    }

    method RemoveOldest(names: seq<Name>, excess: nat, removable: Name -> bool)
      requires excess <= |names|
      modifies this
      ensures Value() == RemoveAll(old(Value()), names[..excess], removable)
    {
      for i := 0 to excess
        invariant Value() == RemoveAll(old(Value()), names[..i], removable)
      {
        assert names[..i + 1][..i] == names[..i];
        Remove(names[i], removable);
      }
    }

    method Remove(n: Name, removable: Name -> bool)
      modifies this
      ensures Value() == RemoveOne(old(Value()), n, removable)
    {
      if n in disk && removable(n) {
        history := history.(trimmed := history.trimmed + [disk[n]]);
        disk := disk - {n};
      }
    }

    /** `DiskBuffer.Push`, and the report dropped when it fails. */
    method BufferOrDrop(r: Report, w: World)
      modifies this
      ensures Value() == Pushed(cfg, old(Value()), r, w)
    {
      if !w.dirOk {
        history := history.(lost := history.lost + [r]);
        return;
      }
      counter := counter + 1;
      if !w.writeOk {
        history := history.(lost := history.lost + [r]);
        return;
      }
      disk := disk[Name(w.pushedAt, counter) := r];
      Trim(w);
    }

    method RecordFailure(at: int)
      modifies this`backoff, this`notBefore
      ensures Value() == Failed(cfg, old(Value()), at)
    {
      backoff := NextBackoff(cfg, backoff);
      notBefore := Some(at + backoff);
    }

    /** `FlushBuffered`. */
    method FlushBuffered(w: World)
      modifies this
      ensures Value() == Flushed(cfg, old(Value()), w)
    {
      if !w.listOk { return; }
      var pending := Pending();
      var i := 0;
      assert pending[0..] == pending;
      while i < |pending|
        invariant i <= |pending| && Drained(cfg, Value(), pending[i..], w) == Flushed(cfg, old(Value()), w)
      {
        var n := pending[i];
        assert pending[i..][1..] == pending[i + 1..];
        if n in disk && w.readable(n) {
          if !w.flushOk(n) {
            RecordFailure(w.failedAt);
            return;
          }
          history := history.(acked := history.acked + [Ack(disk[n], true)]);
          if w.removable(n) { disk := disk - {n}; }
        }
        i := i + 1;
      }
    }

    method SendOrBuffer(r: Report, w: World)
      modifies this
      ensures Value() == Submitted(cfg, old(Value()), r, w)
    {
      if notBefore != None && w.now < notBefore.value {
        BufferOrDrop(r, w);
        return;
      }
      if !w.sendOk {
        BufferOrDrop(r, w);
        RecordFailure(w.failedAt);
        return;
      }
      backoff, notBefore := 0, None;
      history := history.(acked := history.acked + [Ack(r, false)]);
      FlushBuffered(w);
    }
  }

  // ---- whole runs ----

  /** How far a submission got when the process died: nothing reached intake or
      disk; the report was sent; it was written and `removed` files trimmed; or it
      was sent, `resent` buffered reports were resent and removed, and, if `left`,
      one more was resent and its file left behind. */
  datatype Cut = BeforeAny | AfterSend | InTrim(removed: nat) | InDrain(resent: nat, left: bool)

  /** A stop forgets the backoff and the counter, and keeps the directory. It comes
      between two submissions or within one. */
  datatype Event =
    | Submit(body: string, w: World)
    | Crash(body: string, w: World, cut: Cut, at: int)
    | Restart(at: int)

  /** `again` lists the reports resent whose files were left behind. `over` counts
      the trims cut short since the last one that was not. Nothing reads them. */
  datatype Sys = Sys(state: State, submitted: nat, clock: int, again: seq<nat>, over: nat)

  predicate Sends(s: State, w: World) { !InBackoff(s, w.now) && w.sendOk }

  predicate Writes(s: State, w: World) { !Sends(s, w) && w.dirOk && w.writeOk }

  function Stopped(s: State): State { s.(counter := 0, backoff := 0, notBefore := None) }

  ghost function Excess(cfg: Config, disk: Disk): nat {
    if |Files(disk)| > cfg.maxFiles then |Files(disk)| - cfg.maxFiles else 0
  }

  function Least(a: nat, b: nat): nat { if a < b then a else b }

  ghost function TrimCut(cfg: Config, s: State, removed: nat, w: World): State {
    RemoveAll(s, Files(s.disk)[..Least(removed, Excess(cfg, s.disk))], w.removable)
  }

  /** `Drained`, cut short. The second part is the report resent and left behind, if any. */
  function DrainCut(s: State, names: seq<Name>, w: World, resent: nat, left: bool): (State, seq<nat>)
    decreases |names|
  {
    if names == [] then (s, [])
    else if names[0] !in s.disk || !w.readable(names[0]) then DrainCut(s, names[1..], w, resent, left)
    else if !w.flushOk(names[0]) then (s, [])
    else if resent > 0 then DrainCut(Resent(s, names[0], w.removable), names[1..], w, resent - 1, left)
    else if left then (Resent(s, names[0], _ => false), [s.disk[names[0]].id])
    else (s, [])
  }

  /** What a submission cut short leaves, and the report left behind. A cut at a
      place it does not reach is one before anything. */
  ghost function Interrupted(cfg: Config, s: State, r: Report, w: World, cut: Cut): (State, seq<nat>) {
    match cut
    case BeforeAny => (Lost(s, r), [])
    case AfterSend => (if Sends(s, w) then Sent(s, r) else Lost(s, r), [])
    case InTrim(removed) =>
      (if Writes(s, w) then TrimCut(cfg, Written(s, r, w.pushedAt), removed, w) else Lost(s, r), [])
    case InDrain(resent, left) =>
      if Sends(s, w) && w.listOk then DrainCut(Sent(s, r), Files(s.disk), w, resent, left) else (Lost(s, r), [])
  }

  function Died(y: Sys, left: (State, seq<nat>), cut: Cut, at: int): Sys {
    Sys(Stopped(left.0), y.submitted + 1, at, y.again + left.1, y.over + if cut.InTrim? then 1 else 0)
  }

  ghost function Step(cfg: Config, y: Sys, e: Event): Sys {
    match e
    case Submit(body, w) =>
      Sys(Submitted(cfg, y.state, Report(y.submitted, body), w), y.submitted + 1, w.pushedAt,
          y.again, if Writes(y.state, w) then 0 else y.over)
    case Crash(body, w, cut, at) =>
      Died(y, Interrupted(cfg, y.state, Report(y.submitted, body), w, cut), cut, at)
    case Restart(at) => Sys(Stopped(y.state), y.submitted, at, y.again, y.over)
  }

  ghost function Run(cfg: Config, start: int, events: seq<Event>): Sys {
    if events == [] then Sys(EMPTY, 0, start, [], 0)
    else Step(cfg, Run(cfg, start, events[..|events| - 1]), events[|events| - 1])
  }

  /** Names can be listed, files read and removed; the clock does not run backwards
      nor stand still over a stop, and where it stands still the counter stays
      within its eight digits. Sends and writes may fail. */
  ghost predicate OrderlyWorld(y: Sys, w: World) {
    && w.listOk && (forall n :: w.readable(n) && w.removable(n))
    && y.clock <= w.pushedAt && (y.clock == w.pushedAt ==> y.state.counter + 1 < COUNTER_BOUND)
  }

  ghost predicate Orderly(y: Sys, e: Event) {
    match e
    case Submit(_, w) => OrderlyWorld(y, w)
    case Crash(_, w, _, at) => OrderlyWorld(y, w) && w.pushedAt < at
    case Restart(at) => y.clock < at
  }

  ghost predicate AllOrderly(cfg: Config, start: int, events: seq<Event>) {
    events == [] ||
    (AllOrderly(cfg, start, events[..|events| - 1]) &&
      Orderly(Run(cfg, start, events[..|events| - 1]), events[|events| - 1]))
  }

  // ---- the buffer as a queue ----

  function IdIn(disk: Disk): Name -> nat { n => if n in disk then disk[n].id else 0 }

  ghost function Queue(disk: Disk): seq<nat> { Map(Files(disk), IdIn(disk)) }

  function ReportId(r: Report): nat { r.id }
  function AckId(a: Ack): nat { a.report.id }

  function BufferedIds(acked: seq<Ack>): seq<nat> {
    if acked == [] then []
    else BufferedIds(acked[..|acked| - 1]) + if acked[|acked| - 1].buffered then [acked[|acked| - 1].report.id] else []
  }

  ghost predicate Newest(disk: Disk, clock: int, counter: nat) {
    forall n :: n in disk ==> n.time < clock || (n.time == clock && n.counter <= counter)
  }

  /** The next push sorts after every file. */
  ghost predicate Roomy(disk: Disk, at: int, counter: nat) {
    Newest(disk, at, counter) && (counter + 1 < COUNTER_BOUND || forall n :: n in disk ==> n.time < at)
  }

  lemma NextIsLast(disk: Disk, at: int, counter: nat)
    requires Roomy(disk, at, counter)
    ensures forall m :: m in disk ==> Before(m, Name(at, counter + 1))
  {
    forall m | m in disk ensures Before(m, Name(at, counter + 1)) {
      if m.time == at { PadOrder(m.counter, counter + 1); }
    }
  }

  lemma SameIds(names: seq<Name>, d: Disk, e: Disk)
    requires forall n :: n in names ==> n in d && n in e && d[n] == e[n]
    ensures Map(names, IdIn(d)) == Map(names, IdIn(e))
  {
  }

  lemma FilesAreKeys(disk: Disk)
    ensures forall n :: n in Files(disk) <==> n in disk
  {
  }

  /** A push that sorts last appends to the queue. */
  lemma PushAppends(disk: Disk, n: Name, r: Report)
    requires forall m :: m in disk ==> Before(m, n)
    ensures Files(disk[n := r]) == Files(disk) + [n] && Queue(disk[n := r]) == Queue(disk) + [r.id]
  {
    BeforeIsTotal();
    var more := disk[n := r];
    assert more.Keys == disk.Keys + {n};
    ListedGrows(disk.Keys, n, Before);
    FilesAreKeys(disk);
    PushedIds(Files(disk), disk, n, r);
  }

  lemma PushedIds(names: seq<Name>, disk: Disk, n: Name, r: Report)
    requires n !in names && forall m :: m in names ==> m in disk
    ensures Map(names + [n], IdIn(disk[n := r])) == Map(names, IdIn(disk)) + [r.id]
  {
    SameIds(names, disk, disk[n := r]);
    MapGrow(names, n, IdIn(disk[n := r]));
  }

  /** Removing the first `k` names drops the head of the queue. */
  lemma RemoveDrops(disk: Disk, k: nat)
    requires k <= |Files(disk)|
    ensures var less := disk - Elements(Files(disk)[..k]);
      Files(less) == Files(disk)[k..] && Queue(less) == Queue(disk)[k..]
  {
    BeforeIsTotal();
    var less := disk - Elements(Files(disk)[..k]);
    assert less.Keys == disk.Keys - Elements(Files(disk)[..k]);
    ListedShrinks(disk.Keys, k, Before);
    FilesAreKeys(disk);
    FilesAreKeys(less);
    RestIds(Files(disk), disk, less, k);
  }

  lemma RestIds(names: seq<Name>, disk: Disk, less: Disk, k: nat)
    requires k <= |names| && forall n :: n in names[k..] ==> n in disk && n in less && disk[n] == less[n]
    ensures Map(names[k..], IdIn(less)) == Map(names, IdIn(disk))[k..]
  {
    SameIds(names[k..], disk, less);
    MapDrop(names, k, IdIn(disk));
  }

  lemma MapDrop<A, B>(s: seq<A>, k: nat, f: A -> B)
    requires k <= |s|
    ensures Map(s[k..], f) == Map(s, f)[k..] && Map(s[..k], f) == Map(s, f)[..k]
  {
  }

  ghost predicate Distinct(names: seq<Name>) { forall i, j :: 0 <= i < j < |names| ==> names[i] != names[j] }

  lemma FilesDistinct(disk: Disk)
    ensures Distinct(Files(disk))
  {
    BeforeIsTotal();
    AscendsDistinctly(Files(disk), Before);
  }

  lemma AscendsDistinctly(names: seq<Name>, less: (Name, Name) -> bool)
    requires Total(less) && Ascending(names, less)
    ensures Distinct(names)
  {
  }

  lemma {:induction false} RemoveAllIs(s: State, names: seq<Name>, removable: Name -> bool)
    requires Distinct(names) && (forall n :: n in names ==> n in s.disk) && forall n :: removable(n)
    ensures var t := RemoveAll(s, names, removable);
      && t == s.(disk := s.disk - Elements(names), history := s.history.(trimmed := t.history.trimmed))
      && Map(t.history.trimmed, ReportId) == Map(s.history.trimmed, ReportId) + Map(names, IdIn(s.disk))
  {
    if names == [] {
      assert s.disk - Elements(names) == s.disk;
    } else {
      var k := |names| - 1;
      RemoveAllIs(s, names[..k], removable);
      RemoveLast(s, RemoveAll(s, names[..k], removable), names[..k], names[k], removable);
      assert names[..k] + [names[k]] == names;
    }
  }

  lemma RemoveLast(s: State, t: State, before: seq<Name>, n: Name, removable: Name -> bool)
    requires n !in before && n in s.disk && forall n :: removable(n)
    requires t == s.(disk := s.disk - Elements(before), history := s.history.(trimmed := t.history.trimmed))
    requires Map(t.history.trimmed, ReportId) == Map(s.history.trimmed, ReportId) + Map(before, IdIn(s.disk))
    ensures var u := RemoveOne(t, n, removable);
      && u == s.(disk := s.disk - Elements(before + [n]), history := s.history.(trimmed := u.history.trimmed))
      && Map(u.history.trimmed, ReportId) == Map(s.history.trimmed, ReportId) + Map(before + [n], IdIn(s.disk))
  {
    OneMoreElement(before, n);
    assert t.disk - {n} == s.disk - Elements(before + [n]);
    MapGrow(t.history.trimmed, t.disk[n], ReportId);
    MapGrow(before, n, IdIn(s.disk));
  }

  lemma OneMoreElement(before: seq<Name>, n: Name)
    ensures Elements(before + [n]) == Elements(before) + {n}
  {
  }

  /** The first `k` of the queue went to the intake, in order, and nothing else moved. */
  ghost predicate Drains(s: State, t: State, k: nat) {
    && k <= |Queue(s.disk)| && Queue(t.disk) == Queue(s.disk)[k..]
    && t.disk.Keys <= s.disk.Keys && t.counter == s.counter
    && Map(t.history.acked, AckId) == Map(s.history.acked, AckId) + Queue(s.disk)[..k]
    && BufferedIds(t.history.acked) == BufferedIds(s.history.acked) + Queue(s.disk)[..k]
    && t.history.trimmed == s.history.trimmed && t.history.lost == s.history.lost
  }

  lemma DrainsNone(s: State, t: State)
    requires t.disk == s.disk && t.counter == s.counter && t.history == s.history
    ensures Drains(s, t, 0)
  {
    Nothing(Map(s.history.acked, AckId), Queue(s.disk));
    Nothing(BufferedIds(s.history.acked), Queue(s.disk));
  }

  lemma Nothing(a: seq<nat>, q: seq<nat>)
    ensures a + q[..0] == a && q[0..] == q
  {
  }

  lemma DrainsMore(s: State, t: State, u: State, j: nat)
    requires Queue(s.disk) != [] && Queue(t.disk) == Queue(s.disk)[1..]
    requires t.disk.Keys <= s.disk.Keys && t.counter == s.counter
    requires t.history.trimmed == s.history.trimmed && t.history.lost == s.history.lost
    requires Map(t.history.acked, AckId) == Map(s.history.acked, AckId) + [Queue(s.disk)[0]]
    requires BufferedIds(t.history.acked) == BufferedIds(s.history.acked) + [Queue(s.disk)[0]]
    requires Drains(t, u, j)
    ensures Drains(s, u, j + 1)
  {
    Resumed(Map(s.history.acked, AckId), Queue(s.disk), j);
    Resumed(BufferedIds(s.history.acked), Queue(s.disk), j);
  }

  /** A drain acknowledges the head of the queue, in order. */
  lemma {:induction false} DrainIs(cfg: Config, s: State, w: World) returns (k: nat)
    requires forall n :: w.readable(n) && w.removable(n)
    ensures Drains(s, Drained(cfg, s, Files(s.disk), w), k)
    decreases |Files(s.disk)|
  {
    var names := Files(s.disk);
    if names == [] || !w.flushOk(names[0]) {
      k := 0;
      DrainStops(cfg, s, w);
    } else {
      var t := Resumes(cfg, s, w);
      var j := DrainIs(cfg, t, w);
      k := j + 1;
      DrainsMore(s, t, Drained(cfg, t, Files(t.disk), w), j);
    }
  }

  /** One report resent, and the drain goes on. */
  lemma Resumes(cfg: Config, s: State, w: World) returns (t: State)
    requires Files(s.disk) != [] && w.flushOk(Files(s.disk)[0]) && forall n :: w.readable(n) && w.removable(n)
    ensures Drained(cfg, s, Files(s.disk), w) == Drained(cfg, t, Files(t.disk), w)
    ensures |Files(t.disk)| < |Files(s.disk)| && Queue(t.disk) == Queue(s.disk)[1..]
    ensures t.disk.Keys <= s.disk.Keys && t.counter == s.counter
    ensures t.history.trimmed == s.history.trimmed && t.history.lost == s.history.lost
    ensures Map(t.history.acked, AckId) == Map(s.history.acked, AckId) + [Queue(s.disk)[0]]
    ensures BufferedIds(t.history.acked) == BufferedIds(s.history.acked) + [Queue(s.disk)[0]]
  {
    HeadIn(s.disk);
    t := Resent(s, Files(s.disk)[0], w.removable);
    ResentIs(s, w.removable);
  }

  lemma DrainStops(cfg: Config, s: State, w: World)
    requires forall n :: w.readable(n)
    requires Files(s.disk) == [] || !w.flushOk(Files(s.disk)[0])
    ensures Drains(s, Drained(cfg, s, Files(s.disk), w), 0)
  {
    if Files(s.disk) != [] { HeadIn(s.disk); }
    DrainsNone(s, Drained(cfg, s, Files(s.disk), w));
  }

  lemma HeadIn(disk: Disk)
    requires Files(disk) != []
    ensures Files(disk)[0] in disk
  {
    assert Files(disk)[0] in Files(disk);
  }

  lemma Resumed(before: seq<nat>, queue: seq<nat>, j: nat)
    requires queue != [] && j <= |queue| - 1
    ensures before + [queue[0]] + queue[1..][..j] == before + queue[..j + 1]
    ensures queue[1..][j..] == queue[j + 1..]
  {
  }

  lemma ResentIs(s: State, removable: Name -> bool)
    requires Files(s.disk) != [] && Files(s.disk)[0] in s.disk && forall n :: removable(n)
    ensures var t := Resent(s, Files(s.disk)[0], removable);
      && Files(t.disk) == Files(s.disk)[1..] && Queue(t.disk) == Queue(s.disk)[1..]
      && Map(t.history.acked, AckId) == Map(s.history.acked, AckId) + [Queue(s.disk)[0]]
      && BufferedIds(t.history.acked) == BufferedIds(s.history.acked) + [Queue(s.disk)[0]]
  {
    var n := Files(s.disk)[0];
    RemoveDrops(s.disk, 1);
    assert Elements(Files(s.disk)[..1]) == {n};
    AckedHead(s);
  }

  lemma AckedHead(s: State)
    requires Files(s.disk) != [] && Files(s.disk)[0] in s.disk
    ensures var acked := s.history.acked + [Ack(s.disk[Files(s.disk)[0]], true)];
      && Map(acked, AckId) == Map(s.history.acked, AckId) + [Queue(s.disk)[0]]
      && BufferedIds(acked) == BufferedIds(s.history.acked) + [Queue(s.disk)[0]]
  {
    var ack := Ack(s.disk[Files(s.disk)[0]], true);
    MapGrow(s.history.acked, ack, AckId);
    BufferedGrow(s.history.acked, ack);
  }

  lemma BufferedGrow(acked: seq<Ack>, ack: Ack)
    ensures BufferedIds(acked + [ack]) == BufferedIds(acked) + if ack.buffered then [ack.report.id] else []
  {
    assert (acked + [ack])[..|acked|] == acked;
  }

  // ---- a drain cut short ----

  /** Drained so far, then the head of what is left resent and kept, if `again` says so. */
  ghost predicate CutAfter(s: State, t: State, u: State, k: nat, again: seq<nat>) {
    && Drains(s, t, k)
    && if again == [] then u == t else LeftBehind(t, u) && again == [Queue(t.disk)[0]]
  }

  ghost predicate LeftBehind(t: State, u: State) {
    && Queue(t.disk) != [] && u.disk == t.disk && u.counter == t.counter
    && Map(u.history.acked, AckId) == Map(t.history.acked, AckId) + [Queue(t.disk)[0]]
    && BufferedIds(u.history.acked) == BufferedIds(t.history.acked) + [Queue(t.disk)[0]]
    && u.history.trimmed == t.history.trimmed && u.history.lost == t.history.lost
  }

  /** What `DrainCut` did, as a drain of `k` reports to `t`. */
  ghost predicate CutIs(s: State, w: World, resent: nat, left: bool, k: nat, t: State) {
    var d := DrainCut(s, Files(s.disk), w, resent, left);
    CutAfter(s, t, d.0, k, d.1) && (|d.1| == 0 || (|d.1| == 1 && left))
  }

  lemma {:induction false} DrainCutIs(s: State, w: World, resent: nat, left: bool)
    returns (k: nat, t: State)
    requires forall n :: w.readable(n) && w.removable(n)
    ensures CutIs(s, w, resent, left, k, t)
    decreases resent
  {
    if Files(s.disk) == [] || !w.flushOk(Files(s.disk)[0]) || resent == 0 {
      k, t := 0, s;
      CutNow(s, w, resent, left);
    } else {
      HeadIn(s.disk);
      var s' := Resent(s, Files(s.disk)[0], w.removable);
      var j;
      j, t := DrainCutIs(s', w, resent - 1, left);
      k := j + 1;
      CutMore(s, s', w, resent, left, j, t);
    }
  }

  lemma CutNow(s: State, w: World, resent: nat, left: bool)
    requires forall n :: w.readable(n)
    requires Files(s.disk) == [] || !w.flushOk(Files(s.disk)[0]) || resent == 0
    ensures CutIs(s, w, resent, left, 0, s)
  {
    DrainsNone(s, s);
    CutHere(s, w, resent, left);
  }

  lemma CutMore(s: State, s': State, w: World, resent: nat, left: bool, j: nat, t: State)
    requires resent > 0 && Files(s.disk) != [] && Files(s.disk)[0] in s.disk && w.flushOk(Files(s.disk)[0])
    requires forall n :: w.readable(n) && w.removable(n)
    requires s' == Resent(s, Files(s.disk)[0], w.removable) && CutIs(s', w, resent - 1, left, j, t)
    ensures CutIs(s, w, resent, left, j + 1, t)
  {
    ResentIs(s, w.removable);
    CutResumes(s, w, resent, left);
    var d := DrainCut(s', Files(s'.disk), w, resent - 1, left);
    CutLater(s, s', t, d.0, j, d.1);
  }

  lemma CutResumes(s: State, w: World, resent: nat, left: bool)
    requires resent > 0 && Files(s.disk) != [] && Files(s.disk)[0] in s.disk && w.flushOk(Files(s.disk)[0])
    requires forall n :: w.readable(n) && w.removable(n)
    ensures var t := Resent(s, Files(s.disk)[0], w.removable);
      DrainCut(s, Files(s.disk), w, resent, left) == DrainCut(t, Files(t.disk), w, resent - 1, left)
  {
    ResentIs(s, w.removable);
  }

  lemma CutLater(s: State, s': State, t: State, u: State, j: nat, again: seq<nat>)
    requires Queue(s.disk) != [] && Queue(s'.disk) == Queue(s.disk)[1..]
    requires s'.disk.Keys <= s.disk.Keys && s'.counter == s.counter
    requires s'.history.trimmed == s.history.trimmed && s'.history.lost == s.history.lost
    requires Map(s'.history.acked, AckId) == Map(s.history.acked, AckId) + [Queue(s.disk)[0]]
    requires BufferedIds(s'.history.acked) == BufferedIds(s.history.acked) + [Queue(s.disk)[0]]
    requires CutAfter(s', t, u, j, again)
    ensures CutAfter(s, t, u, j + 1, again)
  {
    DrainsMore(s, s', t, j);
  }

  lemma CutHere(s: State, w: World, resent: nat, left: bool)
    requires forall n :: w.readable(n)
    requires Files(s.disk) == [] || !w.flushOk(Files(s.disk)[0]) || resent == 0
    ensures var d := DrainCut(s, Files(s.disk), w, resent, left);
      && (if d.1 == [] then d.0 == s else LeftBehind(s, d.0) && d.1 == [Queue(s.disk)[0]])
      && (|d.1| == 0 || (|d.1| == 1 && left))
  {
    if Files(s.disk) != [] {
      HeadIn(s.disk);
      AckedHead(s);
    }
  }

  // ---- the books ----

  /** Where every report is, as submission numbers. `buffered` is the part of `acked` that came from the buffer. */
  datatype Books = Books(queue: seq<nat>, acked: seq<nat>, buffered: seq<nat>, trimmed: seq<nat>, lost: seq<nat>)

  ghost function BooksOf(s: State): Books {
    Books(Queue(s.disk), Map(s.history.acked, AckId), BufferedIds(s.history.acked),
          Map(s.history.trimmed, ReportId), Map(s.history.lost, ReportId))
  }

  function LostBooks(b: Books, id: nat): Books { b.(lost := b.lost + [id]) }

  function SentBooks(b: Books, id: nat): Books { b.(acked := b.acked + [id]) }

  /** Pushed, and the `x` oldest trimmed. */
  function PushBooks(b: Books, id: nat, x: nat): Books
    requires x <= |b.queue| + 1
  {
    var q := b.queue + [id];
    b.(queue := q[x..], trimmed := b.trimmed + q[..x])
  }

  function DrainBooks(b: Books, k: nat): Books
    requires k <= |b.queue|
  {
    b.(queue := b.queue[k..], acked := b.acked + b.queue[..k], buffered := b.buffered + b.queue[..k])
  }

  /** The head of the queue acknowledged and kept. */
  function KeepBooks(b: Books): Books
    requires b.queue != []
  {
    b.(acked := b.acked + [b.queue[0]], buffered := b.buffered + [b.queue[0]])
  }

  function UpTo(n: nat): seq<nat> { if n == 0 then [] else UpTo(n - 1) + [n - 1] }

  /** Each submitted report is in one place, once, and in one more for each time it was left behind. */
  ghost predicate Balanced(b: Books, n: nat, again: seq<nat>) {
    && multiset(b.acked) + multiset(b.trimmed) + multiset(b.lost) + multiset(b.queue)
         == multiset(UpTo(n)) + multiset(again)
    && multiset(b.buffered) <= multiset(b.acked)
  }

  ghost predicate Rising(s: seq<nat>) { forall i, j :: 0 <= i < j < |s| ==> s[i] < s[j] }

  ghost predicate Climbing(s: seq<nat>) { forall i, j :: 0 <= i < j < |s| ==> s[i] <= s[j] }

  ghost predicate AllBelow(s: seq<nat>, t: seq<nat>) { forall i, j :: 0 <= i < |s| && 0 <= j < |t| ==> s[i] < t[j] }

  ghost predicate NoneAbove(s: seq<nat>, t: seq<nat>) { forall i, j :: 0 <= i < |s| && 0 <= j < |t| ==> s[i] <= t[j] }

  ghost predicate Below(s: seq<nat>, n: nat) { forall i :: 0 <= i < |s| ==> s[i] < n }

  ghost predicate InOrder(b: Books, n: nat) {
    && Rising(b.queue) && Climbing(b.buffered) && Rising(b.trimmed)
    && NoneAbove(b.buffered, b.queue) && AllBelow(b.trimmed, b.queue)
    && Below(b.queue, n) && Below(b.buffered, n) && Below(b.trimmed, n)
  }

  lemma SplitBag(s: seq<nat>, k: nat)
    requires k <= |s|
    ensures multiset(s) == multiset(s[..k]) + multiset(s[k..])
  {
    assert s == s[..k] + s[k..];
  }

  /** One more of `x` on both sides, wherever it goes. */
  lemma OneMoreOf(a: multiset<nat>, t: multiset<nat>, l: multiset<nat>, q: multiset<nat>,
                  u: multiset<nat>, g: multiset<nat>, x: multiset<nat>)
    requires a + t + l + q == u + g
    ensures (a + x) + t + l + q == (u + x) + g == u + (g + x)
    ensures a + t + (l + x) + q == (u + x) + g
    ensures a + t + l + (q + x) == (u + x) + g
  {
    var all := a + t + l + q + x;
    assert all == (a + x) + t + l + q == a + t + (l + x) + q == a + t + l + (q + x);
    assert u + g + x == (u + x) + g == u + (g + x);
  }

  /** Moved from the last to the first or the second. */
  lemma Moves(a: multiset<nat>, t: multiset<nat>, l: multiset<nat>, p: multiset<nat>, q: multiset<nat>)
    ensures a + (t + p) + l + q == a + t + l + (p + q) == (a + p) + t + l + q
  {
  }

  lemma PushBalances(b: Books, n: nat, x: nat, again: seq<nat>)
    requires Balanced(b, n, again) && x <= |b.queue| + 1
    ensures Balanced(PushBooks(b, n, x), n + 1, again)
  {
    var q := b.queue + [n];
    SplitBag(q, x);
    BagGrows(b.queue, n);
    UpToGrows(n);
    BagJoins(b.trimmed, q[..x]);
    OneMoreOf(multiset(b.acked), multiset(b.trimmed), multiset(b.lost), multiset(b.queue),
              multiset(UpTo(n)), multiset(again), multiset{n});
    Moves(multiset(b.acked), multiset(b.trimmed), multiset(b.lost), multiset(q[..x]), multiset(q[x..]));
  }

  lemma UpToGrows(n: nat)
    ensures multiset(UpTo(n + 1)) == multiset(UpTo(n)) + multiset{n}
  {
    assert UpTo(n + 1) == UpTo(n) + [n];
  }

  lemma BagGrows(s: seq<nat>, x: nat)
    ensures multiset(s + [x]) == multiset(s) + multiset{x}
  {
  }

  lemma BagJoins(s: seq<nat>, t: seq<nat>)
    ensures multiset(s + t) == multiset(s) + multiset(t)
  {
  }

  lemma DrainBalances(b: Books, n: nat, k: nat, again: seq<nat>)
    requires Balanced(b, n, again) && k <= |b.queue|
    ensures Balanced(DrainBooks(b, k), n, again)
  {
    var q := b.queue;
    SplitBag(q, k);
    BagJoins(b.acked, q[..k]);
    BagJoins(b.buffered, q[..k]);
    Moves(multiset(b.acked), multiset(b.trimmed), multiset(b.lost), multiset(q[..k]), multiset(q[k..]));
  }

  lemma KeepBalances(b: Books, n: nat, again: seq<nat>)
    requires Balanced(b, n, again) && b.queue != []
    ensures Balanced(KeepBooks(b), n, again + [b.queue[0]])
  {
    BagGrows(b.acked, b.queue[0]);
    BagGrows(b.buffered, b.queue[0]);
    BagGrows(again, b.queue[0]);
    OneMoreOf(multiset(b.acked), multiset(b.trimmed), multiset(b.lost), multiset(b.queue),
              multiset(UpTo(n)), multiset(again), multiset{b.queue[0]});
  }

  lemma MovedTrim(gone: seq<nat>, queue: seq<nat>, k: nat)
    requires k <= |queue| && Rising(queue) && Rising(gone) && AllBelow(gone, queue)
    ensures Rising(gone + queue[..k]) && Rising(queue[k..]) && AllBelow(gone + queue[..k], queue[k..])
  {
  }

  lemma MovedAck(gone: seq<nat>, queue: seq<nat>, k: nat)
    requires k <= |queue| && Rising(queue) && Climbing(gone) && NoneAbove(gone, queue)
    ensures Climbing(gone + queue[..k]) && Rising(queue[k..]) && NoneAbove(gone + queue[..k], queue[k..])
  {
  }

  lemma PushOrders(b: Books, n: nat, x: nat)
    requires InOrder(b, n) && x <= |b.queue| + 1
    ensures InOrder(PushBooks(b, n, x), n + 1)
  {
    var q := b.queue + [n];
    QueueGrows(b, n, q);
    MovedTrim(b.trimmed, q, x);
    StillAbove(b.buffered, q, x);
    BelowParts(b.trimmed, q, x, n + 1);
  }

  lemma QueueGrows(b: Books, n: nat, q: seq<nat>)
    requires InOrder(b, n) && q == b.queue + [n]
    ensures Rising(q) && AllBelow(b.trimmed, q) && NoneAbove(b.buffered, q) && Below(q, n + 1)
  {
  }

  lemma BelowParts(a: seq<nat>, q: seq<nat>, x: nat, n: nat)
    requires x <= |q| && Below(a, n) && Below(q, n)
    ensures Below(q[x..], n) && Below(a + q[..x], n)
  {
  }

  lemma StillAbove(gone: seq<nat>, queue: seq<nat>, k: nat)
    requires k <= |queue| && NoneAbove(gone, queue)
    ensures NoneAbove(gone, queue[k..])
  {
  }

  lemma Kept(gone: seq<nat>, queue: seq<nat>, k: nat)
    requires k <= |queue| && AllBelow(gone, queue)
    ensures AllBelow(gone, queue[k..])
  {
  }

  lemma DrainOrders(b: Books, n: nat, k: nat)
    requires InOrder(b, n) && k <= |b.queue|
    ensures InOrder(DrainBooks(b, k), n)
  {
    MovedAck(b.buffered, b.queue, k);
    Kept(b.trimmed, b.queue, k);
    BelowParts(b.buffered, b.queue, k, n);
  }

  lemma KeepOrders(b: Books, n: nat)
    requires InOrder(b, n) && b.queue != []
    ensures InOrder(KeepBooks(b), n)
  {
    HeadAcked(b.buffered, b.queue);
  }

  lemma HeadAcked(gone: seq<nat>, queue: seq<nat>)
    requires queue != [] && Rising(queue) && Climbing(gone) && NoneAbove(gone, queue)
    ensures Climbing(gone + [queue[0]]) && NoneAbove(gone + [queue[0]], queue)
  {
  }

  // ---- the operations, in the books ----

  lemma WrittenIs(s: State, r: Report, at: int)
    requires Roomy(s.disk, at, s.counter)
    ensures var t := Written(s, r, at);
      && Queue(t.disk) == Queue(s.disk) + [r.id] && t.history == s.history
      && Newest(t.disk, at, t.counter)
  {
    NextIsLast(s.disk, at, s.counter);
    PushAppends(s.disk, Name(at, s.counter + 1), r);
  }

  /** The `x` oldest files removed. */
  lemma RemovedBooks(t: State, x: nat, removable: Name -> bool)
    requires x <= |Files(t.disk)| && forall n :: removable(n)
    ensures var u, q := RemoveAll(t, Files(t.disk)[..x], removable), Queue(t.disk);
      && BooksOf(u) == BooksOf(t).(queue := q[x..], trimmed := BooksOf(t).trimmed + q[..x])
      && u.disk.Keys <= t.disk.Keys && u.counter == t.counter
  {
    var names := Files(t.disk);
    FilesDistinct(t.disk);
    FilesAreKeys(t.disk);
    MapDrop(names, x, IdIn(t.disk));
    TakenOf(names, x, t.disk);
    RemoveAllIs(t, names[..x], removable);
    RemoveDrops(t.disk, x);
  }

  lemma TakenOf(names: seq<Name>, x: nat, disk: Disk)
    requires x <= |names| && Distinct(names) && forall n :: n in names ==> n in disk
    ensures Distinct(names[..x]) && forall n :: n in names[..x] ==> n in disk
  {
    assert forall n :: n in names[..x] ==> n in names;
  }

  lemma PushedCut(s: State, r: Report, at: int, x: nat, removable: Name -> bool)
    requires Roomy(s.disk, at, s.counter) && forall n :: removable(n)
    requires x <= |Files(Written(s, r, at).disk)|
    ensures var t := Written(s, r, at);
      var u := RemoveAll(t, Files(t.disk)[..x], removable);
      x <= |Queue(s.disk)| + 1 && BooksOf(u) == PushBooks(BooksOf(s), r.id, x) && Newest(u.disk, at, u.counter)
  {
    WrittenIs(s, r, at);
    RemovedBooks(Written(s, r, at), x, removable);
  }

  lemma LostIs(s: State, r: Report)
    ensures BooksOf(Lost(s, r)) == LostBooks(BooksOf(s), r.id)
  {
    MapGrow(s.history.lost, r, ReportId);
  }

  lemma DrainsBooks(s: State, t: State, k: nat)
    requires Drains(s, t, k)
    ensures BooksOf(t) == DrainBooks(BooksOf(s), k)
  {
  }

  lemma LeftBooks(t: State, u: State)
    requires LeftBehind(t, u)
    ensures BooksOf(u) == KeepBooks(BooksOf(t))
  {
  }

  lemma SentInBooks(s: State, r: Report)
    ensures BooksOf(Sent(s, r)) == SentBooks(BooksOf(s), r.id)
  {
    MapGrow(s.history.acked, Ack(r, false), AckId);
    BufferedGrow(s.history.acked, Ack(r, false));
  }

  // ---- what every run keeps ----

  ghost predicate InBooks(b: Books, n: nat, again: seq<nat>, most: nat) {
    Balanced(b, n, again) && InOrder(b, n) && |b.queue| <= most
  }

  ghost predicate Fine(s: State, n: nat, clock: int, again: seq<nat>, most: nat) {
    InBooks(BooksOf(s), n, again, most) && Newest(s.disk, clock, s.counter)
  }

  ghost predicate Sound(cfg: Config, y: Sys) { Fine(y.state, y.submitted, y.clock, y.again, cfg.maxFiles + y.over) }

  lemma LostFine(s: State, r: Report, at: int, again: seq<nat>, most: nat)
    requires Fine(s, r.id, at, again, most)
    ensures Fine(Lost(s, r), r.id + 1, at, again, most)
  {
    LostIs(s, r);
    LostInBooks(BooksOf(s), r.id, again, most);
  }

  lemma LostInBooks(b: Books, n: nat, again: seq<nat>, most: nat)
    requires InBooks(b, n, again, most)
    ensures InBooks(LostBooks(b, n), n + 1, again, most)
  {
    BagGrows(b.lost, n);
    UpToGrows(n);
    OneMoreOf(multiset(b.acked), multiset(b.trimmed), multiset(b.lost), multiset(b.queue),
              multiset(UpTo(n)), multiset(again), multiset{n});
  }

  lemma SentFine(s: State, r: Report, at: int, again: seq<nat>, most: nat)
    requires Fine(s, r.id, at, again, most)
    ensures Fine(Sent(s, r), r.id + 1, at, again, most)
  {
    SentInBooks(s, r);
    SentInOrder(BooksOf(s), r.id, again, most);
  }

  lemma SentInOrder(b: Books, n: nat, again: seq<nat>, most: nat)
    requires InBooks(b, n, again, most)
    ensures InBooks(SentBooks(b, n), n + 1, again, most)
  {
    BagGrows(b.acked, n);
    UpToGrows(n);
    OneMoreOf(multiset(b.acked), multiset(b.trimmed), multiset(b.lost), multiset(b.queue),
              multiset(UpTo(n)), multiset(again), multiset{n});
  }

  lemma PushFine(s: State, r: Report, at: int, x: nat, removable: Name -> bool, again: seq<nat>, most: nat)
    requires Fine(s, r.id, at, again, most) && Roomy(s.disk, at, s.counter) && forall n :: removable(n)
    requires x <= |Files(Written(s, r, at).disk)|
    ensures var t := Written(s, r, at);
      var u := RemoveAll(t, Files(t.disk)[..x], removable);
      Fine(u, r.id + 1, at, again, |Files(t.disk)| - x) && |Files(t.disk)| == |Queue(s.disk)| + 1
  {
    PushedCut(s, r, at, x, removable);
    WrittenIs(s, r, at);
    PushBalances(BooksOf(s), r.id, x, again);
    PushOrders(BooksOf(s), r.id, x);
  }

  lemma Wider(s: State, n: nat, at: int, again: seq<nat>, few: nat, most: nat)
    requires Fine(s, n, at, again, few) && few <= most
    ensures Fine(s, n, at, again, most)
  {
  }

  /** A push that goes to its end leaves no more files than the limit. */
  lemma PushedFine(cfg: Config, s: State, r: Report, w: World, again: seq<nat>, over: nat)
    requires w.listOk && forall n :: w.removable(n)
    requires Fine(s, r.id, w.pushedAt, again, cfg.maxFiles + over) && Roomy(s.disk, w.pushedAt, s.counter)
    ensures Fine(Pushed(cfg, s, r, w), r.id + 1, w.pushedAt, again,
                 cfg.maxFiles + if w.dirOk && w.writeOk then 0 else over)
  {
    if w.dirOk && w.writeOk {
      WrittenFine(cfg, s, r, w, again, cfg.maxFiles + over);
    } else {
      NotWrittenFine(cfg, s, r, w, again, cfg.maxFiles + over);
    }
  }

  lemma NotWrittenFine(cfg: Config, s: State, r: Report, w: World, again: seq<nat>, most: nat)
    requires Fine(s, r.id, w.pushedAt, again, most) && !(w.dirOk && w.writeOk)
    ensures Fine(Pushed(cfg, s, r, w), r.id + 1, w.pushedAt, again, most)
  {
    if w.dirOk {
      Counted(s, r.id, w.pushedAt, again, most);
      LostFine(s.(counter := s.counter + 1), r, w.pushedAt, again, most);
    } else {
      LostFine(s, r, w.pushedAt, again, most);
    }
  }

  lemma WrittenFine(cfg: Config, s: State, r: Report, w: World, again: seq<nat>, most: nat)
    requires w.listOk && w.dirOk && w.writeOk && forall n :: w.removable(n)
    requires Fine(s, r.id, w.pushedAt, again, most) && Roomy(s.disk, w.pushedAt, s.counter)
    ensures Fine(Pushed(cfg, s, r, w), r.id + 1, w.pushedAt, again, cfg.maxFiles)
  {
    var t := Written(s, r, w.pushedAt);
    var x := Excess(cfg, t.disk);
    PushFine(s, r, w.pushedAt, x, w.removable, again, most);
    TrimIs(cfg, t, w);
    Wider(Trimmed(cfg, t, w), r.id + 1, w.pushedAt, again, |Files(t.disk)| - x, cfg.maxFiles);
  }

  lemma Counted(s: State, n: nat, at: int, again: seq<nat>, most: nat)
    requires Fine(s, n, at, again, most)
    ensures Fine(s.(counter := s.counter + 1), n, at, again, most)
  {
  }

  lemma TrimIs(cfg: Config, t: State, w: World)
    requires w.listOk
    ensures Trimmed(cfg, t, w) == RemoveAll(t, Files(t.disk)[..Excess(cfg, t.disk)], w.removable)
  {
  }

  lemma DrainFine(s: State, t: State, k: nat, n: nat, at: int, again: seq<nat>, most: nat)
    requires Fine(s, n, at, again, most) && Drains(s, t, k)
    ensures Fine(t, n, at, again, most)
  {
    DrainsBooks(s, t, k);
    DrainBalances(BooksOf(s), n, k, again);
    DrainOrders(BooksOf(s), n, k);
  }

  lemma LeftFine(t: State, u: State, n: nat, at: int, again: seq<nat>, most: nat)
    requires Fine(t, n, at, again, most) && LeftBehind(t, u)
    ensures Fine(u, n, at, again + [Queue(t.disk)[0]], most)
  {
    LeftBooks(t, u);
    KeepBalances(BooksOf(t), n, again);
    KeepOrders(BooksOf(t), n);
  }

  lemma SendsFine(cfg: Config, s: State, r: Report, w: World, again: seq<nat>, most: nat)
    requires w.listOk && forall n :: w.readable(n) && w.removable(n)
    requires Fine(s, r.id, w.pushedAt, again, most)
    ensures Fine(Flushed(cfg, Sent(s, r), w), r.id + 1, w.pushedAt, again, most)
  {
    SentFine(s, r, w.pushedAt, again, most);
    var k := DrainIs(cfg, Sent(s, r), w);
    DrainFine(Sent(s, r), Flushed(cfg, Sent(s, r), w), k, r.id + 1, w.pushedAt, again, most);
  }

  lemma KeepsFine(cfg: Config, s: State, r: Report, w: World, again: seq<nat>, over: nat)
    requires w.listOk && forall n :: w.removable(n)
    requires Fine(s, r.id, w.pushedAt, again, cfg.maxFiles + over) && Roomy(s.disk, w.pushedAt, s.counter)
    requires !Sends(s, w)
    ensures Fine(Submitted(cfg, s, r, w), r.id + 1, w.pushedAt, again,
                 cfg.maxFiles + if w.dirOk && w.writeOk then 0 else over)
  {
    PushedFine(cfg, s, r, w, again, over);
    FailedFine(cfg, Pushed(cfg, s, r, w), r.id + 1, w.pushedAt, again,
               cfg.maxFiles + if w.dirOk && w.writeOk then 0 else over, w.failedAt);
  }

  lemma SubmitFine(cfg: Config, s: State, r: Report, w: World, again: seq<nat>, over: nat)
    requires w.listOk && forall n :: w.readable(n) && w.removable(n)
    requires Fine(s, r.id, w.pushedAt, again, cfg.maxFiles + over) && Roomy(s.disk, w.pushedAt, s.counter)
    ensures Fine(Submitted(cfg, s, r, w), r.id + 1, w.pushedAt, again, cfg.maxFiles + if Writes(s, w) then 0 else over)
  {
    if Sends(s, w) {
      SendsFine(cfg, s, r, w, again, cfg.maxFiles + over);
    } else {
      KeepsFine(cfg, s, r, w, again, over);
    }
  }

  lemma FailedFine(cfg: Config, s: State, n: nat, at: int, again: seq<nat>, most: nat, when: int)
    requires Fine(s, n, at, again, most)
    ensures Fine(Failed(cfg, s, when), n, at, again, most)
  {
  }

  /** Wherever a submission is cut short. */
  lemma CutFine(cfg: Config, s: State, r: Report, w: World, cut: Cut, again: seq<nat>, over: nat)
    requires w.listOk && forall n :: w.readable(n) && w.removable(n)
    requires Fine(s, r.id, w.pushedAt, again, cfg.maxFiles + over) && Roomy(s.disk, w.pushedAt, s.counter)
    ensures var d := Interrupted(cfg, s, r, w, cut);
      Fine(d.0, r.id + 1, w.pushedAt, again + d.1, cfg.maxFiles + over + if cut.InTrim? then 1 else 0)
  {
    var most := cfg.maxFiles + over;
    assert again + [] == again;
    LostFine(s, r, w.pushedAt, again, most);
    match cut
    case BeforeAny =>
    case AfterSend => SentFine(s, r, w.pushedAt, again, most);
    case InTrim(removed) =>
      Wider(Lost(s, r), r.id + 1, w.pushedAt, again, most, most + 1);
      if Writes(s, w) { TrimCutFine(cfg, s, r, w, removed, again, most); }
    case InDrain(resent, left) => if Sends(s, w) { DrainCutFine(cfg, s, r, w, resent, left, again, most); }
  }

  lemma TrimCutFine(cfg: Config, s: State, r: Report, w: World, removed: nat, again: seq<nat>, most: nat)
    requires forall n :: w.removable(n)
    requires Fine(s, r.id, w.pushedAt, again, most) && Roomy(s.disk, w.pushedAt, s.counter)
    ensures Fine(TrimCut(cfg, Written(s, r, w.pushedAt), removed, w), r.id + 1, w.pushedAt, again, most + 1)
  {
    var t := Written(s, r, w.pushedAt);
    var x := Least(removed, Excess(cfg, t.disk));
    PushFine(s, r, w.pushedAt, x, w.removable, again, most);
    Wider(TrimCut(cfg, t, removed, w), r.id + 1, w.pushedAt, again, |Files(t.disk)| - x, most + 1);
  }

  lemma DrainCutFine(cfg: Config, s: State, r: Report, w: World, resent: nat, left: bool, again: seq<nat>, most: nat)
    requires forall n :: w.readable(n) && w.removable(n)
    requires Fine(s, r.id, w.pushedAt, again, most)
    ensures var d := DrainCut(Sent(s, r), Files(s.disk), w, resent, left);
      Fine(d.0, r.id + 1, w.pushedAt, again + d.1, most)
  {
    SentFine(s, r, w.pushedAt, again, most);
    var d := DrainCut(Sent(s, r), Files(s.disk), w, resent, left);
    var k, t := DrainCutIs(Sent(s, r), w, resent, left);
    CutAfterFine(Sent(s, r), t, d.0, k, d.1, r.id + 1, w.pushedAt, again, most);
  }

  lemma CutAfterFine(s: State, t: State, u: State, k: nat, more: seq<nat>, n: nat, at: int, again: seq<nat>, most: nat)
    requires Fine(s, n, at, again, most) && CutAfter(s, t, u, k, more)
    ensures Fine(u, n, at, again + more, most)
  {
    DrainFine(s, t, k, n, at, again, most);
    if more == [] {
      assert again + more == again;
    } else {
      LeftFine(t, u, n, at, again, most);
    }
  }

  lemma Later(s: State, n: nat, clock: int, at: int, again: seq<nat>, most: nat)
    requires Fine(s, n, clock, again, most) && clock <= at
    ensures Fine(s, n, at, again, most)
    ensures clock < at ==> Fine(Stopped(s), n, at, again, most)
    ensures clock < at || s.counter + 1 < COUNTER_BOUND ==> Roomy(s.disk, at, s.counter)
  {
  }

  lemma SubmitSound(cfg: Config, y: Sys, body: string, w: World)
    requires Sound(cfg, y) && OrderlyWorld(y, w)
    ensures Sound(cfg, Step(cfg, y, Submit(body, w)))
  {
    Later(y.state, y.submitted, y.clock, w.pushedAt, y.again, cfg.maxFiles + y.over);
    SubmitFine(cfg, y.state, Report(y.submitted, body), w, y.again, y.over);
  }

  lemma DiedSound(cfg: Config, y: Sys, left: (State, seq<nat>), cut: Cut, clock: int, at: int)
    requires Fine(left.0, y.submitted + 1, clock, y.again + left.1,
                  cfg.maxFiles + (y.over + if cut.InTrim? then 1 else 0))
    requires clock < at
    ensures Sound(cfg, Died(y, left, cut, at))
  {
    Later(left.0, y.submitted + 1, clock, at, y.again + left.1,
          cfg.maxFiles + (y.over + if cut.InTrim? then 1 else 0));
  }

  lemma CrashFine(cfg: Config, y: Sys, r: Report, w: World, cut: Cut)
    requires Sound(cfg, y) && OrderlyWorld(y, w) && r.id == y.submitted
    ensures var d := Interrupted(cfg, y.state, r, w, cut);
      Fine(d.0, r.id + 1, w.pushedAt, y.again + d.1, cfg.maxFiles + (y.over + if cut.InTrim? then 1 else 0))
  {
    Later(y.state, y.submitted, y.clock, w.pushedAt, y.again, cfg.maxFiles + y.over);
    CutFine(cfg, y.state, r, w, cut, y.again, y.over);
  }

  lemma CrashIs(cfg: Config, y: Sys, body: string, w: World, cut: Cut, at: int)
    ensures Step(cfg, y, Crash(body, w, cut, at)) ==
      Died(y, Interrupted(cfg, y.state, Report(y.submitted, body), w, cut), cut, at)
  {
  }

  lemma CrashSound(cfg: Config, y: Sys, z: Sys, left: (State, seq<nat>), clock: int, cut: Cut, at: int)
    requires Fine(left.0, y.submitted + 1, clock, y.again + left.1,
                  cfg.maxFiles + (y.over + if cut.InTrim? then 1 else 0))
    requires clock < at && z == Died(y, left, cut, at)
    ensures Sound(cfg, z)
  {
    DiedSound(cfg, y, left, cut, clock, at);
  }

  lemma StepSound(cfg: Config, y: Sys, e: Event)
    requires Sound(cfg, y) && Orderly(y, e)
    ensures Sound(cfg, Step(cfg, y, e))
  {
    match e
    case Submit(body, w) => SubmitSound(cfg, y, body, w);
    case Crash(body, w, cut, at) =>
      var r := Report(y.submitted, body);
      CrashFine(cfg, y, r, w, cut);
      CrashIs(cfg, y, body, w, cut, at);
      CrashSound(cfg, y, Step(cfg, y, e), Interrupted(cfg, y.state, r, w, cut), w.pushedAt, cut, at);
    case Restart(at) => Later(y.state, y.submitted, y.clock, at, y.again, cfg.maxFiles + y.over);
  }

  lemma {:induction false} RunSound(cfg: Config, start: int, events: seq<Event>)
    requires AllOrderly(cfg, start, events)
    ensures Sound(cfg, Run(cfg, start, events))
  {
    if events == [] {
      StartFine(cfg, start);
    } else {
      RunSound(cfg, start, events[..|events| - 1]);
      StepSound(cfg, Run(cfg, start, events[..|events| - 1]), events[|events| - 1]);
    }
  }

  lemma StartFine(cfg: Config, start: int)
    ensures Fine(EMPTY, 0, start, [], cfg.maxFiles)
  {
    FilesAreKeys(EMPTY.disk);
    var names := Files(EMPTY.disk);
    assert forall i :: 0 <= i < |names| ==> names[i] in names;
  }

  lemma {:induction false} UpToCounts(n: nat, id: nat)
    ensures multiset(UpTo(n))[id] == if id < n then 1 else 0
  {
    if n > 0 { UpToCounts(n - 1, id); }
  }

  // ---- crashes, counted ----

  /** The crashes that come between a resend and the removal of its file. */
  function Losing(events: seq<Event>): nat {
    if events == [] then 0
    else
      var e := events[|events| - 1];
      Losing(events[..|events| - 1]) + if e.Crash? && e.cut.InDrain? && e.cut.left then 1 else 0
  }

  lemma LeftAtMostOne(cfg: Config, y: Sys, e: Event)
    requires Orderly(y, e)
    ensures |Step(cfg, y, e).again| <= |y.again| + if e.Crash? && e.cut.InDrain? && e.cut.left then 1 else 0
  {
    if e.Crash? && e.cut.InDrain? && Sends(y.state, e.w) {
      var k, t := DrainCutIs(Sent(y.state, Report(y.submitted, e.body)), e.w, e.cut.resent, e.cut.left);
    }
  }

  lemma {:induction false} AgainBounded(cfg: Config, start: int, events: seq<Event>)
    requires AllOrderly(cfg, start, events)
    ensures |Run(cfg, start, events).again| <= Losing(events)
  {
    if events != [] {
      var before := events[..|events| - 1];
      AgainBounded(cfg, start, before);
      LeftAtMostOne(cfg, Run(cfg, start, before), events[|events| - 1]);
    }
  }

  lemma {:induction false} OverBounded(cfg: Config, start: int, events: seq<Event>)
    requires forall i :: 0 <= i < |events| ==> !(events[i].Crash? && events[i].cut.InTrim?)
    ensures Run(cfg, start, events).over == 0
  {
    if events != [] { OverBounded(cfg, start, events[..|events| - 1]); }
  }

  /** Every report submitted is in exactly one place, exactly once: acknowledged,
      waiting in the buffer, trimmed from it, or never written to it. A crash
      between a resend and the removal of its file adds one place for that
      report, and nothing else does. */
  lemma OnePlaceEach(cfg: Config, start: int, events: seq<Event>, id: nat)
    requires AllOrderly(cfg, start, events)
    ensures var y := Run(cfg, start, events);
      var b := BooksOf(y.state);
      && multiset(b.acked)[id] + multiset(b.trimmed)[id] + multiset(b.lost)[id] + multiset(b.queue)[id]
           == (if id < y.submitted then 1 else 0) + multiset(y.again)[id]
      && |y.again| <= Losing(events)
  {
    RunSound(cfg, start, events);
    AgainBounded(cfg, start, events);
    var y := Run(cfg, start, events);
    UpToCounts(y.submitted, id);
    CountsOf(BooksOf(y.state), y.submitted, y.again, id);
  }

  lemma CountsOf(b: Books, n: nat, again: seq<nat>, id: nat)
    requires Balanced(b, n, again)
    ensures multiset(b.acked)[id] + multiset(b.trimmed)[id] + multiset(b.lost)[id] + multiset(b.queue)[id]
      == multiset(UpTo(n))[id] + multiset(again)[id]
  {
    assert (multiset(b.acked) + multiset(b.trimmed) + multiset(b.lost) + multiset(b.queue))[id] ==
      (multiset(UpTo(n)) + multiset(again))[id];
  }

  /** What was trimmed is older than all that is still in the buffer, nothing
      acknowledged from it is newer, and buffered reports are acknowledged in the
      order of submission; the buffer exceeds its limit by at most one file for
      each trim cut short since the last one that was not. */
  lemma BufferInOrder(cfg: Config, start: int, events: seq<Event>)
    requires AllOrderly(cfg, start, events)
    ensures var y := Run(cfg, start, events);
      var b := BooksOf(y.state);
      && |b.queue| <= cfg.maxFiles + y.over && Rising(b.queue)
      && AllBelow(b.trimmed, b.queue) && NoneAbove(b.buffered, b.queue) && Climbing(b.buffered)
  {
    RunSound(cfg, start, events);
  }

  /** Unless a crash comes within a trim, the buffer never exceeds its limit. */
  lemma WithinLimit(cfg: Config, start: int, events: seq<Event>)
    requires AllOrderly(cfg, start, events)
    requires forall i :: 0 <= i < |events| ==> !(events[i].Crash? && events[i].cut.InTrim?)
    ensures |BooksOf(Run(cfg, start, events).state).queue| <= cfg.maxFiles
  {
    RunSound(cfg, start, events);
    OverBounded(cfg, start, events);
  }

  lemma Twice(s: seq<nat>, i: nat, j: nat)
    requires i < j < |s| && s[i] == s[j]
    ensures multiset(s)[s[i]] >= 2
  {
    assert s == s[..i + 1] + s[i + 1..];
    BagJoins(s[..i + 1], s[i + 1..]);
    assert s[..i + 1][i] == s[i] && s[i + 1..][j - i - 1] == s[j];
  }

  /** Unless a crash comes between a resend and the removal of its file, no report
      is acknowledged twice: buffered reports are acknowledged in strictly rising
      order, and all of them are older than what is still there. */
  lemma StrictlyInOrder(cfg: Config, start: int, events: seq<Event>)
    requires AllOrderly(cfg, start, events) && Losing(events) == 0
    ensures var b := BooksOf(Run(cfg, start, events).state);
      Rising(b.buffered) && AllBelow(b.buffered, b.queue)
  {
    RunSound(cfg, start, events);
    AgainBounded(cfg, start, events);
    var y := Run(cfg, start, events);
    OnceEach(BooksOf(y.state), y.submitted);
  }

  lemma OnceEach(b: Books, n: nat)
    requires Balanced(b, n, []) && InOrder(b, n)
    ensures Rising(b.buffered) && AllBelow(b.buffered, b.queue)
  {
    forall i, j | 0 <= i < j < |b.buffered| ensures b.buffered[i] < b.buffered[j] {
      if b.buffered[i] == b.buffered[j] {
        Twice(b.buffered, i, j);
        AtMostOnce(b, n, b.buffered[i]);
        assert false;
      }
    }
    forall i, j | 0 <= i < |b.buffered| && 0 <= j < |b.queue| ensures b.buffered[i] < b.queue[j] {
      if b.buffered[i] == b.queue[j] {
        AtMostOnce(b, n, b.queue[j]);
        InBag(b.buffered, i);
        InBag(b.queue, j);
        assert false;
      }
    }
  }

  lemma InBag(s: seq<nat>, i: nat)
    requires i < |s|
    ensures multiset(s)[s[i]] >= 1
  {
    assert s[i] in multiset(s);
  }

  lemma AtMostOnce(b: Books, n: nat, id: nat)
    requires Balanced(b, n, [])
    ensures multiset(b.acked)[id] + multiset(b.queue)[id] <= 1 && multiset(b.buffered)[id] <= multiset(b.acked)[id]
  {
    CountsOf(b, n, [], id);
    UpToCounts(n, id);
  }

  // ---- the crash that acknowledges twice ----

  const SMALL := Config(10, 1, 1, 1.0)

  /** Everything works at `at`, except the first send unless `sendOk`. */
  function Moment(at: int, sendOk: bool): World {
    World(at, at, at, sendOk, true, true, true, _ => true, _ => true, _ => true)
  }

  const LONELY := Name(1, 1)

  /** One report buffered, none acknowledged. */
  function OneBuffered(): Sys {
    Sys(State(map[LONELY := Report(0, "a")], 1, 1, Some(2), History([], [], [])), 1, 1, [], 0)
  }

  lemma OneFile(r: Report)
    ensures Files(map[LONELY := r]) == [LONELY] && Files(EMPTY.disk) == []
  {
    if Files(EMPTY.disk) != [] { HeadIn(EMPTY.disk); }
    PushAppends(EMPTY.disk, LONELY, r);
    assert EMPTY.disk[LONELY := r] == map[LONELY := r];
  }

  lemma RunNext(cfg: Config, start: int, events: seq<Event>, e: Event)
    requires AllOrderly(cfg, start, events) && Orderly(Run(cfg, start, events), e)
    ensures Run(cfg, start, events + [e]) == Step(cfg, Run(cfg, start, events), e)
    ensures AllOrderly(cfg, start, events + [e])
    ensures Losing(events + [e]) == Losing(events) + if e.Crash? && e.cut.InDrain? && e.cut.left then 1 else 0
  {
    LastOf(events, e);
  }

  lemma LastOf(events: seq<Event>, e: Event)
    ensures (events + [e])[..|events + [e]| - 1] == events && (events + [e])[|events + [e]| - 1] == e
  {
  }

  lemma FirstBuffered() returns (events: seq<Event>)
    ensures AllOrderly(SMALL, 0, events) && Run(SMALL, 0, events) == OneBuffered() && Losing(events) == 0
  {
    var r, w := Report(0, "a"), Moment(1, false);
    events := [];
    RunNext(SMALL, 0, events, Submit("a", w));
    events := events + [Submit("a", w)];
    OneFile(r);
    assert Written(EMPTY, r, 1) == EMPTY.(counter := 1, disk := map[LONELY := r]);
    assert Pushed(SMALL, EMPTY, r, w) == Written(EMPTY, r, 1);
    assert NextBackoff(SMALL, 0) == 1;
  }

  /** Buffered, resent, and left behind by a crash; then resent again. */
  lemma AcknowledgedTwice() returns (events: seq<Event>)
    ensures AllOrderly(SMALL, 0, events) && Losing(events) == 1
    ensures BooksOf(Run(SMALL, 0, events).state).acked == [1, 0, 2, 0]
  {
    events := FirstBuffered();
    var crash := Crash("b", Moment(5, true), InDrain(0, true), 6);
    var again := Submit("c", Moment(7, true));
    OneFile(Report(0, "a"));
    RunNext(SMALL, 0, events, crash);
    events := events + [crash];
    LeftOnce(crash);
    RunNext(SMALL, 0, events, again);
    events := events + [again];
    ResentTwice(again);
  }

  function Acked(id: nat, body: string, buffered: bool): Ack { Ack(Report(id, body), buffered) }

  function LeftOver(): Sys {
    Sys(State(map[LONELY := Report(0, "a")], 0, 0, None, History([Acked(1, "b", false), Acked(0, "a", true)], [], [])),
        2, 6, [0], 0)
  }

  lemma LeftOnce(crash: Event)
    requires crash == Crash("b", Moment(5, true), InDrain(0, true), 6)
    ensures Step(SMALL, OneBuffered(), crash) == LeftOver()
  {
    var s, r, w := OneBuffered().state, Report(1, "b"), Moment(5, true);
    OneFile(Report(0, "a"));
    var acked := [Acked(1, "b", false)];
    assert [] + acked == acked;
    assert Sent(s, r) == s.(backoff := 0, notBefore := None, history := History(acked, [], []));
    assert acked + [Acked(0, "a", true)] == [Acked(1, "b", false), Acked(0, "a", true)];
  }

  lemma ResentTwice(again: Event)
    requires again == Submit("c", Moment(7, true))
    ensures Map(Step(SMALL, LeftOver(), again).state.history.acked, AckId) == [1, 0, 2, 0]
  {
    var s, w := LeftOver().state, Moment(7, true);
    var t := Sent(s, Report(2, "c"));
    OneFile(Report(0, "a"));
    assert [LONELY][1..] == [];
    assert Drained(SMALL, t, [LONELY], w) == Resent(t, LONELY, w.removable);
  }

  // ---- backoff ----

  /** Submissions that all start before the backoff is over. */
  ghost predicate AllInBackoff(events: seq<Event>, until: int) {
    forall i :: 0 <= i < |events| ==> events[i].Submit? && events[i].w.now < until
  }

  ghost function RunOn(cfg: Config, y: Sys, events: seq<Event>): Sys {
    if events == [] then y else Step(cfg, RunOn(cfg, y, events[..|events| - 1]), events[|events| - 1])
  }

  lemma {:induction false} RemovingAcksNothing(s: State, names: seq<Name>, removable: Name -> bool)
    ensures var t := RemoveAll(s, names, removable);
      t.history.acked == s.history.acked && t.notBefore == s.notBefore && t.backoff == s.backoff
  {
    if names != [] { RemovingAcksNothing(s, names[..|names| - 1], removable); }
  }

  lemma PushingAcksNothing(cfg: Config, s: State, r: Report, w: World)
    ensures var t := Pushed(cfg, s, r, w);
      t.history.acked == s.history.acked && t.notBefore == s.notBefore && t.backoff == s.backoff
  {
    if w.dirOk && w.writeOk {
      var t := Written(s, r, w.pushedAt);
      var names := Files(t.disk);
      if |names| > cfg.maxFiles { RemovingAcksNothing(t, names[..|names| - cfg.maxFiles], w.removable); }
    }
  }

  /** Until a backoff is over nothing reaches the intake and the backoff stays as it is, whatever is submitted. */
  lemma {:induction false} QuietInBackoff(cfg: Config, y: Sys, events: seq<Event>, until: int)
    requires y.state.notBefore == Some(until) && AllInBackoff(events, until)
    ensures var z := RunOn(cfg, y, events).state;
      z.history.acked == y.state.history.acked && z.notBefore == Some(until) && z.backoff == y.state.backoff
  {
    if events != [] {
      var before, e := events[..|events| - 1], events[|events| - 1];
      QuietInBackoff(cfg, y, before, until);
      var z := RunOn(cfg, y, before);
      PushingAcksNothing(cfg, z.state, Report(z.submitted, e.body), e.w);
    }
  }
}
