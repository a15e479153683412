/** Coalescing the applies of one application: one caller leads, the others
    wait for its result, and the newest payload wins. */
module ApplySlot {
  import opened Text
  import opened Payload
  import opened ApplyServer
  import ApplyRuns

  type Caller = nat

  /** A copied payload. The leader compares copies by identity, not by content. */
  datatype Job = Job(id: nat, payload: Payload)

  datatype Slot = Slot(running: bool, latest: Option<Job>, waiters: seq<Caller>)

  const IDLE := Slot(false, None, [])

  datatype Entry = QueueFull | Waits | Leads

  // ---- the critical sections of `submit`, as functions ----

  function Enter(slot: Slot, job: Job, caller: Caller, maxQueueLen: nat): (Slot, Entry) {
    if slot.running then
      if |slot.waiters| >= maxQueueLen then (slot, QueueFull)
      else
        var newest := slot.latest == None || job.payload.revision > slot.latest.value.payload.revision;
        (slot.(latest := if newest then Some(job) else slot.latest, waiters := slot.waiters + [caller]), Waits)
    else (slot.(running := true, latest := Some(job)), Leads)
  }

  /** The waiters to answer, if the job that ran is still the newest. */
  function Settle(slot: Slot, job: Job): (Slot, Option<seq<Caller>>) {
    if slot.latest == Some(job) then (IDLE, Some(slot.waiters)) else (slot, None)
  }

  /** The slot itself. Each method runs under its mutex. */
  class AppSlot {
    var running: bool
    var latest: Option<Job>
    var waiters: seq<Caller>

    ghost function View(): Slot
      reads this
    {
      Slot(running, latest, waiters)
    }

    constructor ()
      ensures View() == IDLE
    {
      running, latest, waiters := false, None, [];
    }

    method Join(job: Job, caller: Caller, maxQueueLen: nat) returns (entry: Entry)
      modifies this
      ensures (View(), entry) == Enter(old(View()), job, caller, maxQueueLen)
    {
      if running {
        if |waiters| >= maxQueueLen { return QueueFull; }
        if latest == None || job.payload.revision > latest.value.payload.revision {
          latest := Some(job);
        }
        waiters := waiters + [caller];
        return Waits;
      }
      running := true;
      latest := Some(job);
      return Leads;
    }

    method Newest() returns (job: Option<Job>)
      ensures job == View().latest
    {
      return latest;
    }

    method Close(job: Job) returns (answered: Option<seq<Caller>>)
      modifies this
      ensures (View(), answered) == Settle(old(View()), job)
    {
      if latest == Some(job) {
        answered := Some(waiters);
        running, latest, waiters := false, None, [];
      } else {
        answered := None;
      }
    }
  }

  // ---- every interleaving of the callers of one application ----

  datatype Leader = Reading | Running(job: Job) | Settling(job: Job, reply: Reply)

  /** `sent` is the revision each caller brought, `answers` what it has been
      told, `runs` how often the current tenure has executed the pipeline. */
  datatype Sys = Sys(
    slot: Slot,
    leaders: map<Caller, Leader>,
    sent: map<Caller, int>,
    answers: map<Caller, seq<Reply>>,
    nextId: nat,
    runs: nat)

  datatype Event =
    | Submit(caller: Caller, p: Payload)
    | Read(caller: Caller)
    | Ran(caller: Caller, reply: Reply)
    | Close(caller: Caller)

  const START := Sys(IDLE, map[], map[], map[], 0, 0)

  function Told(answers: map<Caller, seq<Reply>>, who: seq<Caller>, reply: Reply): map<Caller, seq<Reply>> {
    map c | c in answers :: if c in who then answers[c] + [reply] else answers[c]
  }

  function SubmitStep(sys: Sys, caller: Caller, p: Payload, maxQueueLen: nat): Sys {
    if caller in sys.sent then sys
    else
      var (slot, entry) := Enter(sys.slot, Job(sys.nextId, p), caller, maxQueueLen);
      var known := sys.(slot := slot, sent := sys.sent[caller := p.revision],
                        answers := sys.answers[caller := []], nextId := sys.nextId + 1);
      match entry
      case QueueFull => known.(answers := sys.answers[caller := [Unavailable]])
      case Waits => known
      case Leads => known.(leaders := sys.leaders[caller := Reading], runs := 0)
  }

  function ReadStep(sys: Sys, caller: Caller): Sys {
    if caller in sys.leaders && sys.leaders[caller] == Reading && sys.slot.latest != None then
      sys.(leaders := sys.leaders[caller := Running(sys.slot.latest.value)], runs := sys.runs + 1)
    else sys
  }

  function RanStep(sys: Sys, caller: Caller, reply: Reply): Sys {
    if caller in sys.leaders && sys.leaders[caller].Running? then
      sys.(leaders := sys.leaders[caller := Settling(sys.leaders[caller].job, reply)])
    else sys
  }

  function CloseStep(sys: Sys, caller: Caller): Sys {
    if caller in sys.leaders && sys.leaders[caller].Settling? then
      var (slot, answered) := Settle(sys.slot, sys.leaders[caller].job);
      match answered
      case None => sys.(leaders := sys.leaders[caller := Reading])
      case Some(waiters) =>
        sys.(slot := slot, leaders := sys.leaders - {caller},
             answers := Told(sys.answers, waiters + [caller], sys.leaders[caller].reply))
    else sys
  }

  function Step(sys: Sys, e: Event, maxQueueLen: nat): Sys {
    match e
    case Submit(caller, p) => SubmitStep(sys, caller, p, maxQueueLen)
    case Read(caller) => ReadStep(sys, caller)
    case Ran(caller, reply) => RanStep(sys, caller, reply)
    case Close(caller) => CloseStep(sys, caller)
  }

  function Run(sys: Sys, events: seq<Event>, maxQueueLen: nat): Sys
    decreases |events|
  {
    if events == [] then sys else Run(Step(sys, events[0], maxQueueLen), events[1..], maxQueueLen)
  }

  /** A pipeline that reports an apply reports the revision it was given. */
  ghost predicate Honest(job: Job, reply: Reply) {
    reply.Reloaded? ==> reply.revision == job.payload.revision
  }

  ghost predicate Allowed(sys: Sys, e: Event) {
    e.Ran? && e.caller in sys.leaders && sys.leaders[e.caller].Running? ==> Honest(sys.leaders[e.caller].job, e.reply)
  }

  ghost predicate Admissible(sys: Sys, events: seq<Event>, maxQueueLen: nat)
    decreases |events|
  {
    events == [] || (Allowed(sys, events[0]) && Admissible(Step(sys, events[0], maxQueueLen), events[1..], maxQueueLen))
  }

  // ---- invariants ----

  /** The slot runs exactly while there is a leader, and there is never a second one. An idle slot is empty. */
  ghost predicate OneLeader(sys: Sys) {
    && (forall c, d :: c in sys.leaders && d in sys.leaders ==> c == d)
    && (sys.slot.running <==> exists c :: c in sys.leaders)
    && (!sys.slot.running ==> sys.slot == IDLE)
    && (sys.slot.running ==> sys.slot.latest != None && sys.slot.latest.value.id < sys.nextId)
  }

  /** Leading or waiting. */
  ghost predicate Pending(sys: Sys, c: Caller) { c in sys.leaders || c in sys.slot.waiters }

  /** A caller is pending or has been answered once, never both. */
  ghost predicate AnsweredOnce(sys: Sys) {
    && sys.answers.Keys == sys.sent.Keys
    && (forall c :: Pending(sys, c) ==> c in sys.sent)
    && (forall c :: c in sys.answers ==> |sys.answers[c]| == if Pending(sys, c) then 0 else 1)
    && (forall i, j :: 0 <= i < j < |sys.slot.waiters| ==> sys.slot.waiters[i] != sys.slot.waiters[j])
    && (forall i :: 0 <= i < |sys.slot.waiters| ==> sys.slot.waiters[i] !in sys.leaders)
  }

  /** The newest job has the highest revision among the pending callers, and one of them brought it. */
  ghost predicate NewestIsHighest(sys: Sys) {
    sys.slot.latest != None ==>
      && (forall c :: Pending(sys, c) && c in sys.sent ==> sys.sent[c] <= sys.slot.latest.value.payload.revision)
      && (exists c :: Pending(sys, c) && c in sys.sent && sys.sent[c] == sys.slot.latest.value.payload.revision)
  }

  /** A leader's job is a copy that existed, and copies with one identity are one copy. */
  ghost predicate JobsKnown(sys: Sys) {
    forall c :: c in sys.leaders && !sys.leaders[c].Reading? ==>
      && sys.leaders[c].job.id < sys.nextId
      && (sys.leaders[c].Settling? ==> Honest(sys.leaders[c].job, sys.leaders[c].reply))
  }

  /** Nobody is told an older revision than the one it sent. */
  ghost predicate NeverStale(sys: Sys) {
    forall c, i :: c in sys.answers && c in sys.sent && 0 <= i < |sys.answers[c]| && sys.answers[c][i].Reloaded? ==>
      sys.answers[c][i].revision >= sys.sent[c]
  }

  /** Runs still owed to the newest job: one, unless the leader already has it. */
  ghost function Owed(sys: Sys, c: Caller): nat
    requires c in sys.leaders
  {
    if sys.leaders[c].Reading? || sys.slot.latest != Some(sys.leaders[c].job) then 1 else 0
  }

  /** Every run beyond the first was caused by a waiter of this tenure. */
  ghost predicate RunsBounded(sys: Sys, maxQueueLen: nat) {
    && |sys.slot.waiters| <= maxQueueLen
    && sys.runs <= 1 + maxQueueLen
    && forall c :: c in sys.leaders ==> sys.runs + Owed(sys, c) <= 1 + |sys.slot.waiters|
  }

  ghost predicate Inv(sys: Sys, maxQueueLen: nat) {
    && OneLeader(sys) && AnsweredOnce(sys) && NewestIsHighest(sys)
    && JobsKnown(sys) && NeverStale(sys) && RunsBounded(sys, maxQueueLen)
  }

  /** A step that leaves the slot, the answers and who leads alone keeps who is pending. */
  lemma SamePending(sys: Sys, next: Sys)
    requires OneLeader(sys) && AnsweredOnce(sys) && NewestIsHighest(sys) && NeverStale(sys)
    requires next.slot == sys.slot && next.sent == sys.sent && next.answers == sys.answers && next.nextId == sys.nextId
    requires next.leaders.Keys == sys.leaders.Keys
    ensures OneLeader(next) && AnsweredOnce(next) && NewestIsHighest(next) && NeverStale(next)
  {
    forall c ensures (c in next.leaders <==> c in sys.leaders) && (Pending(next, c) <==> Pending(sys, c)) {
      assert c in next.leaders.Keys <==> c in sys.leaders.Keys;
    }
    if sys.slot.running {
      var c :| c in sys.leaders;
      assert c in next.leaders;
    }
    if sys.slot.latest != None {
      var c :| Pending(sys, c) && c in sys.sent && sys.sent[c] == sys.slot.latest.value.payload.revision;
      assert Pending(next, c);
    }
  }

  lemma SubmitKeeps(sys: Sys, caller: Caller, p: Payload, maxQueueLen: nat)
    requires Inv(sys, maxQueueLen)
    ensures Inv(SubmitStep(sys, caller, p, maxQueueLen), maxQueueLen)
  {
    if caller !in sys.sent {
      assert !Pending(sys, caller);
      if sys.slot.running && |sys.slot.waiters| >= maxQueueLen {
        FullKeeps(sys, caller, p, maxQueueLen, SubmitStep(sys, caller, p, maxQueueLen));
      } else if sys.slot.running {
        WaitKeeps(sys, caller, p, maxQueueLen, SubmitStep(sys, caller, p, maxQueueLen));
      } else {
        LeadKeeps(sys, caller, p, maxQueueLen, SubmitStep(sys, caller, p, maxQueueLen));
      }
    }
  }

  lemma FullKeeps(sys: Sys, caller: Caller, p: Payload, maxQueueLen: nat, next: Sys)
    requires Inv(sys, maxQueueLen) && caller !in sys.sent && sys.slot.running && |sys.slot.waiters| >= maxQueueLen
    requires next == SubmitStep(sys, caller, p, maxQueueLen)
    ensures Inv(next, maxQueueLen)
  {
    assert forall c :: Pending(next, c) == Pending(sys, c);
  }

  lemma WaitKeeps(sys: Sys, caller: Caller, p: Payload, maxQueueLen: nat, next: Sys)
    requires Inv(sys, maxQueueLen) && caller !in sys.sent && sys.slot.running && |sys.slot.waiters| < maxQueueLen
    requires next == SubmitStep(sys, caller, p, maxQueueLen)
    ensures Inv(next, maxQueueLen)
  {
    assert next.slot.waiters == sys.slot.waiters + [caller];
    assert forall c :: Pending(next, c) <==> Pending(sys, c) || c == caller;
    assert Pending(next, caller);
  }

  lemma LeadKeeps(sys: Sys, caller: Caller, p: Payload, maxQueueLen: nat, next: Sys)
    requires Inv(sys, maxQueueLen) && caller !in sys.sent && !sys.slot.running
    requires next == SubmitStep(sys, caller, p, maxQueueLen)
    ensures Inv(next, maxQueueLen)
  {
    assert forall c :: Pending(next, c) <==> c == caller;
    assert Pending(next, caller);
  }

  lemma ReadKeeps(sys: Sys, caller: Caller, maxQueueLen: nat)
    requires Inv(sys, maxQueueLen)
    ensures Inv(ReadStep(sys, caller), maxQueueLen)
  {
    SamePending(sys, ReadStep(sys, caller));
  }

  lemma RanKeeps(sys: Sys, caller: Caller, reply: Reply, maxQueueLen: nat)
    requires Inv(sys, maxQueueLen) && Allowed(sys, Ran(caller, reply))
    ensures Inv(RanStep(sys, caller, reply), maxQueueLen)
  {
    SamePending(sys, RanStep(sys, caller, reply));
  }

  lemma CloseKeeps(sys: Sys, caller: Caller, maxQueueLen: nat)
    requires Inv(sys, maxQueueLen)
    ensures Inv(CloseStep(sys, caller), maxQueueLen)
  {
    var next := CloseStep(sys, caller);
    if next.leaders.Keys == sys.leaders.Keys {
      assert forall c :: Pending(next, c) == Pending(sys, c);
    } else {
      assert forall c :: !Pending(next, c);
      assert forall c :: Pending(sys, c) <==> c in sys.slot.waiters + [caller];
    }
  }

  lemma {:induction false} RunKeeps(sys: Sys, events: seq<Event>, maxQueueLen: nat)
    requires Inv(sys, maxQueueLen) && Admissible(sys, events, maxQueueLen)
    ensures Inv(Run(sys, events, maxQueueLen), maxQueueLen)
    decreases |events|
  {
    if events != [] {
      match events[0] {
        case Submit(caller, p) => SubmitKeeps(sys, caller, p, maxQueueLen);
        case Read(caller) => ReadKeeps(sys, caller, maxQueueLen);
        case Ran(caller, reply) => RanKeeps(sys, caller, reply, maxQueueLen);
        case Close(caller) => CloseKeeps(sys, caller, maxQueueLen);
      }
      RunKeeps(Step(sys, events[0], maxQueueLen), events[1..], maxQueueLen);
    }
  }

  // ---- what every interleaving guarantees ----

  /** At most one leader, and a slot nobody leads holds no waiter and no payload. */
  lemma SingleLeader(events: seq<Event>, maxQueueLen: nat)
    requires Admissible(START, events, maxQueueLen)
    ensures OneLeader(Run(START, events, maxQueueLen))
  {
    RunKeeps(START, events, maxQueueLen);
  }

  /** No caller is ever told twice, and once the slot is idle every caller has been told exactly once. */
  lemma EveryCallerAnswered(events: seq<Event>, maxQueueLen: nat, c: Caller)
    requires Admissible(START, events, maxQueueLen) && c in Run(START, events, maxQueueLen).sent
    ensures var end := Run(START, events, maxQueueLen);
      c in end.answers && |end.answers[c]| <= 1 && (|end.answers[c]| == 0 <==> Pending(end, c)) &&
        (!end.slot.running ==> |end.answers[c]| == 1)
  {
    RunKeeps(START, events, maxQueueLen);
  }

  /** No caller is told `reloaded` at a revision below the one it sent. */
  lemma NoStaleSuccess(events: seq<Event>, maxQueueLen: nat, c: Caller, i: nat)
    requires Admissible(START, events, maxQueueLen)
    requires var end := Run(START, events, maxQueueLen);
      c in end.answers && c in end.sent && i < |end.answers[c]| && end.answers[c][i].Reloaded?
    ensures Run(START, events, maxQueueLen).answers[c][i].revision >= Run(START, events, maxQueueLen).sent[c]
  {
    RunKeeps(START, events, maxQueueLen);
  }

  /** The job whose result is broadcast has the highest revision of the tenure, and one of those it answers sent it. */
  lemma BroadcastIsHighest(events: seq<Event>, maxQueueLen: nat, leader: Caller)
    requires Admissible(START, events, maxQueueLen)
    requires var end := Run(START, events, maxQueueLen);
      leader in end.leaders && end.leaders[leader].Settling? && Settle(end.slot, end.leaders[leader].job).1 != None
    ensures var end := Run(START, events, maxQueueLen);
      var told := end.slot.waiters + [leader];
      && (forall i :: 0 <= i < |told| ==>
        told[i] in end.sent && end.sent[told[i]] <= end.leaders[leader].job.payload.revision)
      && (exists i ::
            0 <= i < |told| && told[i] in end.sent && end.sent[told[i]] == end.leaders[leader].job.payload.revision)
  {
    RunKeeps(START, events, maxQueueLen);
    var end := Run(START, events, maxQueueLen);
    var told := end.slot.waiters + [leader];
    assert forall i :: 0 <= i < |told| ==> Pending(end, told[i]);
    var c :| Pending(end, c) && c in end.sent && end.sent[c] == end.slot.latest.value.payload.revision;
    assert c in told by {
      if c in end.leaders { assert told[|told| - 1] == leader; }
    }
  }

  /** One tenure runs the pipeline at most once for its leader and once for each
      waiter it can hold, however many callers keep coming. */
  lemma TenureBounded(events: seq<Event>, maxQueueLen: nat)
    requires Admissible(START, events, maxQueueLen)
    ensures Run(START, events, maxQueueLen).runs <= 1 + maxQueueLen
  {
    RunKeeps(START, events, maxQueueLen);
  }

  /** The pipeline is honest: a success it reports is the payload's own revision. */
  lemma PipelineIsHonest(s: State, p: Payload, template: Template, w: World, id: nat)
    ensures Honest(Job(id, p), Apply(s, p, template, w).1)
  {
    ApplyRuns.RefusedIsNotApplied(s, p, template, w);
  }
}
