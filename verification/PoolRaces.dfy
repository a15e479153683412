/** Two pool requests at once. The handler takes no lock, so their steps interleave. */
module PoolRaces {
  import opened Text
  import opened PoolToggle
  import opened PoolToggleProofs
  import opened InventoryProofs
  import opened InventoryToggles

  /** The edit a request makes, if it has something to change, and whether a text shows its pool as asked. */
  datatype Tools = Tools(edit: (string, Request) -> Option<string>, shows: (string, Request) -> bool)

  function EditOf(conf: string, r: Request): Option<string> {
    var t := Toggle(conf, r.pool, r.down);
    if t.Toggled? && t.changed > 0 then Some(t.config) else None
  }

  predicate ShownAsAsked(conf: string, r: Request) { IsDown(conf, r.pool) == (r.down, true) }

  /** The handler's own. */
  function Handler(): Tools { Tools((conf, r) => EditOf(conf, r), (conf, r) => ShownAsAsked(conf, r)) }

  /** How far a request has got. `Ended` says whether it was told of a success. */
  datatype Phase = Idle | HasRead(original: string) | HasWritten(original: string) | Ended(done: bool)

  /** The file and the two requests in flight. */
  datatype Sys = Sys(conf: string, first: Phase, second: Phase)

  /** A request reads the file; writes its edit; and, once nginx has taken it,
      reads again, and restores what it read first unless its pool is as asked. */
  datatype Action = Take | Put | Check

  datatype Event = First(action: Action) | Second(action: Action)

  /** One step of one request, in which nothing fails: the file and the request's
      phase after it. A step that is not its next one changes nothing. */
  function Act(tools: Tools, r: Request, conf: string, phase: Phase, action: Action): (string, Phase) {
    match action
    case Take => (conf, if phase == Idle then HasRead(conf) else phase)
    case Put =>
      if !phase.HasRead? then (conf, phase)
      else
        var edited := tools.edit(phase.original, r);
        if edited == None then (conf, Ended(false)) else (edited.value, HasWritten(phase.original))
    case Check =>
      if !phase.HasWritten? then (conf, phase)
      else if tools.shows(conf, r) then (conf, Ended(true)) else (phase.original, Ended(false))
  }

  function Step(tools: Tools, a: Request, b: Request, y: Sys, e: Event): Sys {
    match e
    case First(action) => var t := Act(tools, a, y.conf, y.first, action); Sys(t.0, t.1, y.second)
    case Second(action) => var t := Act(tools, b, y.conf, y.second, action); Sys(t.0, y.first, t.1)
  }

  function Run(tools: Tools, a: Request, b: Request, y: Sys, events: seq<Event>): Sys
    decreases |events|
  {
    if events == [] then y else Run(tools, a, b, Step(tools, a, b, y, events[0]), events[1..])
  }

  function Asked(tools: Tools, conf: string, r: Request): string {
    var edited := tools.edit(conf, r);
    if edited == None then conf else edited.value
  }

  /** The request has something to change in the text, and the edited text shows it. */
  predicate Effective(tools: Tools, conf: string, r: Request) {
    tools.edit(conf, r) != None && tools.shows(Asked(tools, conf, r), r)
  }

  // ---- both read before either writes ----

  /** The request read `conf` and has not yet ended, or has ended. */
  predicate ReadOf(phase: Phase, conf: string) {
    phase == HasRead(conf) || phase == HasWritten(conf) || phase.Ended?
  }

  /** The file holds neither change, or only one of the two. */
  predicate OneAtMost(tools: Tools, y: Sys, conf: string, a: Request, b: Request) {
    && ReadOf(y.first, conf) && ReadOf(y.second, conf)
    && (y.conf == conf || y.conf == Asked(tools, conf, a) || y.conf == Asked(tools, conf, b))
  }

  lemma StepKeepsOne(tools: Tools, conf: string, a: Request, b: Request, y: Sys, e: Event)
    requires OneAtMost(tools, y, conf, a, b)
    ensures OneAtMost(tools, Step(tools, a, b, y, e), conf, a, b)
  {
  }

  lemma {:induction false} OverlapKeepsOne(tools: Tools, conf: string, a: Request, b: Request, y: Sys,
                                           events: seq<Event>)
    requires OneAtMost(tools, y, conf, a, b)
    ensures OneAtMost(tools, Run(tools, a, b, y, events), conf, a, b)
    decreases |events|
  {
    if events != [] {
      StepKeepsOne(tools, conf, a, b, y, events[0]);
      OverlapKeepsOne(tools, conf, a, b, Step(tools, a, b, y, events[0]), events[1..]);
    }
  }

  // ---- one reads after the other has written ----

  /** The first has written and the second has read that, or gone on from there. */
  predicate BothToCome(tools: Tools, y: Sys, conf: string, a: Request, b: Request) {
    var mid := Asked(tools, conf, a);
    && (y.first == HasWritten(conf) || y.first == Ended(true))
    && if y.second == HasRead(mid) then y.conf == mid
       else (y.second == HasWritten(mid) || y.second == Ended(true)) && y.conf == Asked(tools, mid, b)
  }

  /** Both edits change something and are shown, and the second leaves the first one's pool as it is. */
  predicate Independent(tools: Tools, conf: string, a: Request, b: Request) {
    var mid := Asked(tools, conf, a);
    Effective(tools, conf, a) && Effective(tools, mid, b) && tools.shows(Asked(tools, mid, b), a)
  }

  lemma StepKeepsBoth(tools: Tools, conf: string, a: Request, b: Request, y: Sys, e: Event)
    requires Independent(tools, conf, a, b) && BothToCome(tools, y, conf, a, b)
    ensures BothToCome(tools, Step(tools, a, b, y, e), conf, a, b)
  {
  }

  lemma {:induction false} RunKeepsBoth(tools: Tools, conf: string, a: Request, b: Request, y: Sys,
                                        events: seq<Event>)
    requires Independent(tools, conf, a, b) && BothToCome(tools, y, conf, a, b)
    ensures BothToCome(tools, Run(tools, a, b, y, events), conf, a, b)
    decreases |events|
  {
    if events != [] {
      StepKeepsBoth(tools, conf, a, b, y, events[0]);
      RunKeepsBoth(tools, conf, a, b, Step(tools, a, b, y, events[0]), events[1..]);
    }
  }

  // ---- an update lost without a word ----

  lemma RunMore(tools: Tools, a: Request, b: Request, y: Sys, e: Event, rest: seq<Event>)
    ensures Run(tools, a, b, y, [e] + rest) == Run(tools, a, b, Step(tools, a, b, y, e), rest)
  {
    ConsTail(e, rest);
  }

  function Later(): seq<Event> {
    [First(Put)] + ([First(Check)] + ([Second(Put)] + ([Second(Check)] + [])))
  }

  /** Both read, then each writes and checks. */
  function Overlapping(): seq<Event> { [First(Take)] + ([Second(Take)] + Later()) }

  lemma OverlapIs(tools: Tools, a: Request, b: Request, conf: string)
    requires Effective(tools, conf, a) && Effective(tools, conf, b)
    ensures Run(tools, a, b, Sys(conf, Idle, Idle), Overlapping()) ==
      Sys(Asked(tools, conf, b), Ended(true), Ended(true))
  {
    RunMore(tools, a, b, Sys(conf, Idle, Idle), First(Take), [Second(Take)] + Later());
    RunMore(tools, a, b, Sys(conf, HasRead(conf), Idle), Second(Take), Later());
    LaterIs(tools, a, b, conf);
  }

  lemma LaterIs(tools: Tools, a: Request, b: Request, conf: string)
    requires Effective(tools, conf, a) && Effective(tools, conf, b)
    ensures Run(tools, a, b, Sys(conf, HasRead(conf), HasRead(conf)), Later()) ==
      Sys(Asked(tools, conf, b), Ended(true), Ended(true))
  {
    var mid, end := Asked(tools, conf, a), Asked(tools, conf, b);
    RunMore(tools, a, b, Sys(conf, HasRead(conf), HasRead(conf)), First(Put),
            [First(Check)] + ([Second(Put)] + ([Second(Check)] + [])));
    RunMore(tools, a, b, Sys(mid, HasWritten(conf), HasRead(conf)), First(Check),
            [Second(Put)] + ([Second(Check)] + []));
    RunMore(tools, a, b, Sys(mid, Ended(true), HasRead(conf)), Second(Put), [Second(Check)] + []);
    RunMore(tools, a, b, Sys(end, Ended(true), HasWritten(conf)), Second(Check), []);
  }

  // ---- the handler ----

  lemma HandlerIs(conf: string, r: Request)
    ensures Handler().edit(conf, r) == EditOf(conf, r) && Handler().shows(conf, r) == ShownAsAsked(conf, r)
  {
  }

  lemma {:induction false} EditIsToggle(conf: string, r: Request)
    requires EditOf(conf, r) != None
    ensures Asked(Handler(), conf, r) == Applied(conf, r.pool, r.down)
  {
    HandlerIs(conf, r);
  }

  /** An edit of a pool that keeps a server is shown, and leaves every other pool's position as it was. */
  lemma {:induction false} EditShows(conf: string, r: Request)
    requires EditOf(conf, r) != None && KeepsServer(conf, r.pool, r.down)
    ensures Effective(Handler(), conf, r)
  {
    HandlerIs(conf, r);
    ReadBack(conf, r.pool, r.down);
    HandlerIs(Asked(Handler(), conf, r), r);
  }

  lemma {:induction false} OthersKept(conf: string, r: Request, other: string)
    requires LaidOut(conf) && IsName(r.pool) && IsName(other) && r.pool != other && EditOf(conf, r) != None
    ensures IsDown(Asked(Handler(), conf, r), other) == IsDown(conf, other)
    ensures LaidOut(Asked(Handler(), conf, r))
  {
    EditIsToggle(conf, r);
    OthersPosition(conf, r.pool, r.down, other);
    ToggleMovesOne(conf, r.pool, r.down);
  }

  /** Two requests for different pools of a laid-out text. */
  ghost predicate TwoPools(conf: string, a: Request, b: Request) {
    LaidOut(conf) && IsName(a.pool) && IsName(b.pool) && a.pool != b.pool
  }

  /** Once both have read the same text, then in whatever order their writes and
      checks come, and at every moment, one of the two pools is where it was. */
  lemma {:induction false} OverlapNeverBoth(conf: string, a: Request, b: Request, events: seq<Event>)
    requires TwoPools(conf, a, b) && EditOf(conf, a) != None && EditOf(conf, b) != None
    ensures var end := Run(Handler(), a, b, Sys(conf, HasRead(conf), HasRead(conf)), events).conf;
      IsDown(end, a.pool) == IsDown(conf, a.pool) || IsDown(end, b.pool) == IsDown(conf, b.pool)
  {
    OverlapKeepsOne(Handler(), conf, a, b, Sys(conf, HasRead(conf), HasRead(conf)), events);
    OthersKept(conf, a, b.pool);
    OthersKept(conf, b, a.pool);
  }

  /** And both can be told of a success while the first one's change is lost. */
  lemma {:induction false} OverlapLosesUpdate(conf: string, a: Request, b: Request)
    requires TwoPools(conf, a, b)
    requires EditOf(conf, a) != None && KeepsServer(conf, a.pool, a.down)
    requires EditOf(conf, b) != None && KeepsServer(conf, b.pool, b.down)
    ensures var end := Run(Handler(), a, b, Sys(conf, Idle, Idle), Overlapping());
      && end.first == Ended(true) && end.second == Ended(true)
      && IsDown(end.conf, a.pool) == IsDown(conf, a.pool)
  {
    EditShows(conf, a);
    EditShows(conf, b);
    OverlapIs(Handler(), a, b, conf);
    OthersKept(conf, b, a.pool);
  }

  /** When one reads what the other has written, then in whatever order the rest
      comes nothing is restored: whoever has ended was told of a success, and when
      both have ended both pools are as asked. */
  lemma {:induction false} InTurnKeepsBoth(conf: string, a: Request, b: Request, events: seq<Event>)
    requires TwoPools(conf, a, b) && EditOf(conf, a) != None && KeepsServer(conf, a.pool, a.down)
    requires var mid := Applied(conf, a.pool, a.down);
      EditOf(mid, b) != None && KeepsServer(mid, b.pool, b.down)
    ensures var mid := Applied(conf, a.pool, a.down);
      var end := Run(Handler(), a, b, Sys(mid, HasWritten(conf), HasRead(mid)), events);
      && end.first != Ended(false) && end.second != Ended(false)
      && (end.second.Ended? ==> ShownAsAsked(end.conf, a) && ShownAsAsked(end.conf, b))
  {
    var mid := Applied(conf, a.pool, a.down);
    EditIsToggle(conf, a);
    EditShows(conf, a);
    EditShows(mid, b);
    OthersKept(conf, a, b.pool);
    OthersKept(mid, b, a.pool);
    StillShown(conf, a, b);
    RunKeepsBoth(Handler(), conf, a, b, Sys(mid, HasWritten(conf), HasRead(mid)), events);
    HandlerIs(Asked(Handler(), mid, b), a);
    HandlerIs(Asked(Handler(), mid, b), b);
  }

  lemma {:induction false} StillShown(conf: string, a: Request, b: Request)
    requires var mid := Asked(Handler(), conf, a);
      && Effective(Handler(), conf, a) && Effective(Handler(), mid, b)
      && IsDown(Asked(Handler(), mid, b), a.pool) == IsDown(mid, a.pool)
    ensures Independent(Handler(), conf, a, b)
  {
    var mid := Asked(Handler(), conf, a);
    HandlerIs(mid, a);
    HandlerIs(Asked(Handler(), mid, b), a);
  }
}
