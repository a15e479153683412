/** The apply and delete pipelines: stage, test, promote, reload, record, roll back. */
module ApplyServer {
  import opened Text
  import opened Payload
  import opened Dump
  import opened ConfDir

  datatype Reply =
    | Noop
    | Reloaded(revision: int)
    | StaleRevision(applied: int)
    | DomainClaimed(contested: Option<string>)
    | LegacyServerName(domain: string)
    | Invalid
    | Unavailable
    | NotFound
    | Deleted

  /** The text the template renders from a payload. */
  type Template = Payload -> string

  /** What the outside world answers while one request holds the apply mutex:
      the dump, the outcome of every fallible step, and nginx's verdict on a
      staged directory. */
  datatype World = World(
    dump: Option<string>,
    renders: bool,
    overlayMade: bool,
    unlisted: bool,
    unreadable: set<string>,
    unwritable: set<string>,
    staged: bool,
    test: Dir -> bool,
    written: bool,
    reloads: bool,
    restores: bool)
  {
    function Faults(): CopyFaults { CopyFaults(unlisted, unreadable, unwritable) }
  }

  /** The directory and the three maps. */
  datatype State = State(dir: Dir, applied: map<string, int>, keys: set<string>, owners: map<string, string>)

  // ---- domain collisions ----

  predicate ClaimedElsewhere(owners: map<string, string>, domains: seq<string>, ref: string) {
    exists i :: 0 <= i < |domains| && domains[i] in owners && owners[domains[i]] != ref
  }

  function Unknown(owners: map<string, string>, domains: seq<string>): seq<string> {
    if domains == [] then []
    else (if domains[0] in owners then [] else [domains[0]]) + Unknown(owners, domains[1..])
  }

  /** The verdict of the dump on one domain nobody is known to own. */
  function DumpVerdict(blocks: seq<FileBlock>, domain: string, ref: string): Option<Reply> {
    match Owner(blocks, domain)
    case None => None
    case Some(owner) =>
      if !owner.managed then Some(LegacyServerName(domain))
      else if owner.app != ref then Some(DomainClaimed(Some(domain)))
      else None
  }

  function DumpVerdicts(blocks: seq<FileBlock>, domains: seq<string>, ref: string): Option<Reply> {
    if domains == [] then None
    else
      var first := DumpVerdict(blocks, domains[0], ref);
      if first != None then first else DumpVerdicts(blocks, domains[1..], ref)
  }

  function Collision(owners: map<string, string>, p: Payload, dump: Option<string>): Option<Reply> {
    var unknown := Unknown(owners, p.domains);
    if ClaimedElsewhere(owners, p.domains, p.pipelineRef) then Some(DomainClaimed(None))
    else if unknown == [] then None
    else if dump == None then Some(Unavailable)
    else DumpVerdicts(Blocks(dump.value), unknown, p.pipelineRef)
  }

  // ---- apply, up to the promoted file and from there on ----

  datatype Begun = Refused(reply: Reply) | Promoted(dir: Dir, backup: Option<string>)

  function AppliedRevision(s: State, repo: string): int {
    if repo in s.applied then s.applied[repo] else 0
  }

  function ReadFile(dir: Dir, name: string, unreadable: set<string>): Option<string> {
    if name in dir && name !in unreadable then Some(dir[name]) else None
  }

  /** The refusals that need no staging. */
  function Preflight(s: State, p: Payload, w: World): Option<Reply> {
    if p.idempotencyKey in s.keys then Some(Noop)
    else if p.revision <= AppliedRevision(s, p.repo) then Some(StaleRevision(AppliedRevision(s, p.repo)))
    else Collision(s.owners, p, w.dump)
  }

  /** Render, stage, test, and replace the live file. The directory nginx tests
      has the new file in place of the old one and every other file as it is. */
  function StageFile(dir: Dir, name: string, text: string, w: World): Begun {
    if !w.renders then Refused(Invalid)
    else if !w.overlayMade then Refused(Unavailable)
    else if !Copies(dir, name, w.Faults()) then Refused(Unavailable)
    else if !w.staged then Refused(Unavailable)
    else if !w.test(CopyOf(dir, name)[name := text]) then Refused(Invalid)
    else if !w.written then Refused(Unavailable)
    else Promoted(dir[name := text], ReadFile(dir, name, w.unreadable))
  }

  /** Everything up to the atomic replacement of the live file. */
  function Begin(s: State, p: Payload, template: Template, w: World): Begun {
    var refusal := Preflight(s, p, w);
    if refusal != None then Refused(refusal.value) else StageFile(s.dir, p.ConfFileName(), template(p), w)
  }

  /** Put the previous file back, or remove the new one; either may fail. */
  function RollBack(dir: Dir, name: string, backup: Option<string>, w: World): Dir {
    if !w.restores then dir
    else if backup != None then dir[name := backup.value]
    else dir - {name}
  }

  function Claim(owners: map<string, string>, domains: seq<string>, ref: string): map<string, string> {
    if domains == [] then owners
    else Claim(owners, domains[..|domains| - 1], ref)[domains[|domains| - 1] := ref]
  }

  function Record(s: State, p: Payload): State {
    s.(applied := s.applied[p.repo := p.revision],
       keys := s.keys + {p.idempotencyKey},
       owners := Claim(s.owners, p.domains, p.pipelineRef))
  }

  /** From the promoted file to the reply. `s.dir` already holds the new file. */
  function Finish(s: State, p: Payload, backup: Option<string>, w: World): (State, Reply) {
    if !w.reloads then (s.(dir := RollBack(s.dir, p.ConfFileName(), backup, w)), Unavailable)
    else (Record(s, p), Reloaded(p.revision))
  }

  function Apply(s: State, p: Payload, template: Template, w: World): (State, Reply) {
    match Begin(s, p, template, w)
    case Refused(reply) => (s, reply)
    case Promoted(dir, backup) => Finish(s.(dir := dir), p, backup, w)
  }

  // ---- delete ----

  const MANAGED_PREFIX := "# managed-by:"

  datatype DeleteBegun = NotDeleted(reply: Reply) | Removed(dir: Dir, content: string)

  function BeginDelete(s: State, ref: string, w: World): DeleteBegun {
    var name := ref + ".conf";
    match ReadFile(s.dir, name, w.unreadable)
    case None => NotDeleted(NotFound)
    case Some(content) =>
      if !HasPrefix(content, MANAGED_PREFIX) then NotDeleted(Invalid)
      else if !w.overlayMade then NotDeleted(Unavailable)
      else if !Copies(s.dir, name, w.Faults()) then NotDeleted(Unavailable)
      else if !w.test(CopyOf(s.dir, name)) then NotDeleted(Invalid)
      else if !w.written then NotDeleted(Unavailable)
      else Removed(s.dir - {name}, content)
  }

  function Release(owners: map<string, string>, ref: string): map<string, string> {
    map d | d in owners && owners[d] != ref :: owners[d]
  }

  function FinishDelete(s: State, ref: string, content: string, w: World): (State, Reply) {
    if !w.reloads then (if w.restores then s.(dir := s.dir[ref + ".conf" := content]) else s, Unavailable)
    else (s.(applied := s.applied - {ref}, owners := Release(s.owners, ref)), Deleted)
  }

  function Delete(s: State, ref: string, w: World): (State, Reply) {
    match BeginDelete(s, ref, w)
    case NotDeleted(reply) => (s, reply)
    case Removed(dir, content) => FinishDelete(s.(dir := dir), ref, content, w)
  }

  /** The listener's mutable state. Both methods run under its apply mutex. */
  class Server {
    const template: Template
    var dir: Dir
    var applied: map<string, int>
    var keys: set<string>
    var owners: map<string, string>

    ghost function View(): State
      reads this
    {
      State(dir, applied, keys, owners)
    }

    /** A fresh process: the directory is what it finds, the maps are empty. */
    constructor (dir: Dir, template: Template)
      ensures View() == State(dir, map[], {}, map[]) && this.template == template
    {
      this.dir, this.template := dir, template;
      applied, keys, owners := map[], {}, map[];
    }

    method CheckDomainCollision(p: Payload, dump: Option<string>) returns (reply: Option<Reply>)
      ensures reply == Collision(owners, p, dump)
      ensures reply != None ==> !reply.value.Reloaded?
    {
      var unknown: seq<string> := [];
      for i := 0 to |p.domains|
        invariant !ClaimedElsewhere(owners, p.domains[..i], p.pipelineRef)
        invariant unknown == Unknown(owners, p.domains[..i])
      {
        UnknownGrows(owners, p.domains, i);
        ClaimedGrows(owners, p.domains, i, p.pipelineRef);
        var d := p.domains[i];
        if d in owners && owners[d] != p.pipelineRef {
          return Some(DomainClaimed(None));
        }
        if d !in owners { unknown := unknown + [d]; }
      }
      assert p.domains[..|p.domains|] == p.domains;
      if |unknown| == 0 { return None; }
      if dump == None { return Some(Unavailable); }
      for i := 0 to |unknown|
        invariant DumpVerdicts(Blocks(dump.value), unknown, p.pipelineRef) ==
          DumpVerdicts(Blocks(dump.value), unknown[i..], p.pipelineRef)
      {
        assert unknown[i..][1..] == unknown[i + 1..];
        var owner := FindDomainOwner(dump.value, unknown[i]);
        if owner == None { continue; }
        if !owner.value.managed { return Some(LegacyServerName(unknown[i])); }
        if owner.value.app != p.pipelineRef { return Some(DomainClaimed(Some(unknown[i]))); }
      }
      return None;
    }

    method Check(p: Payload, w: World) returns (refusal: Option<Reply>)
      ensures refusal == Preflight(View(), p, w)
      ensures refusal != None ==> !refusal.value.Reloaded?
    {
      if p.idempotencyKey in keys { return Some(Noop); }
      var appliedRev := if p.repo in applied then applied[p.repo] else 0;
      if p.revision <= appliedRev { return Some(StaleRevision(appliedRev)); }
      refusal := CheckDomainCollision(p, w.dump);
    }

    /** From the rendered text to the tested overlay. Nothing is changed. */
    method Stage(name: string, rendered: string, w: World) returns (begun: Begun)
      ensures begun == StageFile(dir, name, rendered, w)
    {
      if !w.renders { return Refused(Invalid); }
      if !w.overlayMade { return Refused(Unavailable); }
      var overlay := CopyConfTree(dir, name, w.Faults());
      if overlay == None { return Refused(Unavailable); }
      if !w.staged { return Refused(Unavailable); }
      if !w.test(overlay.value[name := rendered]) { return Refused(Invalid); }
      var backup := ReadFile(dir, name, w.unreadable);
      if !w.written { return Refused(Unavailable); }
      return Promoted(dir[name := rendered], backup);
    }

    /** `runApplyLocked`: check, replace the file, reload, and record or roll back. */
    method RunApply(p: Payload, w: World) returns (reply: Reply)
      modifies this
      ensures (View(), reply) == Apply(old(View()), p, template, w)
      ensures reply.Reloaded? ==>
        && p.idempotencyKey !in old(keys) && reply.revision == p.revision
        && p.revision > AppliedRevision(old(View()), p.repo)
      ensures reply.Reloaded? ==> var name := p.ConfFileName();
        w.test(CopyOf(old(dir), name)[name := template(p)]) && dir == old(dir)[name := template(p)]
      ensures !reply.Reloaded? ==> applied == old(applied) && keys == old(keys) && owners == old(owners)
    {
      var refusal := Check(p, w);
      if refusal != None { return refusal.value; }
      var name := p.ConfFileName();
      var begun := Stage(name, template(p), w);
      if begun.Refused? { return begun.reply; }
      dir := begun.dir;
      if !w.reloads {
        if w.restores {
          dir := if begun.backup != None then dir[name := begun.backup.value] else dir - {name};
        }
        return Unavailable;
      }
      applied := applied[p.repo := p.revision];
      keys := keys + {p.idempotencyKey};
      ClaimDomains(p.domains, p.pipelineRef);
      return Reloaded(p.revision);
    }

    method ClaimDomains(domains: seq<string>, ref: string)
      modifies this`owners
      ensures owners == Claim(old(owners), domains, ref)
    {
      for i := 0 to |domains|
        invariant owners == Claim(old(owners), domains[..i], ref)
      {
        assert domains[..i + 1][..i] == domains[..i];
        owners := owners[domains[i] := ref];
      }
      assert domains[..|domains|] == domains;
    }

    /** `deleteApp`. */
    method DeleteApp(ref: string, w: World) returns (reply: Reply)
      modifies this
      ensures (View(), reply) == Delete(old(View()), ref, w)
      ensures reply == Deleted ==> w.test(CopyOf(old(dir), ref + ".conf")) && dir == old(dir) - {ref + ".conf"}
      ensures reply == Deleted ==> ref !in applied && ref !in owners.Values
      ensures reply != Deleted ==> applied == old(applied) && owners == old(owners)
      ensures reply != Deleted && w.restores ==> dir == old(dir)
    {
      var name := ref + ".conf";
      var content := ReadFile(dir, name, w.unreadable);
      if content == None { return NotFound; }
      if !HasPrefix(content.value, MANAGED_PREFIX) { return Invalid; }
      if !w.overlayMade { return Unavailable; }
      var overlay := CopyConfTree(dir, name, w.Faults());
      if overlay == None { return Unavailable; }
      if !w.test(overlay.value) { return Invalid; }
      if !w.written { return Unavailable; }
      dir := dir - {name};
      if !w.reloads {
        if w.restores { dir := dir[name := content.value]; }
        return Unavailable;
      }
      applied := applied - {ref};
      var domains := owners.Keys;
      while domains != {}
        invariant domains <= old(owners).Keys
        invariant owners == map d | d in old(owners) && (d in domains || old(owners)[d] != ref) :: old(owners)[d]
        invariant dir == old(dir) - {name} && applied == old(applied) - {ref} && keys == old(keys)
        decreases domains
      {
        var d :| d in domains;
        domains := domains - {d};
        if owners[d] == ref { owners := owners - {d}; }
      }
      assert owners == Release(old(owners), ref);
      return Deleted;
    }
  }

  lemma UnknownGrows(owners: map<string, string>, domains: seq<string>, i: nat)
    requires i < |domains|
    ensures Unknown(owners, domains[..i + 1]) ==
      Unknown(owners, domains[..i]) + if domains[i] in owners then [] else [domains[i]]
  {
    TakeGrow(domains, i);
    UnknownConcat(owners, domains[..i], [domains[i]]);
    UnknownOne(owners, domains[i]);
  }

  lemma UnknownOne(owners: map<string, string>, d: string)
    ensures Unknown(owners, [d]) == if d in owners then [] else [d]
  {
    assert Unknown(owners, [d][1..]) == [];
  }

  lemma ClaimedGrows(owners: map<string, string>, domains: seq<string>, i: nat, ref: string)
    requires i < |domains|
    requires !ClaimedElsewhere(owners, domains[..i], ref)
    ensures ClaimedElsewhere(owners, domains[..i + 1], ref) <==> domains[i] in owners && owners[domains[i]] != ref
    ensures ClaimedElsewhere(owners, domains[..i + 1], ref) ==> ClaimedElsewhere(owners, domains, ref)
  {
    var more := domains[..i + 1];
    assert forall k :: 0 <= k < i ==> more[k] == domains[..i][k];
    assert more[i] == domains[i];
  }

  lemma {:induction false} UnknownConcat(owners: map<string, string>, a: seq<string>, b: seq<string>)
    ensures Unknown(owners, a + b) == Unknown(owners, a) + Unknown(owners, b)
  {
    if a == [] {
      assert a + b == b;
    } else {
      UnknownConcat(owners, a[1..], b);
      assert (a + b)[1..] == a[1..] + b;
      assert (a + b)[0] == a[0];
    }
  }
}
