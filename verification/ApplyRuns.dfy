/** Whole runs of the listener: applies and deletes in any order, with every
    step allowed to fail, and crashes at any point. */
module ApplyRuns {
  import opened Text
  import opened Payload
  import Vhost
  import opened Dump
  import opened ConfDir
  import opened ApplyServer
  import RoundTrip

  /** What is fixed about a host: where the directory is, the configuration
      files outside it, the template and the library. */
  datatype Site = Site(root: string, others: seq<LoadedFile>, template: Template, lib: Library)

  /** The request that holds the apply mutex, if any, between its write and its reply. */
  datatype Busy = Idle | Applying(p: Payload, backup: Option<string>) | Deleting(ref: string, content: string)

  datatype Success = Success(repo: string, revision: int, key: string)

  /** `log` records the successful applies of the current process. */
  datatype Sys = Sys(state: State, busy: Busy, log: seq<Success>)

  datatype Event =
    | Start(p: Payload, w: World)
    | StartDelete(ref: string, w: World)
    | End(w: World)
    | Restart

  /** One step. A request that finds the mutex taken waits, which changes
      nothing. A crash may come at any point; the process that starts next
      finds the directory as it was left and knows nothing else. */
  function Step(sys: Sys, e: Event, template: Template): Sys {
    match e
    case Restart => Sys(State(sys.state.dir, map[], {}, map[]), Idle, [])
    case Start(p, w) =>
      if sys.busy != Idle then sys
      else (match Begin(sys.state, p, template, w)
        case Refused(_) => sys
        case Promoted(dir, backup) => Sys(sys.state.(dir := dir), Applying(p, backup), sys.log))
    case StartDelete(ref, w) =>
      if sys.busy != Idle then sys
      else (match BeginDelete(sys.state, ref, w)
        case NotDeleted(_) => sys
        case Removed(dir, content) => Sys(sys.state.(dir := dir), Deleting(ref, content), sys.log))
    case End(w) =>
      match sys.busy
      case Idle => sys
      case Applying(p, backup) =>
        Sys(Finish(sys.state, p, backup, w).0, Idle,
            if w.reloads then sys.log + [Success(p.repo, p.revision, p.idempotencyKey)] else sys.log)
      case Deleting(ref, content) =>
        Sys(FinishDelete(sys.state, ref, content, w).0, Idle, sys.log)
  }

  function Run(sys: Sys, events: seq<Event>, template: Template): Sys
    decreases |events|
  {
    if events == [] then sys else Run(Step(sys, events[0], template), events[1..], template)
  }

  // ---- what is assumed of a run ----

  ghost predicate Lists(files: seq<LoadedFile>, dir: Dir, site: Site) {
    && (forall name :: name in ConfFiles(dir) ==> LoadedFile(site.root + name, dir[name]) in files)
    && (forall f :: f in site.others ==> f in files)
    && (forall f :: f in files ==>
      f in site.others || exists name :: name in ConfFiles(dir) && f == LoadedFile(site.root + name, dir[name]))
  }

  /** The dump shows every loaded file, in some order. */
  ghost predicate Shows(dump: string, dir: Dir, site: Site) {
    exists files :: dump == DumpText(files) && Lists(files, dir, site)
  }

  ghost predicate Acceptable(p: Payload, lib: Library) {
    ValidPayload(p, lib) && forall i :: 0 <= i < |p.domains| ==> LowerCase(p.domains[i])
  }

  /** Only accepted payloads with lower-case domains are applied, only valid
      names are deleted, and a dump that can be taken shows every file. */
  ghost predicate Allowed(sys: Sys, e: Event, site: Site) {
    match e
    case Start(p, w) => Acceptable(p, site.lib) && (w.dump != None ==> Shows(w.dump.value, sys.state.dir, site))
    case StartDelete(ref, w) => RefOk(ref)
    case _ => true
  }

  ghost predicate Admissible(sys: Sys, events: seq<Event>, site: Site)
    decreases |events|
  {
    events == [] ||
      (Allowed(sys, events[0], site) && Admissible(Step(sys, events[0], site.template), events[1..], site))
  }

  /** A file that a dump shows as managed by the payload's application and declaring exactly the payload's domains. */
  ghost predicate Represents(text: string, p: Payload) {
    && Unmarked(Lines(text))
    && HeaderApp(Lines(text)) == Some(p.pipelineRef)
    && Names(text) == p.domains
  }

  ghost predicate Faithful(template: Template, lib: Library) {
    forall p: Payload :: ValidPayload(p, lib) ==> Represents(template(p), p)
  }

  /** The listener's template is such a template, whatever its comments say. */
  lemma RenderIsFaithful(notes: Vhost.Notes, lib: Library)
    requires Sound(lib) && Vhost.NotesOk(notes)
    ensures Faithful((p: Payload) => Vhost.Render(p, notes), lib)
  {
    forall p: Payload | ValidPayload(p, lib) ensures Represents(Vhost.Render(p, notes), p) {
      RoundTrip.BlockOfRender(p, lib, notes);
    }
  }

  ghost predicate SiteOk(site: Site) {
    && Faithful(site.template, site.lib)
    && NL !in site.root && site.root != ""
    && Every(site.others, Separable)
    && (forall i :: 0 <= i < |site.others| ==> HeaderApp(Lines(site.others[i].content)) == None)
  }

  // ---- who declares what ----

  function Names(content: string): seq<string> { NamesIn(Lines(content)) }

  ghost predicate DeclaredInDir(dir: Dir, except: string, d: string) {
    exists name :: name in dir && IsConfName(name) && name != except && Among(Names(dir[name]), d)
  }

  ghost predicate DeclaredElsewhere(site: Site, d: string) {
    exists i :: 0 <= i < |site.others| && Among(Names(site.others[i].content), d)
  }

  /** Some loaded file other than `except` declares `d`, in any case. */
  ghost predicate DeclaredOutside(dir: Dir, site: Site, except: string, d: string) {
    DeclaredInDir(dir, except, d) || DeclaredElsewhere(site, d)
  }

  /** No domain of a file in the directory is declared by another loaded file. */
  ghost predicate Disjoint(dir: Dir, site: Site) {
    forall name, i :: name in dir && IsConfName(name) && 0 <= i < |Names(dir[name])| ==>
      !DeclaredOutside(dir, site, name, Names(dir[name])[i])
  }

  /** A managed file is named after its own application, and every file can be told apart in a dump. */
  ghost predicate WellNamed(dir: Dir, site: Site) {
    forall name :: name in dir && IsConfName(name) ==>
      && Separable(LoadedFile(site.root + name, dir[name]))
      && (HeaderApp(Lines(dir[name])) != None ==> name == HeaderApp(Lines(dir[name])).value + ".conf")
  }

  ghost predicate FilesOk(dir: Dir, site: Site) { Disjoint(dir, site) && WellNamed(dir, site) }

  /** A recorded owner is the only file that declares the domain. */
  ghost predicate OwnersSound(dir: Dir, site: Site, owners: map<string, string>) {
    forall d :: d in owners ==> LowerCase(d) && !DeclaredOutside(dir, site, owners[d] + ".conf", d)
  }

  ghost predicate Good(dir: Dir, site: Site, owners: map<string, string>) {
    FilesOk(dir, site) && OwnersSound(dir, site, owners)
  }

  /** None of the payload's domains is declared outside its own file. */
  ghost predicate Claimable(dir: Dir, site: Site, p: Payload) {
    forall i :: 0 <= i < |p.domains| ==> !DeclaredOutside(dir, site, p.ConfFileName(), p.domains[i])
  }

  // ---- the collision check decides exactly that ----

  lemma AmongFold(names: seq<string>, d: string, e: string)
    requires EqualFold(d, e)
    ensures Among(names, d) <==> Among(names, e)
  {
  }

  lemma FilesSeparable(files: seq<LoadedFile>, dir: Dir, site: Site)
    requires Lists(files, dir, site) && SiteOk(site) && WellNamed(dir, site)
    ensures Every(files, Separable)
  {
    forall i | 0 <= i < |files| ensures Separable(files[i]) {
      assert files[i] in files;
    }
  }

  /** What the blocks of a complete dump say, file by file. */
  ghost predicate Tells(blocks: seq<FileBlock>, files: seq<LoadedFile>) {
    && |blocks| == |files|
    && forall i :: 0 <= i < |files| ==>
      && blocks[i].serverNames == Names(files[i].content)
      && (blocks[i].managed ==> HeaderApp(Lines(files[i].content)) == Some(blocks[i].app))
  }

  lemma DumpTells(files: seq<LoadedFile>)
    requires Every(files, Separable)
    ensures Tells(Blocks(DumpText(files)), files)
  {
    BlocksOfDump(files);
    forall i | 0 <= i < |files| ensures BlocksOfFiles(files)[i] == BlockOfFile(files[i]) {
    }
  }

  lemma NobodyDeclares(blocks: seq<FileBlock>, files: seq<LoadedFile>, dir: Dir, site: Site, d: string, except: string)
    requires Tells(blocks, files) && Lists(files, dir, site)
    requires forall i :: 0 <= i < |blocks| ==> !Among(blocks[i].serverNames, d)
    ensures !DeclaredOutside(dir, site, except, d)
  {
    forall f: LoadedFile | f in files ensures !Among(Names(f.content), d) {
      var i :| 0 <= i < |files| && files[i] == f;
      assert !Among(blocks[i].serverNames, d);
    }
    forall name | name in dir && IsConfName(name) ensures !Among(Names(dir[name]), d) {
      assert name in ConfFiles(dir);
      assert LoadedFile(site.root + name, dir[name]) in files;
    }
    forall i | 0 <= i < |site.others| ensures !Among(Names(site.others[i].content), d) {
      assert site.others[i] in files;
    }
  }

  lemma OneDeclares(blocks: seq<FileBlock>, files: seq<LoadedFile>, dir: Dir, site: Site, d: string, ref: string,
                    i: nat)
    requires SiteOk(site) && FilesOk(dir, site) && Lists(files, dir, site) && Tells(blocks, files)
    requires i < |blocks| && blocks[i].managed && blocks[i].app == ref && Among(blocks[i].serverNames, d)
    ensures !DeclaredOutside(dir, site, ref + ".conf", d)
  {
    OwnFile(files[i], dir, site, files, ref);
    OnlyFile(dir, site, ref + ".conf", d);
  }

  /** If the dump's first owner of a domain is acceptable, no other loaded file declares it. */
  lemma VerdictSound(dump: string, dir: Dir, site: Site, d: string, ref: string)
    requires SiteOk(site) && FilesOk(dir, site) && Shows(dump, dir, site)
    requires DumpVerdict(Blocks(dump), d, ref) == None
    ensures !DeclaredOutside(dir, site, ref + ".conf", d)
  {
    var files :| dump == DumpText(files) && Lists(files, dir, site);
    FilesSeparable(files, dir, site);
    DumpTells(files);
    var blocks := Blocks(dump);
    OwnerIs(blocks, d);
    if Owner(blocks, d) == None {
      NobodyDeclares(blocks, files, dir, site, d, ref + ".conf");
    } else {
      var i :| 0 <= i < |blocks| && blocks[i] == Owner(blocks, d).value;
      OneDeclares(blocks, files, dir, site, d, ref, i);
    }
  }

  lemma OwnFile(f: LoadedFile, dir: Dir, site: Site, files: seq<LoadedFile>, ref: string)
    requires SiteOk(site) && WellNamed(dir, site) && Lists(files, dir, site) && f in files
    requires HeaderApp(Lines(f.content)) == Some(ref)
    ensures ref + ".conf" in dir && IsConfName(ref + ".conf") && dir[ref + ".conf"] == f.content
  {
    assert f !in site.others;
  }

  lemma OnlyFile(dir: Dir, site: Site, name: string, d: string)
    requires Disjoint(dir, site) && name in dir && IsConfName(name) && Among(Names(dir[name]), d)
    ensures !DeclaredOutside(dir, site, name, d)
  {
    var i :| 0 <= i < |Names(dir[name])| && EqualFold(Names(dir[name])[i], d);
    var x := Names(dir[name])[i];
    assert !DeclaredOutside(dir, site, name, x);
    forall other | other in dir && IsConfName(other) && other != name ensures !Among(Names(dir[other]), d) {
      AmongFold(Names(dir[other]), d, x);
    }
    forall k | 0 <= k < |site.others| ensures !Among(Names(site.others[k].content), d) {
      AmongFold(Names(site.others[k].content), d, x);
    }
  }

  lemma {:induction false} VerdictsNone(blocks: seq<FileBlock>, domains: seq<string>, ref: string, i: nat)
    requires i < |domains| && DumpVerdicts(blocks, domains, ref) == None
    ensures DumpVerdict(blocks, domains[i], ref) == None
  {
    if i > 0 { VerdictsNone(blocks, domains[1..], ref, i - 1); }
  }

  lemma {:induction false} UnknownHas(owners: map<string, string>, domains: seq<string>, i: nat) returns (k: nat)
    requires i < |domains| && domains[i] !in owners
    ensures k < |Unknown(owners, domains)| && Unknown(owners, domains)[k] == domains[i]
  {
    if i == 0 {
      k := 0;
    } else {
      k := UnknownHas(owners, domains[1..], i - 1);
      if domains[0] !in owners { k := k + 1; }
    }
  }

  /** An apply that passes the collision check may claim its domains. */
  lemma CollisionSound(s: State, p: Payload, site: Site, dump: Option<string>)
    requires SiteOk(site) && Good(s.dir, site, s.owners)
    requires dump != None ==> Shows(dump.value, s.dir, site)
    requires Collision(s.owners, p, dump) == None
    ensures Claimable(s.dir, site, p)
  {
    forall i | 0 <= i < |p.domains| ensures !DeclaredOutside(s.dir, site, p.ConfFileName(), p.domains[i]) {
      var d := p.domains[i];
      if d in s.owners {
        assert s.owners[d] == p.pipelineRef;
      } else {
        var k := UnknownHas(s.owners, p.domains, i);
        VerdictsNone(Blocks(dump.value), Unknown(s.owners, p.domains), p.pipelineRef, k);
        VerdictSound(dump.value, s.dir, site, d, p.pipelineRef);
      }
    }
  }

  // ---- the directory stays good ----

  /** Only the excepted file changed, so what is declared outside it did not. */
  lemma OutsideSame(dir: Dir, dir': Dir, site: Site, name: string, d: string)
    requires dir - {name} == dir' - {name}
    ensures DeclaredOutside(dir, site, name, d) == DeclaredOutside(dir', site, name, d)
  {
    forall other | other != name
      ensures (other in dir <==> other in dir') && (other in dir ==> dir[other] == dir'[other])
    {
      assert other in dir - {name} <==> other in dir' - {name};
      assert other in dir ==> (dir - {name})[other] == dir[other];
      assert other in dir' ==> (dir' - {name})[other] == dir'[other];
    }
  }

  /** A name declared by the new file and by another one would have stopped the apply. */
  lemma NewNamesElsewhere(dir: Dir, site: Site, p: Payload, other: string, d: string)
    requires Claimable(dir, site, p) && other in dir && IsConfName(other) && other != p.ConfFileName()
    requires Among(Names(dir[other]), d)
    ensures !Among(p.domains, d)
  {
    var names := Names(dir[other]);
    assert forall i :: 0 <= i < |p.domains| ==> !DeclaredInDir(dir, p.ConfFileName(), p.domains[i]);
    assert forall i :: 0 <= i < |p.domains| ==> !Among(names, p.domains[i]);
    AmongAnyCase(names, d);
  }

  lemma AmongAnyCase(names: seq<string>, d: string)
    ensures forall e :: EqualFold(e, d) ==> (Among(names, e) <==> Among(names, d))
  {
    forall e | EqualFold(e, d) ensures Among(names, e) <==> Among(names, d) { AmongFold(names, e, d); }
  }

  lemma LowerAmong(names: seq<string>, d: string)
    requires LowerCase(d) && forall i :: 0 <= i < |names| ==> LowerCase(names[i])
    ensures Among(names, d) ==> d in names
  {
  }

  lemma DisjointAfter(dir: Dir, dir': Dir, site: Site, p: Payload)
    requires Disjoint(dir, site) && Claimable(dir, site, p)
    requires p.ConfFileName() in dir' && dir - {p.ConfFileName()} == dir' - {p.ConfFileName()}
    requires Names(dir'[p.ConfFileName()]) == p.domains
    ensures Disjoint(dir', site)
  {
    var f := p.ConfFileName();
    forall name, i | name in dir' && IsConfName(name) && 0 <= i < |Names(dir'[name])|
      ensures !DeclaredOutside(dir', site, name, Names(dir'[name])[i])
    {
      var x := Names(dir'[name])[i];
      if name == f {
        OutsideSame(dir, dir', site, f, x);
      } else {
        OtherFile(dir, dir', f, name);
        assert Among(Names(dir[name]), x);
        NewNamesElsewhere(dir, site, p, name, x);
        assert !DeclaredOutside(dir, site, name, x);
        forall other | other in dir' && IsConfName(other) && other != name ensures !Among(Names(dir'[other]), x) {
          if other != f { OtherFile(dir, dir', f, other); }
        }
      }
    }
  }

  lemma OtherFile(dir: Dir, dir': Dir, f: string, name: string)
    requires dir - {f} == dir' - {f} && name != f
    ensures name in dir <==> name in dir'
    ensures name in dir ==> dir[name] == dir'[name]
  {
    assert name in dir - {f} <==> name in dir' - {f};
    assert name in dir ==> (dir - {f})[name] == dir[name];
    assert name in dir' ==> (dir' - {f})[name] == dir'[name];
  }

  lemma RefNameOk(ref: string)
    requires RefOk(ref)
    ensures IsConfName(ref + ".conf") && NL !in ref + ".conf"
  {
    assert (ref + ".conf")[|ref|..] == ".conf";
    assert (ref + ".conf")[0] == ref[0];
    DiffersAt(ref + ".conf", ".", 0);
  }

  lemma WellNamedWith(dir: Dir, site: Site, ref: string, content: string)
    requires WellNamed(dir, site)
    requires Separable(LoadedFile(site.root + (ref + ".conf"), content))
    requires HeaderApp(Lines(content)) == Some(ref)
    ensures WellNamed(dir[ref + ".conf" := content], site)
  {
  }

  lemma WellNamedAfter(dir: Dir, site: Site, p: Payload)
    requires SiteOk(site) && WellNamed(dir, site) && Acceptable(p, site.lib)
    ensures WellNamed(dir[p.ConfFileName() := site.template(p)], site)
  {
    assert Represents(site.template(p), p);
    RefNameOk(p.pipelineRef);
    WellNamedWith(dir, site, p.pipelineRef, site.template(p));
  }

  lemma NotClaimed(owners: map<string, string>, domains: seq<string>, ref: string, d: string)
    requires !ClaimedElsewhere(owners, domains, ref) && d in owners && owners[d] != ref
    ensures d !in domains
  {
  }

  lemma OwnersAfter(dir: Dir, dir': Dir, site: Site, p: Payload, owners: map<string, string>)
    requires OwnersSound(dir, site, owners)
    requires forall i :: 0 <= i < |p.domains| ==> LowerCase(p.domains[i])
    requires !ClaimedElsewhere(owners, p.domains, p.pipelineRef)
    requires p.ConfFileName() in dir' && dir - {p.ConfFileName()} == dir' - {p.ConfFileName()}
    requires Names(dir'[p.ConfFileName()]) == p.domains
    ensures OwnersSound(dir', site, owners)
  {
    var f := p.ConfFileName();
    forall d | d in owners ensures !DeclaredOutside(dir', site, owners[d] + ".conf", d) {
      var own := owners[d] + ".conf";
      assert !DeclaredOutside(dir, site, own, d);
      forall name | name in dir' && IsConfName(name) && name != own ensures !Among(Names(dir'[name]), d) {
        if name == f {
          LowerAmong(p.domains, d);
          NotClaimed(owners, p.domains, p.pipelineRef, d);
        } else {
          OtherFile(dir, dir', f, name);
        }
      }
    }
  }

  /** A promoted apply leaves a good directory, whatever becomes of it next. */
  lemma PromotedGood(s: State, p: Payload, site: Site, w: World)
    requires SiteOk(site) && Good(s.dir, site, s.owners) && Acceptable(p, site.lib)
    requires w.dump != None ==> Shows(w.dump.value, s.dir, site)
    requires Begin(s, p, site.template, w).Promoted?
    ensures Good(Begin(s, p, site.template, w).dir, site, s.owners)
    ensures Claimable(Begin(s, p, site.template, w).dir, site, p)
  {
    var dir' := s.dir[p.ConfFileName() := site.template(p)];
    CollisionSound(s, p, site, w.dump);
    assert Represents(site.template(p), p);
    SameRest(s.dir, p.ConfFileName(), site.template(p));
    DisjointAfter(s.dir, dir', site, p);
    WellNamedAfter(s.dir, site, p);
    OwnersAfter(s.dir, dir', site, p, s.owners);
    forall i | 0 <= i < |p.domains| ensures !DeclaredOutside(dir', site, p.ConfFileName(), p.domains[i]) {
      OutsideSame(s.dir, dir', site, p.ConfFileName(), p.domains[i]);
    }
  }

  lemma SameRest(dir: Dir, name: string, content: string)
    ensures dir - {name} == dir[name := content] - {name}
  {
  }

  /** Removing a file takes declarations away and adds none. */
  lemma RemovedGood(dir: Dir, site: Site, owners: map<string, string>, name: string)
    requires Good(dir, site, owners)
    ensures Good(dir - {name}, site, owners)
  {
    var dir' := dir - {name};
    forall except, d | !DeclaredOutside(dir, site, except, d) ensures !DeclaredOutside(dir', site, except, d) {
    }
    forall n, i | n in dir' && IsConfName(n) && 0 <= i < |Names(dir'[n])|
      ensures !DeclaredOutside(dir', site, n, Names(dir'[n])[i])
    {
      assert dir'[n] == dir[n];
      assert !DeclaredOutside(dir, site, n, Names(dir[n])[i]);
    }
  }

  lemma {:induction false} ClaimIs(owners: map<string, string>, domains: seq<string>, ref: string, d: string)
    ensures d in domains ==> d in Claim(owners, domains, ref) && Claim(owners, domains, ref)[d] == ref
    ensures d !in domains ==> (d in Claim(owners, domains, ref) <==> d in owners)
    ensures d !in domains && d in owners ==> Claim(owners, domains, ref)[d] == owners[d]
  {
    if domains != [] {
      ClaimIs(owners, domains[..|domains| - 1], ref, d);
      TakeGrow(domains, |domains| - 1);
    }
  }

  lemma ClaimedSound(dir: Dir, site: Site, owners: map<string, string>, p: Payload)
    requires OwnersSound(dir, site, owners) && Claimable(dir, site, p)
    requires forall i :: 0 <= i < |p.domains| ==> LowerCase(p.domains[i])
    ensures OwnersSound(dir, site, Claim(owners, p.domains, p.pipelineRef))
  {
    var claimed := Claim(owners, p.domains, p.pipelineRef);
    forall d | d in claimed ensures LowerCase(d) && !DeclaredOutside(dir, site, claimed[d] + ".conf", d) {
      ClaimIs(owners, p.domains, p.pipelineRef, d);
    }
  }

  // ---- no two files ever declare the same domain ----

  ghost predicate Inv(sys: Sys, site: Site) {
    && Good(sys.state.dir, site, sys.state.owners)
    && match sys.busy
       case Idle => true
       case Applying(p, backup) =>
         && Acceptable(p, site.lib)
         && Claimable(sys.state.dir, site, p)
         && (backup != None ==> Good(sys.state.dir[p.ConfFileName() := backup.value], site, sys.state.owners))
       case Deleting(ref, content) =>
         Good(sys.state.dir[ref + ".conf" := content], site, sys.state.owners)
  }

  ghost predicate Initial(sys: Sys, site: Site) {
    && FilesOk(sys.state.dir, site)
    && sys == Sys(State(sys.state.dir, map[], {}, map[]), Idle, [])
  }

  lemma RestartKeeps(sys: Sys, site: Site)
    requires Inv(sys, site)
    ensures Inv(Step(sys, Restart, site.template), site)
  {
  }

  /** What a promotion means: the file replaced, the old one kept if it could be read, and the result tested. */
  lemma PromotedMeans(s: State, p: Payload, template: Template, w: World, name: string, text: string)
    requires Begin(s, p, template, w).Promoted? && name == p.ConfFileName() && text == template(p)
    ensures Begin(s, p, template, w) == Promoted(s.dir[name := text], ReadFile(s.dir, name, w.unreadable))
    ensures w.test(CopyOf(s.dir, name)[name := text])
  {
  }

  /** The backup of a promoted apply is the file it replaced. */
  lemma BackupIsPrevious(s: State, p: Payload, template: Template, w: World)
    requires Begin(s, p, template, w).Promoted?
    ensures var b := Begin(s, p, template, w);
      b.backup != None ==> b.dir[p.ConfFileName() := b.backup.value] == s.dir
  {
    PromotedMeans(s, p, template, w, p.ConfFileName(), template(p));
    PutBackRead(s.dir, p.ConfFileName(), template(p), w.unreadable);
  }

  lemma PutBackRead(dir: Dir, name: string, content: string, unreadable: set<string>)
    ensures var backup := ReadFile(dir, name, unreadable);
      backup != None ==> dir[name := content][name := backup.value] == dir
  {
    if ReadFile(dir, name, unreadable) != None { PutBack(dir, name, content); }
  }

  lemma PutBack(dir: Dir, name: string, content: string)
    requires name in dir
    ensures dir[name := content][name := dir[name]] == dir
  {
  }

  lemma ApplyingInv(sys: Sys, p: Payload, dir': Dir, backup: Option<string>, site: Site)
    requires Inv(sys, site) && Acceptable(p, site.lib)
    requires Good(dir', site, sys.state.owners) && Claimable(dir', site, p)
    requires backup != None ==> dir'[p.ConfFileName() := backup.value] == sys.state.dir
    ensures Inv(Sys(sys.state.(dir := dir'), Applying(p, backup), sys.log), site)
  {
  }

  lemma StartKeeps(sys: Sys, p: Payload, w: World, site: Site)
    requires SiteOk(site) && Inv(sys, site) && Allowed(sys, Start(p, w), site)
    ensures Inv(Step(sys, Start(p, w), site.template), site)
  {
    var b := Begin(sys.state, p, site.template, w);
    if sys.busy == Idle && b.Promoted? {
      PromotedGood(sys.state, p, site, w);
      BackupIsPrevious(sys.state, p, site.template, w);
      ApplyingInv(sys, p, b.dir, b.backup, site);
    }
  }

  lemma StartDeleteKeeps(sys: Sys, ref: string, w: World, site: Site)
    requires Inv(sys, site)
    ensures Inv(Step(sys, StartDelete(ref, w), site.template), site)
  {
    if sys.busy == Idle && BeginDelete(sys.state, ref, w).Removed? {
      RemovedGood(sys.state.dir, site, sys.state.owners, ref + ".conf");
      assert (sys.state.dir - {ref + ".conf"})[ref + ".conf" := sys.state.dir[ref + ".conf"]] == sys.state.dir;
    }
  }

  lemma EndKeeps(sys: Sys, w: World, site: Site)
    requires Inv(sys, site)
    ensures Inv(Step(sys, End(w), site.template), site)
  {
    match sys.busy
    case Idle =>
    case Applying(p, backup) => EndApplyKeeps(sys, w, site, p, backup);
    case Deleting(ref, content) => EndDeleteKeeps(sys, w, site, ref, content);
  }

  lemma EndApplyKeeps(sys: Sys, w: World, site: Site, p: Payload, backup: Option<string>)
    requires Inv(sys, site) && sys.busy == Applying(p, backup)
    ensures Inv(Step(sys, End(w), site.template), site)
  {
    if w.reloads {
      ClaimedSound(sys.state.dir, site, sys.state.owners, p);
    } else {
      RemovedGood(sys.state.dir, site, sys.state.owners, p.ConfFileName());
    }
  }

  lemma EndDeleteKeeps(sys: Sys, w: World, site: Site, ref: string, content: string)
    requires Inv(sys, site) && sys.busy == Deleting(ref, content)
    ensures Inv(Step(sys, End(w), site.template), site)
  {
  }

  lemma StepKeeps(sys: Sys, e: Event, site: Site)
    requires SiteOk(site) && Inv(sys, site) && Allowed(sys, e, site)
    ensures Inv(Step(sys, e, site.template), site)
  {
    match e
    case Start(p, w) => StartKeeps(sys, p, w, site);
    case StartDelete(ref, w) => StartDeleteKeeps(sys, ref, w, site);
    case End(w) => EndKeeps(sys, w, site);
    case Restart => RestartKeeps(sys, site);
  }

  lemma {:induction false} RunKeeps(sys: Sys, events: seq<Event>, site: Site)
    requires SiteOk(site) && Inv(sys, site) && Admissible(sys, events, site)
    ensures Inv(Run(sys, events, site.template), site)
    decreases |events|
  {
    if events != [] {
      StepKeeps(sys, events[0], site);
      RunKeeps(Step(sys, events[0], site.template), events[1..], site);
    }
  }

  /** Starting from files with disjoint names, no reachable state, not even one
      between a write and its bookkeeping or after a crash there, has a domain
      of a file in the directory declared by any other loaded file. */
  lemma DomainsStayDisjoint(sys: Sys, events: seq<Event>, site: Site)
    requires SiteOk(site) && Initial(sys, site) && Admissible(sys, events, site)
    ensures Disjoint(Run(sys, events, site.template).state.dir, site)
    ensures OwnersSound(Run(sys, events, site.template).state.dir, site, Run(sys, events, site.template).state.owners)
  {
    RunKeeps(sys, events, site);
  }

  // ---- revisions and idempotency keys ----

  /** No key twice, and increasing revisions within a repository. */
  ghost predicate LogOk(log: seq<Success>) {
    && (forall i, j :: 0 <= i < j < |log| ==> log[i].key != log[j].key)
    && (forall i, j :: 0 <= i < j < |log| && log[i].repo == log[j].repo ==> log[i].revision < log[j].revision)
  }

  ghost predicate KeysOk(log: seq<Success>, keys: set<string>) {
    forall i :: 0 <= i < |log| ==> log[i].key in keys
  }

  /** The recorded revision of a repository is the highest one applied. */
  ghost predicate AppliedOk(log: seq<Success>, applied: map<string, int>) {
    && (forall i :: 0 <= i < |log| ==> log[i].repo in applied && log[i].revision <= applied[log[i].repo])
    && (forall r :: r in applied ==> RepoOk(r) && Reached(log, r, applied[r]))
  }

  ghost predicate Reached(log: seq<Success>, repo: string, revision: int) {
    exists i :: 0 <= i < |log| && log[i].repo == repo && log[i].revision == revision
  }

  ghost predicate History(sys: Sys) {
    && LogOk(sys.log) && KeysOk(sys.log, sys.state.keys) && AppliedOk(sys.log, sys.state.applied)
    && match sys.busy
       case Applying(p, _) =>
         RepoOk(p.repo) && p.revision > 0 && p.revision > AppliedRevision(sys.state, p.repo) &&
           p.idempotencyKey !in sys.state.keys
       case Deleting(ref, _) => RefOk(ref)
       case Idle => true
  }

  /** A valid repository has a slash and a valid reference has none, so deleting
      an application never touches a repository's revision. */
  lemma RefIsNoRepo(ref: string)
    requires RefOk(ref)
    ensures !RepoOk(ref)
  {
    assert forall i :: 0 <= i < |ref| ==> ref[i] != '/';
    IndexIs(ref, '/');
  }

  lemma LogGrows(log: seq<Success>, keys: set<string>, applied: map<string, int>, x: Success)
    requires LogOk(log) && KeysOk(log, keys) && AppliedOk(log, applied)
    requires x.key !in keys && x.revision > (if x.repo in applied then applied[x.repo] else 0)
    ensures LogOk(log + [x]) && KeysOk(log + [x], keys + {x.key})
  {
    var more := log + [x];
    assert forall i :: 0 <= i < |log| ==> more[i] == log[i];
  }

  lemma AppliedGrows(log: seq<Success>, applied: map<string, int>, x: Success)
    requires AppliedOk(log, applied) && RepoOk(x.repo)
    requires x.revision > (if x.repo in applied then applied[x.repo] else 0)
    ensures AppliedOk(log + [x], applied[x.repo := x.revision])
  {
    var more, after := log + [x], applied[x.repo := x.revision];
    assert more[|log|] == x;
    forall r | r in after ensures Reached(more, r, after[r]) {
      if r != x.repo { ReachedStays(log, x, r, applied[r]); }
    }
  }

  lemma ReachedStays(log: seq<Success>, x: Success, repo: string, revision: int)
    requires Reached(log, repo, revision)
    ensures Reached(log + [x], repo, revision)
  {
    var i :| 0 <= i < |log| && log[i].repo == repo && log[i].revision == revision;
    assert (log + [x])[i] == log[i];
  }

  lemma BeginFresh(s: State, p: Payload, template: Template, w: World)
    requires Begin(s, p, template, w).Promoted?
    ensures p.idempotencyKey !in s.keys && p.revision > AppliedRevision(s, p.repo)
  {
  }

  lemma StartHistory(sys: Sys, p: Payload, w: World, site: Site)
    requires History(sys) && Allowed(sys, Start(p, w), site)
    ensures History(Step(sys, Start(p, w), site.template))
  {
    if sys.busy == Idle && Begin(sys.state, p, site.template, w).Promoted? {
      BeginFresh(sys.state, p, site.template, w);
    }
  }

  lemma EndHistory(sys: Sys, w: World, template: Template)
    requires History(sys)
    ensures History(Step(sys, End(w), template))
  {
    match sys.busy
    case Idle =>
    case Applying(p, backup) =>
      var x := Success(p.repo, p.revision, p.idempotencyKey);
      LogGrows(sys.log, sys.state.keys, sys.state.applied, x);
      AppliedGrows(sys.log, sys.state.applied, x);
    case Deleting(ref, content) =>
      RefIsNoRepo(ref);
      assert ref !in sys.state.applied;
      assert sys.state.applied - {ref} == sys.state.applied;
  }

  lemma StepHistory(sys: Sys, e: Event, site: Site)
    requires History(sys) && Allowed(sys, e, site)
    ensures History(Step(sys, e, site.template))
  {
    match e
    case Restart =>
    case Start(p, w) => StartHistory(sys, p, w, site);
    case StartDelete(ref, w) =>
    case End(w) => EndHistory(sys, w, site.template);
  }

  lemma {:induction false} RunHistory(sys: Sys, events: seq<Event>, site: Site)
    requires History(sys) && Admissible(sys, events, site)
    ensures History(Run(sys, events, site.template))
    decreases |events|
  {
    if events != [] {
      StepHistory(sys, events[0], site);
      RunHistory(Step(sys, events[0], site.template), events[1..], site);
    }
  }

  /** In one process lifetime, whatever was deleted meanwhile: the successful
      applies of a repository have increasing revisions, no idempotency key
      succeeds twice, and the recorded revision is the highest one applied. */
  lemma RevisionsIncrease(sys: Sys, events: seq<Event>, site: Site)
    requires Initial(sys, site) && Admissible(sys, events, site)
    ensures LogOk(Run(sys, events, site.template).log)
    ensures AppliedOk(Run(sys, events, site.template).log, Run(sys, events, site.template).state.applied)
  {
    RunHistory(sys, events, site);
  }

  // ---- what was tested is what is served, and failures leave no trace ----

  lemma OverlayIsFiles(dir: Dir, name: string, content: string)
    requires IsConfName(name)
    ensures ConfFiles(dir[name := content]) == CopyOf(dir, name)[name := content]
  {
  }

  /** The configuration files after a promotion, and after a removal, are exactly a set that passed nginx's test. */
  lemma TestedIsPromoted(s: State, p: Payload, template: Template, w: World)
    requires RefOk(p.pipelineRef) && Begin(s, p, template, w).Promoted?
    ensures w.test(ConfFiles(Begin(s, p, template, w).dir))
  {
    PromotedMeans(s, p, template, w, p.ConfFileName(), template(p));
    RefNameOk(p.pipelineRef);
    OverlayIsFiles(s.dir, p.ConfFileName(), template(p));
  }

  lemma TestedIsRemoved(s: State, ref: string, w: World)
    requires BeginDelete(s, ref, w).Removed?
    ensures w.test(ConfFiles(BeginDelete(s, ref, w).dir))
  {
    assert ConfFiles(s.dir - {ref + ".conf"}) == CopyOf(s.dir, ref + ".conf");
  }

  lemma RollBackRestores(dir: Dir, name: string, content: string, w: World, end: World)
    requires end.restores
    ensures RollBack(dir[name := content], name, ReadFile(dir, name, w.unreadable), end) == dir <==>
      name !in dir || name !in w.unreadable
  {
    var dir' := dir[name := content];
    if name !in dir {
      assert dir' - {name} == dir;
    } else if name !in w.unreadable {
      PutBack(dir, name, content);
    } else {
      assert name !in dir' - {name};
    }
  }

  // ---- a request that fails after its write, with other requests arriving meanwhile ----

  ghost predicate Arrives(e: Event) { e.Start? || e.StartDelete? }

  lemma {:induction false} OthersWait(sys: Sys, events: seq<Event>, template: Template)
    requires sys.busy != Idle && forall i :: 0 <= i < |events| ==> Arrives(events[i])
    ensures Run(sys, events, template) == sys
    decreases |events|
  {
    if events != [] {
      assert Arrives(events[0]);
      OthersWait(sys, events[1..], template);
    }
  }

  lemma {:induction false} RunThen(sys: Sys, events: seq<Event>, last: Event, template: Template)
    ensures Run(sys, events + [last], template) == Step(Run(sys, events, template), last, template)
    decreases |events|
  {
    if events == [] {
      RunOne(sys, events + [last], last, template);
    } else {
      assert (events + [last])[1..] == events[1..] + [last];
      RunThen(Step(sys, events[0], template), events[1..], last, template);
    }
  }

  lemma RunOne(sys: Sys, events: seq<Event>, e: Event, template: Template)
    requires events == [e]
    ensures Run(sys, events, template) == Step(sys, e, template)
  {
    assert Run(Step(sys, e, template), events[1..], template) == Step(sys, e, template);
  }

  /** A first request, then arrivals that wait, then its end: the two steps are all that counts. */
  lemma Bracketed(sys: Sys, first: Event, meanwhile: seq<Event>, last: Event, template: Template)
    requires Step(sys, first, template).busy != Idle && forall i :: 0 <= i < |meanwhile| ==> Arrives(meanwhile[i])
    ensures Run(sys, [first] + meanwhile + [last], template) == Step(Step(sys, first, template), last, template)
  {
    var events := [first] + meanwhile;
    assert events[1..] == meanwhile;
    OthersWait(Step(sys, first, template), meanwhile, template);
    RunThen(sys, events, last, template);
  }

  /** When nginx does not take a promoted file and the restoring write works, then
      whatever arrived meanwhile, the whole system is as before if and only if the
      file was new or the one it replaced could be read. */
  lemma FailedApplyRestores(sys: Sys, p: Payload, w: World, meanwhile: seq<Event>, end: World, template: Template)
    requires sys.busy == Idle && Begin(sys.state, p, template, w).Promoted?
    requires forall i :: 0 <= i < |meanwhile| ==> Arrives(meanwhile[i])
    requires !end.reloads && end.restores
    ensures Run(sys, [Start(p, w)] + meanwhile + [End(end)], template) == sys <==>
      p.ConfFileName() !in sys.state.dir || p.ConfFileName() !in w.unreadable
  {
    var name, text, dir := p.ConfFileName(), template(p), sys.state.dir;
    Bracketed(sys, Start(p, w), meanwhile, End(end), template);
    PromotedMeans(sys.state, p, template, w, name, text);
    RollBackRestores(dir, name, text, w, end);
    var after := Step(Step(sys, Start(p, w), template), End(end), template);
    var restored := RollBack(dir[name := text], name, ReadFile(dir, name, w.unreadable), end);
    assert after == Sys(sys.state.(dir := restored), Idle, sys.log);
  }

  lemma {:induction false} NoneUnknown(owners: map<string, string>, domains: seq<string>)
    requires forall i :: 0 <= i < |domains| ==> domains[i] in owners
    ensures Unknown(owners, domains) == []
  {
    if domains != [] { NoneUnknown(owners, domains[1..]); }
  }

  /** Every step works but the reload, and `name` alone cannot be read. */
  ghost function ReloadFails(name: string): World {
    World(None, true, true, false, {name}, {}, true, _ => true, true, false, true)
  }

  /** A failed apply that loses the application's file: it was there, could not be
      read for the backup, and is gone after the rollback. */
  lemma RollbackLosesFile(p: Payload, template: Template, previous: string)
    requires p.revision > 0
    ensures var name := p.ConfFileName();
      var s := State(map[name := previous], map[], {}, map d | d in p.domains :: p.pipelineRef);
      Apply(s, p, template, ReloadFails(name)) == (s.(dir := map[]), Unavailable)
  {
    var name := p.ConfFileName();
    var s := State(map[name := previous], map[], {}, map d | d in p.domains :: p.pipelineRef);
    NoneUnknown(s.owners, p.domains);
    assert Collision(s.owners, p, None) == None;
    assert CopyOf(s.dir, name) == map[];
    assert Begin(s, p, template, ReloadFails(name)).Promoted?;
    PromotedMeans(s, p, template, ReloadFails(name), name, template(p));
    assert s.dir[name := template(p)] - {name} == map[];
  }

  // ---- over whole runs, only tested sets are ever on disk ----

  ghost predicate TestsSet(e: Event, files: Dir) {
    match e
    case Start(_, w) => w.test(files)
    case StartDelete(_, w) => w.test(files)
    case _ => false
  }

  /** Valid references, and the file an apply replaces can be read if it exists. */
  ghost predicate Backed(e: Event) {
    e.Start? ==> RefOk(e.p.pipelineRef) && e.p.ConfFileName() !in e.w.unreadable
  }

  /** What is on disk, and what a rollback would put there, is acceptable. */
  ghost predicate DiskOk(sys: Sys, ok: Dir -> bool) {
    && ok(ConfFiles(sys.state.dir))
    && match sys.busy
       case Idle => true
       case Applying(p, None) => ok(ConfFiles(sys.state.dir - {p.ConfFileName()}))
       case Applying(p, Some(b)) => ok(ConfFiles(sys.state.dir[p.ConfFileName() := b]))
       case Deleting(ref, content) => ok(ConfFiles(sys.state.dir[ref + ".conf" := content]))
  }

  lemma StartDiskOk(sys: Sys, p: Payload, w: World, template: Template, ok: Dir -> bool)
    requires DiskOk(sys, ok) && Backed(Start(p, w)) && forall files :: w.test(files) ==> ok(files)
    ensures DiskOk(Step(sys, Start(p, w), template), ok)
  {
    var name, text := p.ConfFileName(), template(p);
    if sys.busy == Idle && Begin(sys.state, p, template, w).Promoted? {
      TestedIsPromoted(sys.state, p, template, w);
      PromotedMeans(sys.state, p, template, w, name, text);
      PutBackRead(sys.state.dir, name, text, w.unreadable);
      if name !in sys.state.dir { assert sys.state.dir[name := text] - {name} == sys.state.dir; }
    }
  }

  lemma StartDeleteDiskOk(sys: Sys, ref: string, w: World, template: Template, ok: Dir -> bool)
    requires DiskOk(sys, ok) && forall files :: w.test(files) ==> ok(files)
    ensures DiskOk(Step(sys, StartDelete(ref, w), template), ok)
  {
    var name := ref + ".conf";
    if sys.busy == Idle && BeginDelete(sys.state, ref, w).Removed? {
      TestedIsRemoved(sys.state, ref, w);
      assert (sys.state.dir - {name})[name := sys.state.dir[name]] == sys.state.dir;
    }
  }

  lemma EndDiskOk(sys: Sys, w: World, template: Template, ok: Dir -> bool)
    requires DiskOk(sys, ok)
    ensures DiskOk(Step(sys, End(w), template), ok)
  {
  }

  lemma {:induction false} RunDiskOk(sys: Sys, events: seq<Event>, template: Template, ok: Dir -> bool)
    requires DiskOk(sys, ok)
    requires forall i :: 0 <= i < |events| ==> Backed(events[i])
    requires forall i, files :: 0 <= i < |events| && TestsSet(events[i], files) ==> ok(files)
    ensures DiskOk(Run(sys, events, template), ok)
    decreases |events|
  {
    if events != [] {
      FirstDiskOk(sys, events[0], template, ok);
      assert forall i :: 0 <= i < |events[1..]| ==> events[1..][i] == events[i + 1];
      RunDiskOk(Step(sys, events[0], template), events[1..], template, ok);
    }
  }

  lemma FirstDiskOk(sys: Sys, e: Event, template: Template, ok: Dir -> bool)
    requires DiskOk(sys, ok) && Backed(e) && forall files :: TestsSet(e, files) ==> ok(files)
    ensures DiskOk(Step(sys, e, template), ok)
  {
    match e
    case Start(p, w) =>
      assert forall files :: w.test(files) ==> TestsSet(e, files);
      StartDiskOk(sys, p, w, template, ok);
    case StartDelete(ref, w) =>
      assert forall files :: w.test(files) ==> TestsSet(e, files);
      StartDeleteDiskOk(sys, ref, w, template, ok);
    case End(w) => EndDiskOk(sys, w, template, ok);
    case Restart =>
  }

  /** In every reachable state, even between a write and its reload, after a failed
      rollback or after a crash there, the configuration files are the set the
      run began with or a set some earlier request had nginx test, provided that no
      apply replaces a file it cannot read. */
  lemma OnlyTestedSets(sys: Sys, events: seq<Event>, template: Template)
    requires sys.busy == Idle && forall i :: 0 <= i < |events| ==> Backed(events[i])
    ensures var files := ConfFiles(Run(sys, events, template).state.dir);
      files == ConfFiles(sys.state.dir) || exists i :: 0 <= i < |events| && TestsSet(events[i], files)
  {
    var ok: Dir -> bool := files =>
      files == ConfFiles(sys.state.dir) || exists i :: 0 <= i < |events| && TestsSet(events[i], files);
    RunDiskOk(sys, events, template, ok);
  }

  /** A removal that nginx does not take puts the file back, whatever arrived meanwhile. */
  lemma FailedDeleteRestores(sys: Sys, ref: string, w: World, meanwhile: seq<Event>, end: World, template: Template)
    requires sys.busy == Idle && BeginDelete(sys.state, ref, w).Removed?
    requires forall i :: 0 <= i < |meanwhile| ==> Arrives(meanwhile[i])
    requires !end.reloads && end.restores
    ensures Run(sys, [StartDelete(ref, w)] + meanwhile + [End(end)], template) == sys
  {
    Bracketed(sys, StartDelete(ref, w), meanwhile, End(end), template);
    assert (sys.state.dir - {ref + ".conf"})[ref + ".conf" := sys.state.dir[ref + ".conf"]] == sys.state.dir;
  }

  // ---- the pipeline in one piece ----

  lemma {:induction false} VerdictsRefuse(blocks: seq<FileBlock>, domains: seq<string>, ref: string)
    ensures DumpVerdicts(blocks, domains, ref) != None ==> !DumpVerdicts(blocks, domains, ref).value.Reloaded?
  {
    if domains != [] { VerdictsRefuse(blocks, domains[1..], ref); }
  }

  /** A request refused before its write changes nothing and is never reported as applied. */
  lemma RefusedIsNotApplied(s: State, p: Payload, template: Template, w: World)
    ensures Begin(s, p, template, w).Refused? ==>
      Apply(s, p, template, w).0 == s && Apply(s, p, template, w).1 == Begin(s, p, template, w).reply
    ensures Begin(s, p, template, w).Refused? ==> !Begin(s, p, template, w).reply.Reloaded?
  {
    if w.dump != None { VerdictsRefuse(Blocks(w.dump.value), Unknown(s.owners, p.domains), p.pipelineRef); }
  }

  /** `runApplyLocked` is a start followed by an end with nothing in between, and
      it records a success exactly when it replies with one. */
  lemma ApplyIsStartThenEnd(s: State, log: seq<Success>, p: Payload, template: Template, w: World)
    ensures var end := Run(Sys(s, Idle, log), [Start(p, w), End(w)], template);
      && end.busy == Idle && end.state == Apply(s, p, template, w).0
      && end.log == log + if Apply(s, p, template, w).1.Reloaded?
        then [Success(p.repo, p.revision, p.idempotencyKey)] else []
  {
    RefusedIsNotApplied(s, p, template, w);
    var sys := Sys(s, Idle, log);
    var mid := Step(sys, Start(p, w), template);
    var end := Step(mid, End(w), template);
    assert [Start(p, w), End(w)][1..] == [End(w)];
    assert Run(end, [End(w)][1..], template) == end;
    assert Run(mid, [End(w)], template) == end;
    var none: seq<Success> := [];
    assert log + none == log;
  }

  lemma DeleteIsStartThenEnd(s: State, log: seq<Success>, ref: string, template: Template, w: World)
    ensures Run(Sys(s, Idle, log), [StartDelete(ref, w), End(w)], template) == Sys(Delete(s, ref, w).0, Idle, log)
  {
    var mid := Step(Sys(s, Idle, log), StartDelete(ref, w), template);
    var end := Step(mid, End(w), template);
    assert [StartDelete(ref, w), End(w)][1..] == [End(w)];
    assert Run(end, [End(w)][1..], template) == end;
    assert Run(mid, [End(w)], template) == end;
  }
}
