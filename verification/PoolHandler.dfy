/** The steps of a pool request after authentication: back up, write, test,
    reload, read again, and restore when a step says no. One request at a time. */
module PoolHandler {
  import opened Text
  import opened PoolToggle
  import opened PoolToggleProofs

  /** The outcome of every fallible step. A failed write may leave anything behind. */
  datatype World = World(
    readable: bool,
    backupWritten: bool,
    written: bool,
    leftover: string,
    backupRemoved: bool,
    testRan: bool,
    testPassed: bool,
    reloads: bool,
    rereadable: bool,
    restoreWritten: bool,
    restoreLeftover: string,
    restoreReloads: bool)

  datatype Reply =
    | Unreadable
    | Rejected(error: ToggleError)
    | NothingToDo(backends: nat)
    | NoBackup
    | NotWritten
    | Restored(reason: Reason, reloaded: bool)
    | NotReread
    | Done(changed: nat, backends: nat, validated: bool)

  datatype Reason = TestFailed | ReloadFailed | NotReflected

  /** Whether the running nginx took the new configuration. */
  predicate Accepted(w: World) { (w.testRan ==> w.testPassed) && w.reloads }

  /** Every step works. */
  predicate Faithful(w: World) { w.readable && w.backupWritten && w.written && Accepted(w) && w.rereadable }

  /** The text on disk, the backup this request leaves, and the reply. */
  datatype Outcome = Outcome(conf: string, backup: Option<string>, reply: Reply)

  function RestoredTo(original: string, reason: Reason, w: World): Outcome {
    Outcome(if w.restoreWritten then original else w.restoreLeftover, Some(original),
            Restored(reason, w.restoreReloads))
  }

  /** The steps after the write, on the edited text. */
  function Settle(original: string, res: Toggled, pool: string, down: bool, w: World): Outcome
    requires res.Toggled?
  {
    if w.testRan && !w.testPassed then RestoredTo(original, TestFailed, w)
    else if !w.reloads then RestoredTo(original, ReloadFailed, w)
    else if !w.rereadable then Outcome(res.config, Some(original), NotReread)
    else if IsDown(res.config, pool) != (down, true) then RestoredTo(original, NotReflected, w)
    else Outcome(res.config, Some(original), Done(res.changed, res.total, w.testRan))
  }

  function Handle(original: string, pool: string, down: bool, w: World): Outcome {
    if !w.readable then Outcome(original, None, Unreadable)
    else
      match Toggle(original, pool, down)
      case Failed(error) => Outcome(original, None, Rejected(error))
      case Toggled(config, changed, total) =>
        if changed == 0 then Outcome(original, None, NothingToDo(total))
        else if !w.backupWritten then Outcome(original, None, NoBackup)
        else if !w.written then Outcome(w.leftover, if w.backupRemoved then None else Some(original), NotWritten)
        else Settle(original, Toggled(config, changed, total), pool, down, w)
  }

  /** There is an edit to write, and its backup is made. */
  predicate Writes(original: string, pool: string, down: bool, w: World) {
    var res := Toggle(original, pool, down);
    w.readable && res.Toggled? && res.changed > 0 && w.backupWritten
  }

  /** After every reply the original text is on disk or in the backup, unless the
      write failed, left something else, and the backup was then removed; in
      exactly that case it is in neither. */
  lemma OriginalSurvives(original: string, pool: string, down: bool, w: World)
    ensures var o := Handle(original, pool, down, w);
      o.conf == original || o.backup == Some(original) <==>
        !(Writes(original, pool, down, w) && !w.written && w.leftover != original && w.backupRemoved)
  {
  }

  /** What failures after the write leave: the edited text when it could not be
      read again, and the original after a restore that works. */
  lemma AfterTheWrite(original: string, pool: string, down: bool, w: World)
    requires Writes(original, pool, down, w) && w.written
    ensures var o, res := Handle(original, pool, down, w), Toggle(original, pool, down);
      && o.backup == Some(original)
      && (o.reply.NotReread? ==> o.conf == res.config)
      && (o.reply.Restored? && w.restoreWritten ==> o.conf == original)
      && (Faithful(w) ==> (o.reply.Done? <==> KeepsServer(original, pool, down)))
  {
    ReadBack(original, pool, down);
  }

  /** A write that fails half way and leaves an empty file. */
  const TORN := World(true, true, false, "", true, true, true, true, true, true, "", true)

  /** The failing input: for every pool name, a text of which nothing is left. */
  lemma TornWriteLosesConf(pool: string, line: string)
    requires Named(pool) && line == ONLY_DOWN
    ensures Handle(PoolText(pool, line), pool, false, TORN) == Outcome("", None, NotWritten)
  {
    ClearingEmptiesPool(pool, line);
  }

  class MainConf {
    var conf: string
    var backup: Option<string>

    constructor (conf: string)
      ensures this.conf == conf && backup == None
    {
      this.conf, backup := conf, None;
    }

    method Restore(original: string, reason: Reason, w: World) returns (reply: Reply)
      modifies this`conf
      ensures conf == if w.restoreWritten then original else w.restoreLeftover
      ensures reply == Restored(reason, w.restoreReloads)
    {
      conf := if w.restoreWritten then original else w.restoreLeftover;
      reply := Restored(reason, w.restoreReloads);
    }

    /** `handlePool` from the first read on. */
    method HandlePool(pool: string, down: bool, w: World) returns (reply: Reply)
      modifies this
      ensures var o := Handle(old(conf), pool, down, w);
        && conf == o.conf && reply == o.reply
        && backup == if Writes(old(conf), pool, down, w) then o.backup else old(backup)
      // A failed write leaves what it left, and no backup unless its removal fails.
      ensures reply.NotWritten? ==>
        conf == w.leftover && backup == if w.backupRemoved then None else Some(old(conf))
      // A text that cannot be read again is the edited one, and the backup holds the original.
      ensures reply.NotReread? ==>
        && Toggle(old(conf), pool, down).Toggled? && conf == Toggle(old(conf), pool, down).config
        && backup == Some(old(conf))
      // Refusals and no-ops leave the file alone, and a no-op really had nothing to do.
      ensures reply.Unreadable? || reply.Rejected? || reply.NothingToDo? || reply.NoBackup? ==> conf == old(conf)
      ensures reply.Rejected? ==> Toggle(old(conf), pool, down) == Failed(reply.error)
      ensures reply.NothingToDo? ==>
        Toggle(old(conf), pool, down).Toggled? && Toggle(old(conf), pool, down).changed == 0
      // Success means the edited text is on disk and reads back as asked for.
      ensures reply.Done? ==>
        && Toggle(old(conf), pool, down) == Toggled(conf, reply.changed, reply.backends) && reply.changed > 0
        && IsDown(conf, pool) == (down, true)
        && backup == Some(old(conf))
      // Once nginx took a faithfully written file, the final check passes exactly when the pool keeps a server.
      ensures Toggle(old(conf), pool, down).Toggled? && Toggle(old(conf), pool, down).changed > 0 && Faithful(w) ==>
        if KeepsServer(old(conf), pool, down) then reply.Done? else reply == Restored(NotReflected, w.restoreReloads)
      // Every restore puts the original text back, if its write works, and the backup holds it in any case.
      ensures reply.Restored? ==> backup == Some(old(conf)) && (w.restoreWritten ==> conf == old(conf))
    {
      if !w.readable { return Unreadable; }
      var original := conf;
      var res := SetPoolDown(original, pool, down);
      if res.Failed? { return Rejected(res.error); }
      if res.changed == 0 { return NothingToDo(res.total); }
      if !w.backupWritten { return NoBackup; }
      backup := Some(original);
      if !w.written {
        conf := w.leftover;
        if w.backupRemoved { backup := None; }
        return NotWritten;
      }
      conf := res.config;
      if w.testRan && !w.testPassed {
        reply := Restore(original, TestFailed, w);
        return;
      }
      if !w.reloads {
        reply := Restore(original, ReloadFailed, w);
        return;
      }
      if !w.rereadable { return NotReread; }
      var isDown, known := PoolIsDown(conf, pool);
      ReadBack(original, pool, down);
      if !known || isDown != down {
        reply := Restore(original, NotReflected, w);
        return;
      }
      return Done(res.changed, res.total, w.testRan);
    }
  }
}
