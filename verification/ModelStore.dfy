/** The model catalog on disk: one account's document and its backup are replaced by writing a
    synced temporary file and renaming it, then syncing the directory. A rename takes effect at
    once but survives a crash only after the directory was synced; until then a crash may keep
    any subset of the pending renames. */
module ModelStore {
  import opened Collections

  /** sound stands for every check of a decoded document other than its schema version. */
  datatype File = Undecodable | Document(schema: int, sound: bool, identity: string, body: string)

  datatype Verdict = Good | Future | Bad

  const SCHEMA_VERSION := 1

  function Check(f: File): Verdict {
    if f.Undecodable? then Bad
    else if f.schema > SCHEMA_VERSION then Future
    else if f.schema == SCHEMA_VERSION && f.sound then Good
    else Bad
  }

  predicate Accepts(name: string, f: File) {
    Check(f) == Good && f.identity == name
  }

  datatype Slot = Primary | Backup
  datatype Files = Files(primary: Option<File>, backup: Option<File>)
  datatype Op = Put(slot: Slot, file: File) | Remove(slot: Slot)
  datatype Disk = Disk(durable: Files, pending: seq<Op>)

  function At(fs: Files, slot: Slot): Option<File> {
    if slot == Primary then fs.primary else fs.backup
  }

  function ApplyOne(fs: Files, op: Op): Files {
    var file := if op.Put? then Some(op.file) else None;
    if op.slot == Primary then fs.(primary := file) else fs.(backup := file)
  }

  function Apply(fs: Files, ops: seq<Op>): Files {
    if ops == [] then fs else ApplyOne(Apply(fs, ops[..|ops| - 1]), ops[|ops| - 1])
  }

  /** What a running process sees. */
  function View(d: Disk): Files {
    Apply(d.durable, d.pending)
  }

  function Kept(ops: seq<Op>, kept: set<nat>): seq<Op> {
    if ops == [] then []
    else Kept(ops[..|ops| - 1], kept) + if |ops| - 1 in kept then [ops[|ops| - 1]] else []
  }

  /** A crash keeps the pending operations at the given positions, in their order. */
  function Crash(d: Disk, kept: set<nat>): Disk {
    Disk(Apply(d.durable, Kept(d.pending, kept)), [])
  }

  /** Loading an identity: the backup is looked at only beside an existing primary. */
  function Load(name: string, fs: Files): Option<File> {
    if fs.primary.None? then None
    else if Accepts(name, fs.primary.value) then fs.primary
    else if fs.backup.Some? && Accepts(name, fs.backup.value) then fs.backup
    else None
  }

  /** The input/output call at which a save stops: it fails, or the process dies there. */
  datatype Stop =
    Nowhere | AtTemp | AtRead | AtBackupTemp | AtBackupRemove | AtBackupRename | AtPrimaryRemove | AtPrimaryRename
    | AtSync

  predicate HoldsFuture(fs: Files) {
    || (fs.primary.Some? && Check(fs.primary.value) == Future)
    || (fs.backup.Some? && Check(fs.backup.value) == Future)
  }

  predicate KeepsBackup(fs: Files) {
    fs.primary.Some? && Check(fs.primary.value) == Good
  }

  /** Replacing a file; where the platform cannot rename over a file it is removed first. */
  function ReplaceOps(windows: bool, slot: Slot, file: File, removeFails: bool, fails: bool): seq<Op> {
    if windows && removeFails then []
    else (if windows then [Remove(slot)] else []) + (if fails then [] else [Put(slot, file)])
  }

  function BackupOps(windows: bool, fs: Files, stop: Stop): seq<Op> {
    if KeepsBackup(fs) && stop != AtBackupTemp
    then ReplaceOps(windows, Backup, fs.primary.value, stop == AtBackupRemove, stop == AtBackupRename)
    else []
  }

  predicate StopsAtBackup(windows: bool, fs: Files, stop: Stop) {
    KeepsBackup(fs) && (stop == AtBackupTemp || (windows && stop == AtBackupRemove) || stop == AtBackupRename)
  }

  predicate Refuses(fs: Files, doc: File, stop: Stop) {
    Check(doc) != Good || stop == AtTemp || stop == AtRead || HoldsFuture(fs)
  }

  /** The operations one save performs, in order. */
  function SaveOps(windows: bool, fs: Files, doc: File, stop: Stop): seq<Op> {
    if Refuses(fs, doc, stop) then []
    else if StopsAtBackup(windows, fs, stop) then BackupOps(windows, fs, stop)
    else
      BackupOps(windows, fs, stop)
      + ReplaceOps(windows, Primary, doc, stop == AtPrimaryRemove, stop == AtPrimaryRename)
  }

  predicate Completes(windows: bool, fs: Files, doc: File, stop: Stop) {
    && !Refuses(fs, doc, stop) && !StopsAtBackup(windows, fs, stop)
    && !(windows && stop == AtPrimaryRemove) && stop != AtPrimaryRename && (windows || stop != AtSync)
  }

  function SaveDisk(windows: bool, d: Disk, doc: File, stop: Stop): Disk {
    var ops := d.pending + SaveOps(windows, View(d), doc, stop);
    if Completes(windows, View(d), doc, stop) && !windows then Disk(Apply(d.durable, ops), []) else Disk(d.durable, ops)
  }

  /** The directory of one store, for one account's file name. */
  class Directory {
    const windows: bool
    const name: string
    var durable: Files
    var pending: seq<Op>

    constructor (windows: bool, name: string, durable: Files)
      ensures this.windows == windows && this.name == name && Now() == Disk(durable, [])
    {
      this.windows, this.name, this.durable, this.pending := windows, name, durable, [];
    }

    ghost function Now(): Disk
      reads this
    {
      Disk(durable, pending)
    }

    method Replace(slot: Slot, file: File, removeFails: bool, fails: bool) returns (ok: bool)
      modifies this`pending
      ensures ok == (!(windows && removeFails) && !fails)
      ensures pending == old(pending) + ReplaceOps(windows, slot, file, removeFails, fails)
    {
      if windows {
        if removeFails { return false; }
        pending := pending + [Remove(slot)];
      }
      if fails { return false; }
      pending := pending + [Put(slot, file)];
      return true;
    }

    method Read(slot: Slot) returns (file: Option<File>)
      ensures file == At(View(Now()), slot)
    {
      var files := durable;
      for i := 0 to |pending|
        invariant files == Apply(durable, pending[..i])
      {
        assert pending[..i + 1][..i] == pending[..i];
        files := ApplyOne(files, pending[i]);
      }
      assert pending[..|pending|] == pending;
      return At(files, slot);
    }

    method Sync()
      requires !windows
      modifies this
      ensures Now() == Disk(View(old(Now())), [])
    {
      for i := 0 to |pending|
        invariant pending == old(pending) && durable == Apply(old(durable), pending[..i])
      {
        assert pending[..i + 1][..i] == pending[..i];
        durable := ApplyOne(durable, pending[i]);
      }
      assert pending[..|pending|] == pending;
      pending := [];
    }

    method Save(doc: File, stop: Stop) returns (ok: bool)
      modifies this
      ensures Now() == SaveDisk(windows, old(Now()), doc, stop)
      ensures ok == Completes(windows, View(old(Now())), doc, stop)
    {
      hide Apply;
      if Check(doc) != Good { return false; }
      if stop == AtTemp || stop == AtRead { return false; }
      var current := Read(Primary);
      var backup := Read(Backup);
      if current.Some? && Check(current.value) == Future { return false; }
      if backup.Some? && Check(backup.value) == Future { return false; }
      ok := Write(doc, current, stop);
    }

    /** The writing half of a save, after nothing spoke against it. */
    method Write(doc: File, current: Option<File>, stop: Stop) returns (ok: bool)
      requires current == View(Now()).primary && !Refuses(View(Now()), doc, stop)
      modifies this
      ensures Now() == SaveDisk(windows, old(Now()), doc, stop)
      ensures ok == Completes(windows, View(old(Now())), doc, stop)
    {
      hide Apply, Check, HoldsFuture, KeepsBackup;
      ghost var view := View(Now());
      ok := KeepBackup(current, stop);
      if !ok { return; }
      ok := Replace(Primary, doc, stop == AtPrimaryRemove, stop == AtPrimaryRename);
      assert pending == old(pending) + SaveOps(windows, view, doc, stop);
      if !ok || windows { return; }
      if stop == AtSync { return false; }
      Sync();
      return true;
    }

    /** A valid primary is copied to the backup first. */
    method KeepBackup(current: Option<File>, stop: Stop) returns (ok: bool)
      requires current == View(Now()).primary
      modifies this`pending
      ensures pending == old(pending) + BackupOps(windows, View(old(Now())), stop)
      ensures ok == !StopsAtBackup(windows, View(old(Now())), stop)
    {
      hide Apply, Check;
      if current.Some? && Check(current.value) == Good {
        if stop == AtBackupTemp { return false; }
        ok := Replace(Backup, current.value, stop == AtBackupRemove, stop == AtBackupRename);
        return;
      }
      return true;
    }

    method LoadDocument() returns (found: Option<File>)
      ensures found == Load(name, View(Now()))
    {
      var primary := Read(Primary);
      if primary.None? { return None; }
      if Accepts(name, primary.value) { return primary; }
      var backup := Read(Backup);
      if backup.Some? && Accepts(name, backup.value) { return backup; }
      return None;
    }
  }

  // ----- which files count

  /** A sound document of schema 1 with that identity. */
  predicate Ours(name: string, f: Option<File>) {
    f.Some? && f.value.Document? && f.value.schema == 1 && f.value.sound && f.value.identity == name
  }

  /** Loading yields the primary if it is ours, else the backup if that is and a primary is there at
      all, and nothing in every other case. */
  lemma LoadsExactly(name: string, fs: Files)
    ensures Load(name, fs)
      == if Ours(name, fs.primary) then fs.primary
         else if fs.primary.Some? && Ours(name, fs.backup) then fs.backup
         else None
  {
  }

  /** A later version of the plugin wrote this file. */
  predicate FromLater(f: Option<File>) {
    f.Some? && f.value.Document? && f.value.schema > 1
  }

  /** A save completes exactly when the document is sound and of schema 1, neither file comes from a
      later version, and it stops at none of the calls it makes: those for the backup are made only
      beside a sound primary, the removals only on Windows, the directory sync only elsewhere. */
  lemma CompletesExactly(windows: bool, fs: Files, doc: File, stop: Stop)
    ensures Completes(windows, fs, doc, stop) <==>
      && doc.Document? && doc.schema == 1 && doc.sound && !FromLater(fs.primary) && !FromLater(fs.backup)
      && var keeps := fs.primary.Some? && fs.primary.value.Document? && fs.primary.value.schema == 1
                      && fs.primary.value.sound;
         match stop {
           case Nowhere => true
           case AtTemp => false
           case AtRead => false
           case AtBackupTemp => !keeps
           case AtBackupRemove => !(keeps && windows)
           case AtBackupRename => !keeps
           case AtPrimaryRemove => !windows
           case AtPrimaryRename => false
           case AtSync => windows
         }
  {
  }

  // ----- every run of saves, crashes and outside writes (systems that rename over a file)

  /** An outside write may put anything in either file. */
  datatype Event = Save(doc: File, stop: Stop) | Crashed(kept: set<nat>) | Outside(slot: Slot, file: File)

  /** last is the last document saved completely since the last outside write; since holds the
      valid documents whose save was started after it; earlier holds the document
      completed before last and the valid ones whose save was started between the two; completed
      counts the completed saves. */
  datatype World = World(disk: Disk, last: Option<File>, since: set<File>, earlier: set<File>, completed: nat)

  /** A store for one name only saves documents of that identity. */
  ghost predicate LegalEvent(name: string, e: Event) {
    e.Save? ==> e.doc.Document? && e.doc.identity == name
  }

  function Recent(w: World): set<File> {
    w.since + if w.last.Some? then {w.last.value} else {}
  }

  function Next(w: World, e: Event): World {
    match e
    case Save(doc, stop) =>
      var disk := SaveDisk(false, w.disk, doc, stop);
      if Completes(false, View(w.disk), doc, stop)
      then World(disk, Some(doc), {}, Recent(w), w.completed + 1)
      else w.(disk := disk, since := if Check(doc) == Good then w.since + {doc} else w.since)
    case Crashed(kept) => w.(disk := Crash(w.disk, kept))
    case Outside(slot, file) => World(Disk(w.disk.durable, w.disk.pending + [Put(slot, file)]), None, {}, {}, 0)
  }

  function Play(w: World, es: seq<Event>): World {
    if es == [] then w else Next(Play(w, es[..|es| - 1]), es[|es| - 1])
  }

  function Start(files: Files): World {
    World(Disk(files, []), None, {}, {}, 0)
  }

  ghost predicate PutsOnly(ops: seq<Op>, slot: Slot, docs: set<File>) {
    forall op | op in ops && op.slot == slot :: op.Put? && op.file in docs
  }

  /** Whichever pending renames survive, the slot shows one of these documents. */
  ghost predicate Holds(d: Disk, slot: Slot, docs: set<File>) {
    && At(d.durable, slot).Some? && At(d.durable, slot).value in docs
    && PutsOnly(d.pending, slot, docs)
  }

  ghost predicate Ok(name: string, w: World) {
    && (forall f | f in w.earlier + Recent(w) :: Accepts(name, f))
    && (w.completed > 0 <==> w.last.Some?)
    && (w.last.Some? ==> Holds(w.disk, Primary, Recent(w)) && PutsOnly(w.disk.pending, Backup, w.earlier + Recent(w)))
    && (w.completed > 1 ==> Holds(w.disk, Backup, w.earlier + Recent(w)))
  }

  lemma {:induction false} ApplyAppend(fs: Files, a: seq<Op>, b: seq<Op>)
    ensures Apply(fs, a + b) == Apply(Apply(fs, a), b)
  {
    if b == [] {
      assert a + b == a;
    } else {
      assert (a + b)[..|a + b| - 1] == a + b[..|b| - 1];
      ApplyAppend(fs, a, b[..|b| - 1]);
    }
  }

  /** A slot shows its durable file or one that a pending operation puts there. */
  lemma {:induction false} SlotComesFrom(fs: Files, ops: seq<Op>, slot: Slot)
    requires forall op | op in ops && op.slot == slot :: op.Put?
    ensures At(Apply(fs, ops), slot) == At(fs, slot)
      || exists op :: op in ops && op.slot == slot && At(Apply(fs, ops), slot) == Some(op.file)
  {
    if ops != [] {
      var init, last := ops[..|ops| - 1], ops[|ops| - 1];
      SlotComesFrom(fs, init, slot);
      assert last in ops;
      if last.slot != slot && At(Apply(fs, init), slot) != At(fs, slot) {
        var op :| op in init && op.slot == slot && At(Apply(fs, init), slot) == Some(op.file);
        assert op in ops;
      }
    }
  }

  lemma {:induction false} KeptIsSubset(ops: seq<Op>, kept: set<nat>)
    ensures forall op | op in Kept(ops, kept) :: op in ops
  {
    if ops != [] {
      KeptIsSubset(ops[..|ops| - 1], kept);
    }
  }

  lemma HoldsAfterCrash(d: Disk, kept: set<nat>, slot: Slot, docs: set<File>)
    requires Holds(d, slot, docs)
    ensures Holds(Crash(d, kept), slot, docs)
    ensures At(View(d), slot).Some? && At(View(d), slot).value in docs
  {
    KeptIsSubset(d.pending, kept);
    SlotComesFrom(d.durable, Kept(d.pending, kept), slot);
    SlotComesFrom(d.durable, d.pending, slot);
  }

  lemma OkStep(name: string, w: World, e: Event)
    requires Ok(name, w) && LegalEvent(name, e)
    ensures Ok(name, Next(w, e))
  {
    hide Apply, Kept;
    match e
    case Save(doc, stop) => OkSave(name, w, doc, stop);
    case Crashed(kept) =>
      if w.last.Some? { HoldsAfterCrash(w.disk, kept, Primary, Recent(w)); }
      if w.completed > 1 { HoldsAfterCrash(w.disk, kept, Backup, w.earlier + Recent(w)); }
    case Outside(slot, file) =>
  }

  lemma OkSave(name: string, w: World, doc: File, stop: Stop)
    requires Ok(name, w) && LegalEvent(name, Save(doc, stop))
    ensures Ok(name, Next(w, Save(doc, stop)))
  {
    hide Apply;
    var view := View(w.disk);
    var ops := SaveOps(false, view, doc, stop);
    if w.last.Some? {
      HoldsAfterCrash(w.disk, {}, Primary, Recent(w));
    }
    if Completes(false, view, doc, stop) {
      CompletedDisk(w.disk, doc, stop);
    }
  }

  /** The disk after a completed save: the new document, and the file it replaced as backup when
      that file was valid. */
  lemma CompletedDisk(d: Disk, doc: File, stop: Stop)
    requires Completes(false, View(d), doc, stop)
    ensures var after := SaveDisk(false, d, doc, stop);
      && after.pending == [] && after.durable.primary == Some(doc)
      && after.durable.backup == if KeepsBackup(View(d)) then View(d).primary else View(d).backup
  {
    var ops := SaveOps(false, View(d), doc, stop);
    ApplyAppend(d.durable, d.pending, ops);
    if KeepsBackup(View(d)) {
      assert ops == [Put(Backup, View(d).primary.value), Put(Primary, doc)];
      assert ops[..1] == [Put(Backup, View(d).primary.value)] && ops[..1][..0] == [];
    } else {
      assert ops == [Put(Primary, doc)] && ops[..0] == [];
    }
  }

  ghost predicate LegalRun(name: string, es: seq<Event>) {
    forall e | e in es :: LegalEvent(name, e)
  }

  lemma {:induction false} EveryRunIsOk(name: string, files: Files, es: seq<Event>)
    requires LegalRun(name, es)
    ensures Ok(name, Play(Start(files), es))
  {
    if es != [] {
      EveryRunIsOk(name, files, es[..|es| - 1]);
      assert es[|es| - 1] in es;
      OkStep(name, Play(Start(files), es[..|es| - 1]), es[|es| - 1]);
    }
  }

  /** At every point of every run, crashed there or not: once a save has completed after the
      last outside write, loading yields the last completed document or one whose save was
      started after it. */
  lemma CrashSafe(name: string, files: Files, es: seq<Event>, kept: set<nat>)
    requires LegalRun(name, es) && Play(Start(files), es).last.Some?
    ensures var w := Play(Start(files), es);
      && Load(name, View(w.disk)).Some? && Load(name, View(w.disk)).value in Recent(w)
      && Load(name, View(Crash(w.disk, kept))).Some? && Load(name, View(Crash(w.disk, kept))).value in Recent(w)
  {
    EveryRunIsOk(name, files, es);
    var w := Play(Start(files), es);
    hide Play, Apply, Kept;
    HoldsAfterCrash(w.disk, kept, Primary, Recent(w));
    HoldsAfterCrash(Crash(w.disk, kept), {}, Primary, Recent(w));
  }

  /** A save that fails at the directory sync is open: the running process sees the new document, a
      crash that keeps no pending rename leaves the disk as it was, and one that keeps them all leaves
      the new document with the sound old one as its backup. */
  lemma UnsyncedIsOpen(w: World, doc: File)
    requires w.disk.pending == [] && !Refuses(w.disk.durable, doc, AtSync)
    ensures var after := Next(w, Save(doc, AtSync)).disk;
      && View(after).primary == Some(doc) && Crash(after, {}) == w.disk
      && var kept := Crash(after, {0, 1});
         kept.durable.primary == Some(doc)
         && (KeepsBackup(w.disk.durable) ==> kept.durable.backup == w.disk.durable.primary)
  {
    hide Apply, Kept, KeepsBackup, Refuses;
    var fs := w.disk.durable;
    UnsyncedApplies(fs, doc);
    hide SaveOps;
    var ops := SaveOps(false, fs, doc, AtSync);
    assert w.disk.pending + ops == ops;
    KeptAll(ops, {0, 1});
    KeptNone(ops);
  }

  /** All renames of a save, in order. */
  lemma UnsyncedApplies(fs: Files, doc: File)
    requires !Refuses(fs, doc, AtSync)
    ensures var ops := SaveOps(false, fs, doc, AtSync);
      && |ops| <= 2 && Apply(fs, []) == fs && Apply(fs, ops).primary == Some(doc)
      && (KeepsBackup(fs) ==> Apply(fs, ops).backup == fs.primary)
  {
    hide Apply, Refuses;
    if KeepsBackup(fs) {
      var backup := Put(Backup, fs.primary.value);
      ApplyLast(fs, [], backup);
      ApplyLast(fs, [backup], Put(Primary, doc));
      assert [] + [backup] == [backup] && SaveOps(false, fs, doc, AtSync) == [backup] + [Put(Primary, doc)];
    } else {
      ApplyLast(fs, [], Put(Primary, doc));
      assert SaveOps(false, fs, doc, AtSync) == [] + [Put(Primary, doc)];
    }
  }

  lemma {:induction false} KeptAll(ops: seq<Op>, kept: set<nat>)
    requires forall i | 0 <= i < |ops| :: i in kept
    ensures Kept(ops, kept) == ops
  {
    if ops != [] {
      KeptAll(ops[..|ops| - 1], kept);
      assert ops == ops[..|ops| - 1] + [ops[|ops| - 1]];
    }
  }

  lemma {:induction false} KeptNone(ops: seq<Op>)
    ensures Kept(ops, {}) == []
  {
    if ops != [] { KeptNone(ops[..|ops| - 1]); }
  }

  /** Once two saves have completed, damage to the primary loses at most the newest document:
      loading then yields the last completed document, the one completed before it, or one whose
      save was started after that one. */
  lemma DamageFallsBack(name: string, files: Files, es: seq<Event>, kept: set<nat>, damage: File)
    requires LegalRun(name, es) && Play(Start(files), es).completed > 1 && !Accepts(name, damage)
    ensures var w := Play(Start(files), es);
      var damaged := View(Crash(w.disk, kept)).(primary := Some(damage));
      Load(name, damaged).Some? && Load(name, damaged).value in w.earlier + Recent(w)
  {
    EveryRunIsOk(name, files, es);
    var w := Play(Start(files), es);
    hide Play, Apply, Kept;
    HoldsAfterCrash(w.disk, kept, Backup, w.earlier + Recent(w));
    HoldsAfterCrash(Crash(w.disk, kept), {}, Backup, w.earlier + Recent(w));
  }

  /** Without a failure in between it is exactly the document before: what loaded from the
      primary before a completed save loads again when the new primary is damaged. */
  lemma DamageLoadsPrevious(name: string, d: Disk, doc: File, stop: Stop, damage: File)
    requires Completes(false, View(d), doc, stop) && !Accepts(name, damage)
    requires View(d).primary.Some? && Accepts(name, View(d).primary.value)
    ensures Load(name, View(SaveDisk(false, d, doc, stop)).(primary := Some(damage))) == Load(name, View(d))
  {
    CompletedDisk(d, doc, stop);
  }

  /** On either platform and wherever it stops, a save puts nothing into the backup but a
      validated primary, and nothing into the primary but its own valid document. */
  lemma BackupOnlyFromValidatedPrimary(windows: bool, fs: Files, doc: File, stop: Stop, op: Op)
    requires op in SaveOps(windows, fs, doc, stop) && op.Put?
    ensures op.slot == Backup ==> fs.primary == Some(op.file) && Check(op.file) == Good
    ensures op.slot == Primary ==> op.file == doc && Check(doc) == Good
  {
  }

  /** While either file is of a future schema, no run of saves and crashes changes the disk. */
  lemma {:induction false} FutureIsNeverOverwritten(w: World, es: seq<Event>)
    requires w.disk.pending == [] && HoldsFuture(w.disk.durable)
    requires forall e | e in es :: !e.Outside?
    ensures Play(w, es).disk == w.disk
  {
    if es != [] {
      var init := es[..|es| - 1];
      FutureIsNeverOverwritten(w, init);
      assert es[|es| - 1] in es;
      assert Play(w, init).disk == w.disk;
      assert w.disk.pending + [] == w.disk.pending;
    }
  }

  // ----- where a file is removed before it is renamed over

  /** With a removing replace, the account still loads after a save exactly when the save did not
      stop between removing the primary and renaming the new document over it. */
  lemma RemovingReplaceExactly(name: string, d: Disk, doc: File, stop: Stop)
    requires View(d).primary.Some? && Accepts(name, View(d).primary.value) && Accepts(name, doc)
    requires !HoldsFuture(View(d))
    ensures Load(name, View(SaveDisk(true, d, doc, stop))).None? <==> stop == AtPrimaryRename
  {
    var fs := View(d);
    var ops := SaveOps(true, fs, doc, stop);
    ApplyAppend(d.durable, d.pending, ops);
    RemovingApplies(fs, doc, stop);
    hide Apply;
  }

  lemma ApplyLast(fs: Files, ops: seq<Op>, op: Op)
    ensures Apply(fs, ops + [op]) == ApplyOne(Apply(fs, ops), op) && Apply(fs, []) == fs
  {
    assert (ops + [op])[..|ops|] == ops;
  }

  lemma RemovingApplies(fs: Files, doc: File, stop: Stop)
    requires KeepsBackup(fs) && Check(doc) == Good && !HoldsFuture(fs)
    ensures Apply(fs, SaveOps(true, fs, doc, stop)).primary
      == match stop {
           case AtPrimaryRename => None
           case AtSync => Some(doc)
           case Nowhere => Some(doc)
           case _ => fs.primary
         }
  {
    hide Apply;
    var put, remove := Put(Backup, fs.primary.value), Remove(Primary);
    ApplyLast(fs, [], Remove(Backup));
    ApplyLast(fs, [Remove(Backup)], put);
    ApplyLast(fs, [Remove(Backup), put], remove);
    ApplyLast(fs, [Remove(Backup), put, remove], Put(Primary, doc));
    assert [] + [Remove(Backup)] == [Remove(Backup)];
    assert [Remove(Backup)] + [put] == [Remove(Backup), put];
    assert [Remove(Backup), put] + [remove] == [Remove(Backup), put, remove];
    assert [Remove(Backup), put, remove] + [Put(Primary, doc)] == [Remove(Backup), put, remove, Put(Primary, doc)];
    var ops := SaveOps(true, fs, doc, stop);
    match stop
    case AtTemp => assert ops == [];
    case AtRead => assert ops == [];
    case AtBackupTemp => assert ops == [];
    case AtBackupRemove => assert ops == [];
    case AtBackupRename => assert ops == [Remove(Backup)];
    case AtPrimaryRemove => assert ops == [Remove(Backup), put];
    case AtPrimaryRename => assert ops == [Remove(Backup), put, remove];
    case _ => assert ops == [Remove(Backup), put, remove, Put(Primary, doc)];
  }
}
