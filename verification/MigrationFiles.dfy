/** The file steps around a migration, each of which may fail or be the last one
    before a crash. */
module MigrationFiles {
  import opened Wrappers
  import opened Migration
  import opened MigrationTheorems

  /** The parts of a backup directory's name. */
  datatype Dir = Dir(from: nat, to: nat, stamp: string)

  datatype Path = InWork(name: string) | InBackup(dir: Dir, name: string)

  datatype Disk = Disk(files: map<Path, string>, dirs: set<Dir>)

  /** How a write ends: where files are replaced by renaming, a failure or a crash
      leaves the file untouched; elsewhere it may cut the file short. */
  datatype Write = Done | Untouched | Cut(left: string)

  /** What goes wrong in a run. */
  datatype Faults = Faults(read: bool, mkdir: bool, backup: Write, config: Write)

  const NO_FAULTS := Faults(false, false, Done, Done)

  datatype Outcome = Succeeded | Failed | Panicked

  /** YAML text, as far as it is visible here. */
  datatype Codec = Codec(decode: string -> Option<Fields>, encode: Fields -> Option<string>)

  /** Encoding and decoding loses only the types; decoded documents have plain ones. */
  ghost predicate Faithful(codec: Codec) {
    && (forall c :: codec.encode(c).Some? ==> codec.decode(codec.encode(c).value) == Some(RereadDoc(c)))
    && (forall t :: codec.decode(t).Some? ==> RereadDoc(codec.decode(t).value) == codec.decode(t).value)
  }

  function Written(files: map<Path, string>, p: Path, data: string, w: Write): map<Path, string> {
    match w
    case Done => files[p := data]
    case Untouched => files
    case Cut(left) => files[p := left]
  }

  /** The decoded configuration at its version, if it has both. */
  function Current(codec: Codec, disk: Disk, name: string): Option<(Fields, nat)> {
    if InWork(name) !in disk.files then None
    else match codec.decode(disk.files[InWork(name)])
      case None => None
      case Some(c) => match GetVersion(c)
        case Failure(_) => None
        case Success(v) => Some((c, v))
  }

  /** The document is not at the target but can be migrated to it and encoded. */
  predicate Migrates(codec: Codec, c: Fields, current: nat, target: nat) {
    && INITIAL <= current < target <= LATEST && AcceptsAll(c, current, target)
    && codec.encode(Steps(c, current, target)).Some?
  }

  class Migrator {
    const codec: Codec
    const name: string
    var disk: Disk

    constructor (codec: Codec, name: string, disk: Disk)
      ensures this.codec == codec && this.name == name && this.disk == disk
    {
      this.codec, this.name, this.disk := codec, name, disk;
    }

    method WriteFile(p: Path, data: string, w: Write) returns (ok: bool)
      modifies this`disk
      ensures disk == old(disk).(files := Written(old(disk).files, p, data, w))
      ensures ok <==> w.Done?
    {
      match w
      case Done =>
        disk := disk.(files := disk.files[p := data]);
        ok := true;
      case Untouched =>
        ok := false;
      case Cut(left) =>
        disk := disk.(files := disk.files[p := left]);
        ok := false;
    }

    /** The directory must not exist yet. */
    method BackupConfig(orig: string, dir: Dir, faults: Faults) returns (ok: bool)
      modifies this`disk
      ensures disk == Backed(old(disk), name, orig, dir, faults)
      ensures ok <==> dir !in old(disk).dirs && !faults.mkdir && faults.backup.Done?
    {
      if dir in disk.dirs || faults.mkdir {
        return false;
      }
      disk := disk.(dirs := disk.dirs + {dir});
      ok := WriteFile(InBackup(dir, name), orig, faults.backup);
    }

    method WriteMigrated(conf: Fields, orig: string, dir: Dir, faults: Faults) returns (ok: bool)
      modifies this`disk
      ensures var text := codec.encode(conf);
        && (ok <==> text.Some? && dir !in old(disk).dirs && !faults.mkdir && faults.backup.Done? && faults.config.Done?)
        && disk == if text.Some? then Replaced(old(disk), name, orig, text.value, dir, faults) else old(disk)
    {
      var text := codec.encode(conf);
      if text.None? {
        return false;
      }
      ok := BackupConfig(orig, dir, faults);
      if !ok {
        return false;
      }
      ok := WriteFile(InWork(name), text.value, faults.config);
    }

    method Run(target: nat, stamp: string, faults: Faults) returns (o: Outcome)
      modifies this`disk
      ensures (disk, o) == AfterRun(codec, old(disk), name, target, stamp, faults)
    {
      if faults.read {
        return Failed;
      }
      if InWork(name) !in disk.files {
        return Succeeded;
      }
      var orig := disk.files[InWork(name)];
      var conf := codec.decode(orig);
      if conf.None? {
        return Failed;
      }
      var current := GetVersion(conf.value);
      if current.Failure? {
        return Failed;
      }
      if current.value == target {
        return Succeeded;
      }
      if target < current.value || target > LATEST {
        // The slice of migrations is out of range.
        return Panicked;
      }
      var document := new Document(conf.value);
      var err := document.Migrate(current.value, target);
      if err.Some? {
        return Failed;
      }
      var ok := WriteMigrated(document.root, orig, Dir(current.value, target, stamp), faults);
      o := if ok then Succeeded else Failed;
    }
  }

  // ---- The same on values ----

  function Backed(disk: Disk, name: string, orig: string, dir: Dir, faults: Faults): Disk {
    if dir in disk.dirs || faults.mkdir then disk
    else Disk(Written(disk.files, InBackup(dir, name), orig, faults.backup), disk.dirs + {dir})
  }

  function Replaced(disk: Disk, name: string, orig: string, text: string, dir: Dir, faults: Faults): Disk {
    var backed := Backed(disk, name, orig, dir, faults);
    if dir !in disk.dirs && !faults.mkdir && faults.backup.Done?
    then backed.(files := Written(backed.files, InWork(name), text, faults.config))
    else backed
  }

  function AfterRun(codec: Codec, disk: Disk, name: string, target: nat, stamp: string, faults: Faults): (Disk, Outcome) {
    if faults.read then (disk, Failed)
    else if InWork(name) !in disk.files then (disk, Succeeded)
    else match Current(codec, disk, name)
      case None => (disk, Failed)
      case Some((c, current)) =>
        if current == target then (disk, Succeeded)
        else if target < current || target > LATEST then (disk, Panicked)
        else if !Migrates(codec, c, current, target) then (disk, Failed)
        else
          var dir := Dir(current, target, stamp);
          (Replaced(disk, name, disk.files[InWork(name)], codec.encode(Steps(c, current, target)).value, dir, faults),
          if dir !in disk.dirs && !faults.mkdir && faults.backup.Done? && faults.config.Done? then Succeeded else Failed)
  }

  // ---- Safety ----

  /** A directory that did not exist before holds the original. */
  ghost predicate IsBackedUp(disk: Disk, before: set<Dir>, name: string, orig: string) {
    exists dir :: dir in disk.dirs - before && InBackup(dir, name) in disk.files && disk.files[InBackup(dir, name)] == orig
  }

  /** Whatever fails and wherever the run stops, the original text is in the
      configuration file or in the backup, and no other file has changed.  With
      atomic replacement a run that does not succeed keeps the configuration. */
  lemma OriginalSurvives(codec: Codec, disk: Disk, name: string, target: nat, stamp: string, faults: Faults)
    requires InWork(name) in disk.files
    ensures var (after, o) := AfterRun(codec, disk, name, target, stamp, faults);
      var orig := disk.files[InWork(name)];
      && InWork(name) in after.files
      && (after.files[InWork(name)] == orig || IsBackedUp(after, disk.dirs, name, orig))
      && (o != Succeeded && !faults.config.Cut? ==> after.files[InWork(name)] == orig)
      && (forall p :: p in disk.files && p != InWork(name) && (p.InBackup? ==> p.dir in disk.dirs) ==>
            p in after.files && after.files[p] == disk.files[p])
  {
    var (after, o) := AfterRun(codec, disk, name, target, stamp, faults);
    if after.files[InWork(name)] != disk.files[InWork(name)] {
      var dir := Dir(Current(codec, disk, name).value.1, target, stamp);
      assert dir in after.dirs - disk.dirs;
    }
  }

  /** A run changes the disk only to migrate, and then a successful one leaves the
      migrated document at the target version, with the original beside it. */
  lemma SuccessMigrates(codec: Codec, disk: Disk, name: string, target: nat, stamp: string, faults: Faults)
    requires Faithful(codec) && Current(codec, disk, name).Some?
    ensures var (after, o) := AfterRun(codec, disk, name, target, stamp, faults);
      var (c, current) := Current(codec, disk, name).value;
      && (o == Panicked <==> !faults.read && !(current <= target <= LATEST) && current != target)
      && (o == Succeeded ==>
            && Current(codec, after, name) == Some((RereadDoc(Steps(c, current, target)), target))
            && (current < target ==>
                  var backup := InBackup(Dir(current, target, stamp), name);
                  backup in after.files && after.files[backup] == disk.files[InWork(name)]))
  {
    var (after, o) := AfterRun(codec, disk, name, target, stamp, faults);
    var (c, current) := Current(codec, disk, name).value;
    assert RereadDoc(c) == c;
    if o == Succeeded && current < target {
      MigratedVersion(c, current, target);
    }
  }

  /** What a run without faults does with every file: nothing if there is no file, if it
      is at the target version, or if it fails, which it does on text that does not
      decode, on a version that is no number from 1 to 4, on a document that cannot be
      migrated or encoded, and in the second of an earlier run; it panics on a target
      that it cannot go to, and otherwise backs the original up and replaces it. */
  lemma FaultFreeRun(codec: Codec, disk: Disk, name: string, target: nat, stamp: string)
    ensures var (after, o) := AfterRun(codec, disk, name, target, stamp, NO_FAULTS);
      if InWork(name) !in disk.files then (after, o) == (disk, Succeeded)
      else
        var orig := disk.files[InWork(name)];
        if codec.decode(orig).None? then (after, o) == (disk, Failed)
        else
          var c := codec.decode(orig).value;
          var y := Get(Obj(c), ["schema_version"]);
          if !(y.Some? && y.value.Int? && 1 <= y.value.number <= 4) then (after, o) == (disk, Failed)
          else
            var current := y.value.number;
            if current == target then (after, o) == (disk, Succeeded)
            else if target < current || target > 4 then (after, o) == (disk, Panicked)
            else
              var text := codec.encode(Steps(c, current, target));
              var dir := Dir(current, target, stamp);
              if !AcceptsAll(c, current, target) || text.None? || dir in disk.dirs then (after, o) == (disk, Failed)
              else
                && o == Succeeded && after.dirs == disk.dirs + {dir}
                && after.files == disk.files[InBackup(dir, name) := orig][InWork(name) := text.value]
  {
    if InWork(name) in disk.files && codec.decode(disk.files[InWork(name)]).Some? {
      var c := codec.decode(disk.files[InWork(name)]).value;
      var y := Get(Obj(c), ["schema_version"]);
      if GetVersion(c).Success? {
        GetVersionIff(c, GetVersion(c).value);
      } else if y.Some? && y.value.Int? && y.value.number >= 0 {
        GetVersionIff(c, y.value.number);
      }
    }
  }

  /** A second run finds nothing to do. */
  lemma RerunIsNoOp(codec: Codec, disk: Disk, name: string, target: nat, stamp: string, faults: Faults,
                    stamp': string, faults': Faults)
    requires Faithful(codec) && !faults'.read
    requires InWork(name) in disk.files && AfterRun(codec, disk, name, target, stamp, faults).1 == Succeeded
    ensures var after := AfterRun(codec, disk, name, target, stamp, faults).0;
      AfterRun(codec, after, name, target, stamp', faults') == (after, Succeeded)
  {
    SuccessMigrates(codec, disk, name, target, stamp, faults);
  }

  /** After a failure that left the configuration, a later run at another second
      ends as if the failed one had never been started. */
  lemma RetryRecovers(codec: Codec, disk: Disk, name: string, target: nat, stamp: string, faults: Faults,
                      stamp': string, faults': Faults)
    requires InWork(name) in disk.files && stamp != stamp' && !faults.config.Cut?
    requires AfterRun(codec, disk, name, target, stamp, faults).1 == Failed
    ensures var failed := AfterRun(codec, disk, name, target, stamp, faults).0;
      var (a, o) := AfterRun(codec, failed, name, target, stamp', faults');
      var (b, p) := AfterRun(codec, disk, name, target, stamp', faults');
      && o == p && a.files[InWork(name)] == b.files[InWork(name)]
      && Current(codec, a, name) == Current(codec, b, name)
  {
    OriginalSurvives(codec, disk, name, target, stamp, faults);
    var failed := AfterRun(codec, disk, name, target, stamp, faults).0;
    assert Current(codec, failed, name) == Current(codec, disk, name);
  }

  /** Upgrading through an intermediate release ends with the document of the direct
      upgrade. */
  lemma StagedRunsAgree(codec: Codec, disk: Disk, name: string, middle: nat, target: nat,
                        stamp: string, stamp': string, faults: Faults, faults': Faults)
    requires Faithful(codec) && Current(codec, disk, name).Some? && middle <= target
    requires AfterRun(codec, disk, name, middle, stamp, faults).1 == Succeeded
    requires var halfway := AfterRun(codec, disk, name, middle, stamp, faults).0;
      AfterRun(codec, halfway, name, target, stamp', faults').1 == Succeeded
    ensures var (c, current) := Current(codec, disk, name).value;
      var halfway := AfterRun(codec, disk, name, middle, stamp, faults).0;
      var after := AfterRun(codec, halfway, name, target, stamp', faults').0;
      && AcceptsAll(c, current, target)
      && Current(codec, after, name) == Some((RereadDoc(Steps(c, current, target)), target))
  {
    SuccessMigrates(codec, disk, name, middle, stamp, faults);
    var (c, current) := Current(codec, disk, name).value;
    var halfway := AfterRun(codec, disk, name, middle, stamp, faults).0;
    SuccessMigrates(codec, halfway, name, target, stamp', faults');
    UpgradePathsAgree(c, current, middle, target);
  }

  /** The documented rollback of the migrated file is the original document. */
  lemma RollbackRestoresFile(codec: Codec, disk: Disk, name: string, target: nat, stamp: string, faults: Faults)
    requires Faithful(codec) && Current(codec, disk, name).Some?
    requires AfterRun(codec, disk, name, target, stamp, faults).1 == Succeeded
    ensures var (c, current) := Current(codec, disk, name).value;
      var after := Current(codec, AfterRun(codec, disk, name, target, stamp, faults).0, name);
      after.Some? && Rollback(after.value.0, current, target) == c
  {
    SuccessMigrates(codec, disk, name, target, stamp, faults);
    var (c, current) := Current(codec, disk, name).value;
    RollbackIsLeftInverse(c, current, target);
  }
}
