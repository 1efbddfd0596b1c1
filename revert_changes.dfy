/** The rollback script: pick a component, check that its backup exists, confirm,
    then overwrite the live file with the backup and append a ROLLBACK entry to
    the change log.

    The working directory is a map from path to bytes. The two answers typed at
    the prompts, the rendered modification time of the backup and the timestamp
    are parameters, and so are the outcomes of the copy and of the log write
    (either can raise; the script catches both and reports a failure). */
module RevertChanges {
  import opened Common
  import LastGoodEngine

  type Bytes = LastGoodEngine.Bytes

  datatype Target = Target(live: string, backup: string, name: string)

  /** The components that can be rolled back, by menu key. */
  const Files: map<string, Target> := map[
    "1" := Target("content_store.py", "content_store.last_good.py", "Content Store (Data)"),
    "2" := Target("publish_gem.py", "publish_gem.last_good.py", "Publish Script (Engine)")]

  /** `os.path.join(BACKUP_DIR, backup)` */
  function BackupPath(t: Target): string {
    "backups/" + t.backup
  }

  /** A rollback log entry, `[ts] [ROLLBACK] message`. */
  function LogRevert(ts: string, message: string): string {
    "[" + ts + "] [ROLLBACK] " + message + "\n"
  }

  function RestoredMessage(live: string, humanTime: string): string {
    "Restored " + live + " from backup (" + humanTime + ")"
  }

  datatype Outcome = InvalidChoice | NoBackup | Declined | CopyFailed | RestoredUnlogged | Restored

  /** What `main` does to the files and the log. */
  function Revert(files: map<string, Bytes>, log: seq<string>, choice: string, confirm: string,
                  humanTime: string, ts: string, copyOk: bool, logOk: bool)
    : (Outcome, map<string, Bytes>, seq<string>)
  {
    if choice !in Files then (InvalidChoice, files, log)
    else
      var target := Files[choice];
      var backupPath := BackupPath(target);
      if backupPath !in files then (NoBackup, files, log)
      else if Lower(confirm) != "y" then (Declined, files, log)
      else if !copyOk then (CopyFailed, files, log)
      else
        var restored := files[target.live := files[backupPath]];
        if !logOk then (RestoredUnlogged, restored, log)
        else (Restored, restored, log + [LogRevert(ts, RestoredMessage(target.live, humanTime))])
  }

  /** Every early exit — an unknown selection, a missing backup, a declined
      confirmation, a failed copy — leaves the files and the log as they were. */
  lemma EarlyExitsChangeNothing(files: map<string, Bytes>, log: seq<string>, choice: string, confirm: string,
                                humanTime: string, ts: string, copyOk: bool, logOk: bool)
    ensures var (o, files1, log1) := Revert(files, log, choice, confirm, humanTime, ts, copyOk, logOk);
      && (choice !in Files ==> o == InvalidChoice)
      && (choice in Files && BackupPath(Files[choice]) !in files ==> o == NoBackup)
      && (choice in Files && BackupPath(Files[choice]) in files && Lower(confirm) != "y" ==> o == Declined)
      && (o in {InvalidChoice, NoBackup, Declined, CopyFailed} ==> files1 == files && log1 == log)
  {
  }

  /** After a restore the live file holds the backup's bytes, every other path (the
      backup and the other live file among them) is unchanged, and the log grows by
      exactly one ROLLBACK entry when the log write succeeds. */
  lemma RestoreEffect(files: map<string, Bytes>, log: seq<string>, choice: string, confirm: string,
                      humanTime: string, ts: string, copyOk: bool, logOk: bool)
    ensures var (o, files1, log1) := Revert(files, log, choice, confirm, humanTime, ts, copyOk, logOk);
      (o == Restored || o == RestoredUnlogged) ==>
        var t := Files[choice];
        && files1 == files[t.live := files[BackupPath(t)]]
        && files1[t.live] == files[BackupPath(t)]
        && (forall p :: p != t.live ==> (p in files1 <==> p in files) && (p in files1 ==> files1[p] == files[p]))
        && log1 == (if o == Restored then log + [LogRevert(ts, RestoredMessage(t.live, humanTime))] else log)
  {
  }

  /** A restore happens exactly when the selection is known, its backup exists, the
      answer is 'y' in any case, and the copy succeeds. */
  lemma RestoreIff(files: map<string, Bytes>, log: seq<string>, choice: string, confirm: string,
                   humanTime: string, ts: string, copyOk: bool, logOk: bool)
    ensures var o := Revert(files, log, choice, confirm, humanTime, ts, copyOk, logOk).0;
      (o == Restored || o == RestoredUnlogged) <==>
        (choice in Files && BackupPath(Files[choice]) in files && Lower(confirm) == "y" && copyOk)
  {
  }

  /** The rollback reads the very files that the older engine's backup step writes. */
  lemma BackupPathsFollowBackupRule(choice: string)
    requires choice in Files
    ensures BackupPath(Files[choice]) == LastGoodEngine.BackupName(Files[choice].live)
    ensures Files[choice].live in LastGoodEngine.BackedUp
  {
    var t := Files[choice];
    if choice == "1" {
      assert t.live == LastGoodEngine.BackedUp[0];
      BackupRuleFor(t, "content_store");
    } else {
      assert t.live == LastGoodEngine.BackedUp[1];
      BackupRuleFor(t, "publish_gem");
    }
  }

  /** A target `<stem>.py` backed up as `<stem>.last_good.py`. */
  lemma BackupRuleFor(t: Target, stem: string)
    requires '.' !in stem && t.live == stem + ".py" && t.backup == stem + ".last_good.py"
    ensures BackupPath(t) == LastGoodEngine.BackupName(t.live)
  {
    LastGoodEngine.BackupNameOfModule(stem, t.live);
    assert BackupPath(t) == LastGoodEngine.BackupDir + stem + ".last_good.py";
  }

  /** The working directory and the change log. */
  class Workspace {
    var files: map<string, Bytes>
    var changelog: seq<string>

    constructor (initial: map<string, Bytes>, log: seq<string>)
      ensures files == initial && changelog == log
    {
      files := initial;
      changelog := log;
    }

    /** `log_revert` */
    method LogRevertEntry(ts: string, message: string, logOk: bool)
      modifies this
      ensures files == old(files)
      ensures changelog == if logOk then old(changelog) + [LogRevert(ts, message)] else old(changelog)
    {
      if logOk {
        changelog := changelog + [LogRevert(ts, message)];
      }
    }

    /** `main`, with the prompts' answers passed in. */
    method Rollback(choice: string, confirm: string, humanTime: string, ts: string, copyOk: bool, logOk: bool)
      returns (o: Outcome)
      modifies this
      ensures (o, files, changelog) == Revert(old(files), old(changelog), choice, confirm, humanTime, ts, copyOk, logOk)
    {
      if choice !in Files {
        return InvalidChoice;
      }
      var target := Files[choice];
      var liveFile := target.live;
      var backupPath := BackupPath(target);
      if backupPath !in files {
        return NoBackup;
      }
      if Lower(confirm) != "y" {
        return Declined;
      }
      if !copyOk {
        return CopyFailed;
      }
      files := files[liveFile := files[backupPath]];
      LogRevertEntry(ts, RestoredMessage(liveFile, humanTime), logOk);
      o := if logOk then Restored else RestoredUnlogged;
    }
  }
}
