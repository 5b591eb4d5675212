/** How each command ends, as a matter of the state that it finds and of the calls that fail under it. */
module Replies {
  import opened Disks
  import opened FileSystems
  import opened Worlds

  function CreateReply(w: World, n: Name, f: Faults): Reply {
    if !NameAllowed(n) || Exists(w.disk, n) then Rejected
    else if IsDir(w.disk, []) && f == NO_FAULTS then Done
    else Crashed
  }

  function DropReply(w: World, n: Name, f: Faults): Reply {
    if n in w.names && f == NO_FAULTS then Done else Rejected
  }

  function BackupReply(w: World, n: Name, b: Name, f: Faults): Reply {
    if CanBackUp(w, n, b) then CopyReply(f) else BackupRefusal(w, n, b)
  }

  /** Only a failure to make the directory of the backup, or to remove it again, gets through to the
      client as it is. */
  function CopyReply(f: Faults): Reply {
    if f == NO_FAULTS then Done
    else if f.makes > 0 || f.rollbacks > 0 then Crashed
    else Rejected
  }

  /** A restore that destroys what it is to restore. */
  predicate DestroysSource(n: Name) {
    n == "" || n == BACKUP
  }

  function RestoreReply(w: World, b: Name, n: Name, f: Faults): Reply {
    if IsDir(w.disk, BackupPath(b)) then ReplacementReply(DestroysSource(n), f) else Rejected
  }

  /** An exception other than a file system error gets through as it is. Everything else is rolled back and
      rejected, unless the rollback fails. */
  function ReplacementReply(destroysSource: bool, f: Faults): Reply {
    if f == NO_FAULTS then if destroysSource then Rejected else Done
    else if f.others > 0 || f.rollbacks > 0 then Crashed
    else Rejected
  }

  /** Startup fails by itself only on a root that is no directory, or when a file has the name of the
      directory for the backups. */
  function StartupReply(d: Disk, f: Faults): Reply {
    if IsDir(d, []) && ([BACKUP] in d ==> IsDir(d, [BACKUP])) && f == NO_FAULTS then Done else Crashed
  }
}
