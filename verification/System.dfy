/** The class System: the registry of databases over the root directory. */
module Systems {
  import opened Disks
  import opened FileSystems
  import opened Worlds
  import opened Replies

  /** How the constructor of DataBase ends. */
  datatype Opening = Opened(base: DataBase) | FsError | OtherError

  lemma AllowedIsComponent(n: Name, d: Disk)
    requires NameAllowed(n) && !Exists(d, n) && IsDir(d, [])
    ensures IsComponent(n)
  {
  }

  lemma RootEntryAbove(n: Name, b: Name)
    ensures BasePath(n) <= BackupPath(b) <==> n == "" || n == BACKUP
    ensures !(BackupPath(b) <= BasePath(n))
  {
    assert n != "" ==> BasePath(n)[0] == n;
  }

  lemma DefaultIsAllowed()
    ensures NameAllowed("default")
  {
  }

  /** Names found in the root directory, each once. */
  ghost predicate IsListing(d: Disk, listing: seq<Name>) {
    && (forall n :: [n] in d <==> n in listing)
    && (forall n :: n in listing ==> IsComponent(n))
    && (forall i, j :: 0 <= i < j < |listing| ==> listing[i] != listing[j])
  }

  /** The directories of the root whose constructor succeeds. */
  function SoundNames(d: Disk, listing: seq<Name>, sound: set<Name>): set<Name> {
    set n | n in listing && n in sound && IsDir(d, [n])
  }

  /** The slots that startup fills: one for each sound directory, in the order of the listing, with the
      database opened on the tree that its directory holds. */
  function OpenedBases(d: Disk, listing: seq<Name>, sound: set<Name>): seq<Option<DataBase>> {
    if listing == [] then []
    else
      var n := listing[|listing| - 1];
      OpenedBases(d, listing[..|listing| - 1], sound) +
      if n in sound && IsDir(d, [n]) then [Some(DataBase(n, Tree(d, [n])))] else []
  }

  /** Every name leads to a database that was opened on the tree of its own directory. */
  ghost predicate OnTheirTrees(d: Disk, w: World) {
    forall n :: n in w.names ==>
      w.names[n] < |w.bases| && w.bases[w.names[n]] == Some(DataBase(n, Tree(d, [n])))
  }

  /** No entry of the root is lost or changes its kind, files keep their content, and what is new is the
      directory of the backups or the first database of an empty root. */
  ghost predicate RootKept(d: Disk, d': Disk, empty: bool) {
    && (forall n :: [n] in d ==>
          [n] in d' && (IsDir(d', [n]) <==> IsDir(d, [n])) && (!IsDir(d, [n]) ==> d'[[n]] == d[[n]]))
    && forall n :: [n] in d' ==> [n] in d || n == BACKUP || (n == "default" && empty)
  }

  lemma RootWithBackup(d: Disk, d': Disk, d'': Disk, empty: bool)
    requires RootKept(d, d', empty) && [BACKUP] !in d' && d'' == d'[[BACKUP] := Dir]
    ensures RootKept(d, d'', empty)
  {
    assert forall n :: [n] == [BACKUP] ==> n == [n][0] == BACKUP;
  }

  class System {
    const fs: FileSystem
    var bases: seq<Option<DataBase>>
    var nameBase: map<Name, nat>

    ghost function World(): World
      reads this, fs
    {
      Worlds.World(bases, nameBase, fs.disk)
    }

    ghost predicate Valid()
      reads this, fs
    {
      WellFormed(fs.disk) && Registered(World()) && forall n :: n in nameBase ==> IsComponent(n)
    }

    constructor (fs: FileSystem)
      requires WellFormed(fs.disk)
      ensures this.fs == fs && bases == [] && nameBase == map[]
      ensures Valid()
    {
      this.fs := fs;
      bases, nameBase := [], map[];
    }

    /** The constructor of DataBase reads the tree at `p`. It may write below `p` (a full table is
        extended when it is opened), and it may fail with an exception of either kind, though not on
        a reliable file system. */
    method OpenDataBase(p: Path, name: Name) returns (r: Opening)
      requires WellFormed(fs.disk) && IsDir(fs.disk, p)
      modifies fs
      ensures WellFormed(fs.disk) && IsDir(fs.disk, p) && SameOutside(old(fs.disk), fs.disk, p)
      ensures r.Opened? ==> r.base == DataBase(name, Tree(old(fs.disk), p))
      ensures fs.faults == match r
                           case Opened(_) => old(fs.faults)
                           case FsError => old(fs.faults).(openings := old(fs.faults).openings + 1)
                           case OtherError => old(fs.faults).(others := old(fs.faults).others + 1)
      ensures fs.reliable ==> r.Opened?
    {
      var given := Tree(fs.disk, p);
      var touched: Disk, good: bool, onDisk: bool := *, *, *;
      good := good || fs.reliable;
      if WellFormed(touched) && IsDir(touched, p) && SameOutside(fs.disk, touched, p) {
        fs.disk := touched;
      }
      r := if good then Opened(DataBase(name, given)) else if onDisk then FsError else OtherError;
      match r
      case Opened(_) =>
      case FsError => fs.faults := fs.faults.(openings := fs.faults.openings + 1);
      case OtherError => fs.faults := fs.faults.(others := fs.faults.others + 1);
    }

    /** What has failed under the command so far. */
    twostate function New(): Faults
      reads fs
    {
      Since(old(fs.faults), fs.faults)
    }

    /** A lookup by the id that a client holds: for the id of a name it is the lookup of that name. */
    method GetDataBaseById(ind: nat) returns (r: Lookup)
      requires Valid()
      ensures forall n :: n in nameBase && nameBase[n] == ind ==> r == LookupOf(World(), n)
      ensures r == NotRegistered <==> ind >= |bases|
      ensures r == NullSlot <==> ind < |bases| && bases[ind] == None
      ensures r.Found? ==> bases[ind] == Some(r.base)
    {
      if ind >= |bases| {
        return NotRegistered;
      }
      r := if bases[ind].Some? then Found(bases[ind].value) else NullSlot;
    }

    method GetDataBaseId(name: Name) returns (r: Option<nat>)
      requires Valid()
      ensures r == if name in nameBase then Some(nameBase[name]) else None
      ensures r.Some? ==> r.value < |bases|
    {
      r := if name in nameBase then Some(nameBase[name]) else None;
    }

    /** A lookup by name: an id without a database behind it is a null dereference in the source. */
    method GetDataBase(name: Name) returns (r: Lookup)
      requires Valid()
      ensures r == LookupOf(World(), name)
      ensures r.Found? ==> r.base.name == name
    {
      if name !in nameBase {
        return NotRegistered;
      }
      var slot := bases[nameBase[name]];
      r := if slot.Some? then Found(slot.value) else NullSlot;
    }

    method CreateDataBase(name: Name) returns (r: Reply)
      requires Valid()
      modifies this, fs
      ensures Valid() && Created(old(World()), World(), name, r)
      ensures r == CreateReply(old(World()), name, New())
      ensures New().openings > 0 || New().others > 0 ==> IsDir(fs.disk, [name])
      ensures fs.reliable ==> fs.faults == old(fs.faults)
    {
      if !NameAllowed(name) || Exists(fs.disk, name) {
        return Rejected;
      }
      var made := fs.CreateDirectory([name]);
      if made != Made {
        return if made == AlreadyThere then Rejected else Crashed;
      }
      NewDirectory(old(fs.disk), [name]);
      var opening := OpenDataBase([name], name);
      if !opening.Opened? {
        return Crashed;
      }
      var id := |bases|;
      bases := bases + [Some(opening.base)];
      nameBase := Insert(nameBase, name, id);
      r := Done;
      AllowedIsComponent(name, old(fs.disk));
      CreatedKeepsRegistered(old(World()), World(), name, r);
    }

    method DeleteDatabase(dbName: Name) returns (r: Reply, id: nat)
      requires Valid()
      modifies this, fs
      ensures Valid() && Dropped(old(World()), World(), dbName, r)
      ensures dbName in old(nameBase) ==> id == old(nameBase)[dbName]
      ensures r == DropReply(old(World()), dbName, New())
      ensures fs.reliable ==> fs.faults == old(fs.faults)
    {
      id := 0;
      if dbName !in nameBase {
        return Rejected, id;
      }
      id := nameBase[dbName];
      bases := bases[id := None];
      nameBase := nameBase - {dbName};
      r := Done;
      if IsDir(fs.disk, [dbName]) {
        var removed := fs.RemoveAll([dbName]);
        if !removed {
          r := Rejected;
        }
      }
      DroppedKeepsRegistered(old(World()), World(), dbName, r);
    }

    method BackUpDatabase(dbName: Name, backupName: Name) returns (r: Reply)
      requires Valid()
      modifies fs
      ensures Valid() && BackedUp(old(World()), World(), dbName, backupName, r)
      ensures r == BackupReply(old(World()), dbName, backupName, New())
      ensures r != Done && New().rollbacks == 0 ==> World() == old(World())
      ensures fs.removes ==> New().rollbacks == 0
      ensures fs.reliable && dbName != BACKUP ==> fs.faults == old(fs.faults)
    {
      if dbName !in nameBase || !NameAllowed(backupName) {
        return Rejected;
      }
      var source, backup := [dbName], BackupPath(backupName);
      if !IsDir(fs.disk, source) {
        return Rejected;
      }
      if backupName == "." || backupName == ".." {
        return if IsDir(fs.disk, [BACKUP]) then Rejected else Crashed;
      }
      assert Parent(backup) == [BACKUP];
      assert source <= backup <==> dbName == BACKUP by { assert source[0] == dbName; }
      r := MakeBackup(source, backup);
    }

    /** A new directory, and the copy into it; a copy that fails is undone. */
    method MakeBackup(source: Path, backup: Path) returns (r: Reply)
      requires WellFormed(fs.disk) && IsDir(fs.disk, source) && !(backup <= source)
      modifies fs
      ensures WellFormed(fs.disk) && SameOutside(old(fs.disk), fs.disk, backup)
      ensures r == Done ==> IsDir(fs.disk, backup)
      ensures r == Done && !(source <= backup) ==> Tree(fs.disk, backup) == Tree(old(fs.disk), source)
      ensures r == Rejected || (r == Crashed && New().rollbacks == 0) ==> fs.disk == old(fs.disk)
      ensures r == Crashed && fs.disk != old(fs.disk) ==> backup in fs.disk
      ensures if backup !in old(fs.disk) && HasParent(old(fs.disk), backup)
              then r == CopyReply(New())
              else r == (if IsDir(old(fs.disk), backup) then Rejected else Crashed) && New() == NO_FAULTS
      ensures fs.removes ==> New().rollbacks == 0
      ensures fs.reliable && !(source <= backup) ==> fs.faults == old(fs.faults)
    {
      var made := fs.CreateDirectory(backup);
      if made != Made {
        return if made == AlreadyThere then Rejected else Crashed;
      }
      NewDirectory(old(fs.disk), backup);
      OutsideKeeps(old(fs.disk), fs.disk, backup, source);
      if !(source <= backup) {
        OutsideKeepsTree(old(fs.disk), fs.disk, backup, source);
      }
      var copied := Fill(source, backup);
      if copied {
        return Done;
      }
      r := RollBack(backup);
      if backup !in fs.disk {
        RemovalUndoes(old(fs.disk), fs.disk, backup);
        NothingBelow(fs.disk, backup);
        assert Without(fs.disk, backup) == fs.disk;
      }
    }

    /** The handler of both try blocks: what was begun is removed, and the input is to blame. */
    method RollBack(p: Path) returns (r: Reply)
      requires WellFormed(fs.disk)
      modifies fs
      ensures WellFormed(fs.disk) && SameOutside(old(fs.disk), fs.disk, p)
      ensures r != Done && (r == Rejected ==> p !in fs.disk)
      ensures fs.faults == if r == Rejected then old(fs.faults)
                           else old(fs.faults).(rollbacks := old(fs.faults).rollbacks + 1)
      ensures fs.reliable || fs.removes ==> r == Rejected
    {
      var removed := fs.RemoveAll(p);
      r := if removed then Rejected else Crashed;
      if !removed {
        fs.faults := old(fs.faults).(rollbacks := old(fs.faults).rollbacks + 1);
      }
    }

    /** The copy of backup, whose target may lie inside its source. */
    method Fill(source: Path, backup: Path) returns (ok: bool)
      requires WellFormed(fs.disk) && IsDir(fs.disk, source) && Tree(fs.disk, backup) == EMPTY_DIRECTORY
      requires !(backup <= source)
      modifies fs
      ensures WellFormed(fs.disk) && SameOutside(old(fs.disk), fs.disk, backup) && IsDir(fs.disk, backup)
      ensures ok && !(source <= backup) ==> Tree(fs.disk, backup) == Tree(old(fs.disk), source)
      ensures fs.faults == if ok then old(fs.faults) else old(fs.faults).(copies := old(fs.faults).copies + 1)
      ensures fs.reliable && !(source <= backup) ==> ok
    {
      if source <= backup {
        assert [] in Tree(fs.disk, backup) && backup + [] == backup;
        ok := fs.CopyIntoItself(backup);
      } else {
        ok := fs.CopyEntries(source, backup);
      }
    }

    method RestoreDatabase(backupName: Name, dbName: Name) returns (r: Reply)
      requires Valid() && IsComponent(backupName) && (dbName == "" || IsComponent(dbName))
      modifies this, fs
      ensures Valid() && Restored(old(World()), World(), backupName, dbName, r)
      ensures r == RestoreReply(old(World()), backupName, dbName, New())
      ensures fs.removes ==> New().rollbacks == 0
      ensures New().others > 0 ==> IsDir(fs.disk, BasePath(dbName))
      ensures fs.reliable ==> fs.faults == old(fs.faults)
    {
      var backup, target := BackupPath(backupName), BasePath(dbName);
      RootEntryAbove(dbName, backupName);
      if !IsDir(fs.disk, backup) {
        return Rejected;
      }
      var existed, id := false, |bases|;
      if dbName in nameBase {
        existed, id := true, nameBase[dbName];
        bases := bases[id := None];
      }
      var opening;
      r, opening := ReplaceOrRollBack(backup, target, dbName);
      if opening.Opened? {
        if existed {
          bases := bases[id := Some(opening.base)];
        } else {
          bases := bases + [Some(opening.base)];
          nameBase := Insert(nameBase, dbName, id);
        }
      }
      assert Restored(old(World()), World(), backupName, dbName, r);
      RestoredKeepsRegistered(old(World()), World(), backupName, dbName, r);
    }

    /** The try block of restore and its handler: only a file system error is answered by a removal. */
    method ReplaceOrRollBack(backup: Path, target: Path, name: Name) returns (r: Reply, opening: Opening)
      requires WellFormed(fs.disk) && IsDir(fs.disk, backup) && !(backup <= target)
      modifies fs
      ensures WellFormed(fs.disk) && SameOutside(old(fs.disk), fs.disk, target)
      ensures r == Done <==> opening.Opened?
      ensures r == Done ==> !(target <= backup) && IsDir(fs.disk, target)
      ensures r == Done ==> opening.base == DataBase(name, Tree(old(fs.disk), backup))
      ensures r == Rejected ==> target !in fs.disk
      ensures opening == OtherError ==> IsDir(fs.disk, target)
      ensures HasParent(old(fs.disk), target) ==> r == ReplacementReply(target <= backup, New())
      ensures New().others > 0 <==> opening == OtherError
      ensures fs.removes ==> New().rollbacks == 0
      ensures fs.reliable ==> fs.faults == old(fs.faults)
    {
      opening := ReplaceTree(backup, target, name);
      if opening.Opened? {
        return Done, opening;
      } else if opening == OtherError {
        return Crashed, opening;
      }
      r := RollBack(target);
    }

    /** The body of the try block of restore, up to the new database. */
    method ReplaceTree(backup: Path, target: Path, name: Name) returns (r: Opening)
      requires WellFormed(fs.disk) && IsDir(fs.disk, backup) && !(backup <= target)
      modifies fs
      ensures WellFormed(fs.disk) && SameOutside(old(fs.disk), fs.disk, target)
      ensures r.Opened? ==>
                !(target <= backup) && IsDir(fs.disk, target) && r.base == DataBase(name, Tree(old(fs.disk), backup))
      ensures r == OtherError ==> IsDir(fs.disk, target)
      ensures r.Opened? ==> fs.faults == old(fs.faults)
      ensures HasParent(old(fs.disk), target) && fs.faults == old(fs.faults) ==> r.Opened? || target <= backup
      ensures fs.faults.others == old(fs.faults.others) + if r == OtherError then 1 else 0
      ensures fs.faults.rollbacks == old(fs.faults.rollbacks)
      ensures fs.reliable ==> fs.faults == old(fs.faults)
    {
      var made := MakeTarget(target);
      if !made {
        return FsError;
      }
      SourceAfterClearing(old(fs.disk), fs.disk, target, backup);
      if !IsDir(fs.disk, backup) {
        return FsError;
      }
      var copied := fs.CopyEntries(backup, target);
      if !copied {
        return FsError;
      }
      r := OpenDataBase(target, name);
    }

    /** Whatever is in the way goes, and a new directory comes. */
    method MakeTarget(target: Path) returns (ok: bool)
      requires WellFormed(fs.disk)
      modifies fs
      ensures WellFormed(fs.disk) && SameOutside(old(fs.disk), fs.disk, target)
      ensures ok ==> Tree(fs.disk, target) == EMPTY_DIRECTORY
      ensures ok ==> fs.faults == old(fs.faults)
      ensures HasParent(old(fs.disk), target) && fs.faults == old(fs.faults) ==> ok
      ensures fs.faults.others == old(fs.faults.others) && fs.faults.rollbacks == old(fs.faults.rollbacks)
      ensures fs.reliable ==> fs.faults == old(fs.faults)
    {
      if target in fs.disk {
        var removed := fs.RemoveAll(target);
        if !removed {
          return false;
        }
        RemovalLeavesNothing(old(fs.disk), target);
      }
      ghost var cleared := fs.disk;
      assert target !in cleared && SameOutside(old(fs.disk), cleared, target);
      var made := fs.CreateDirectory(target);
      ok := made == Made;
      if ok {
        NewDirectory(cleared, target);
      }
    }

    /**
     * Startup. `listing` is the order in which the directory iterator delivers the root, and
     * `sound` are the directories whose constructor succeeds.
     */
    method LoadFoldersAndOpenBases(listing: seq<Name>, sound: set<Name>) returns (r: Reply)
      requires Valid() && bases == [] && nameBase == map[]
      requires IsListing(fs.disk, listing)
      modifies this, fs
      ensures Valid()
      ensures !IsDir(old(fs.disk), []) ==> r == Crashed && World() == old(World())
      ensures r == Done ==> Consistent(World()) && IsDir(fs.disk, [BACKUP])
      ensures r == Done && listing != [] ==> nameBase.Keys == SoundNames(old(fs.disk), listing, sound)
      ensures r == Done && listing != [] ==> bases == OpenedBases(old(fs.disk), listing, sound)
      ensures r == Done && listing != [] ==> OnTheirTrees(old(fs.disk), World())
      ensures r == Done && listing == [] ==>
                nameBase == map["default" := 0] && bases == [Some(DataBase("default", EMPTY_DIRECTORY))]
      ensures RootKept(old(fs.disk), fs.disk, listing == [])
      ensures r == StartupReply(old(fs.disk), New())
      ensures fs.reliable ==> fs.faults == old(fs.faults)
    {
      if !IsDir(fs.disk, []) {
        return Crashed;
      }
      var hasNotBackUp := OpenListed(listing, sound);
      if listing == [] {
        r := OpenDefault();
        if r != Done {
          return;
        }
      }
      ghost var loaded := fs.disk;
      assert RootKept(old(fs.disk), loaded, listing == []);
      r := EnsureBackup(hasNotBackUp);
      if fs.disk != loaded {
        RootWithBackup(old(fs.disk), loaded, fs.disk, listing == []);
      }
    }

    /** An empty root gets a first database. */
    method OpenDefault() returns (r: Reply)
      requires Valid() && bases == [] && nameBase == map[]
      requires IsDir(fs.disk, []) && forall n :: [n] !in fs.disk
      modifies this, fs
      ensures Valid() && IsDir(fs.disk, []) && [BACKUP] !in fs.disk
      ensures r == if New() == NO_FAULTS then Done else Crashed
      ensures fs.reliable ==> fs.faults == old(fs.faults)
      ensures r == Done ==> Consistent(World())
      ensures r == Done ==> nameBase == map["default" := 0] && bases == [Some(DataBase("default", EMPTY_DIRECTORY))]
      ensures forall n :: [n] in fs.disk ==> n == "default"
    {
      DefaultIsAllowed();
      assert !Exists(fs.disk, "default");
      r := CreateDataBase("default");
      if r == Done {
        FirstDatabase(old(World()), World(), "default");
      }
      assert ["default"][0] != [BACKUP][0];
      OutsideKeeps(old(fs.disk), fs.disk, ["default"], [BACKUP]);
      OutsideKeeps(old(fs.disk), fs.disk, ["default"], []);
      OtherEntriesStay(old(fs.disk), fs.disk, "default");
    }

    method EnsureBackup(hasNotBackUp: bool) returns (r: Reply)
      requires Valid() && Consistent(World()) && IsDir(fs.disk, []) && (hasNotBackUp || IsDir(fs.disk, [BACKUP]))
      modifies fs
      ensures Valid()
      ensures r == Done ==> Consistent(World()) && IsDir(fs.disk, [BACKUP])
      ensures SameRegistry(old(World()), World())
      ensures fs.disk == old(fs.disk) || ([BACKUP] !in old(fs.disk) && fs.disk == old(fs.disk)[[BACKUP] := Dir])
      ensures r == StartupReply(old(fs.disk), New())
      ensures fs.reliable ==> fs.faults == old(fs.faults)
    {
      if hasNotBackUp {
        var made := fs.CreateDirectory([BACKUP]);
        if made == MkdirFailed {
          return Crashed;
        }
        if made == Made {
          MoreDirectoriesAreConsistent(old(World()), World(), BACKUP);
        }
      }
      r := Done;
    }

    /** The loop of startup. The counter that gives out ids keeps pace with the slots. */
    method OpenListed(listing: seq<Name>, sound: set<Name>) returns (hasNotBackUp: bool)
      requires Valid() && bases == [] && nameBase == map[]
      requires IsListing(fs.disk, listing) && IsDir(fs.disk, [])
      modifies this, fs
      ensures Valid() && Consistent(World()) && IsDir(fs.disk, [])
      ensures nameBase.Keys == SoundNames(old(fs.disk), listing, sound)
      ensures bases == OpenedBases(old(fs.disk), listing, sound)
      ensures OnTheirTrees(old(fs.disk), World())
      ensures listing == [] ==> bases == [] && nameBase == map[] && forall n :: [n] !in fs.disk
      ensures RootKept(old(fs.disk), fs.disk, false)
      ensures [BACKUP] in fs.disk <==> [BACKUP] in old(fs.disk)
      ensures IsDir(fs.disk, [BACKUP]) <==> IsDir(old(fs.disk), [BACKUP])
      ensures hasNotBackUp <==> !IsDir(fs.disk, [BACKUP])
      ensures fs.faults == old(fs.faults)
    {
      hasNotBackUp := true;
      var count := 0;
      ghost var d0 := fs.disk;
      for i := 0 to |listing|
        invariant Loaded(d0, World(), listing, i, sound) && WellFormed(fs.disk)
        invariant count == |bases| && fs.faults == old(fs.faults)
        invariant hasNotBackUp <==> !(BACKUP in listing[..i] && IsDir(d0, [BACKUP]))
      {
        var name := listing[i];
        ghost var before := World();
        assert [name] in d0;
        if IsDir(fs.disk, [name]) {
          if hasNotBackUp && name == BACKUP {
            hasNotBackUp := false;
          }
          count := OpenFolder(name, name in sound, count);
        }
        LoadOne(d0, before, World(), listing, i, sound);
        assert listing[..i + 1] == listing[..i] + [name];
      }
      assert listing[..|listing|] == listing;
      LoadedIsConsistent(d0, World(), listing, sound);
    }

    /** A directory of the root is opened under the next id, unless its constructor fails. */
    method OpenFolder(name: Name, succeeds: bool, count: nat) returns (next: nat)
      requires WellFormed(fs.disk) && IsDir(fs.disk, [name]) && count == |bases|
      modifies this, fs
      ensures WellFormed(fs.disk) && IsDir(fs.disk, [name]) && SameOutside(old(fs.disk), fs.disk, [name])
      ensures if succeeds then Appended(old(World()), World(), name) else SameRegistry(old(World()), World())
      ensures next == |bases| && fs.faults == old(fs.faults)
    {
      next := count;
      var base := TryOpen(name, succeeds);
      if base.Some? {
        bases := bases + [base];
        nameBase := Insert(nameBase, name, count);
        next := count + 1;
      }
    }

    /** The constructor call inside the loop, whose exceptions are swallowed. */
    method TryOpen(name: Name, succeeds: bool) returns (r: Option<DataBase>)
      requires WellFormed(fs.disk) && IsDir(fs.disk, [name])
      modifies fs
      ensures WellFormed(fs.disk) && IsDir(fs.disk, [name]) && SameOutside(old(fs.disk), fs.disk, [name])
      ensures r == if succeeds then Some(DataBase(name, Tree(old(fs.disk), [name]))) else None
      ensures fs.faults == old(fs.faults)
    {
      var given := Tree(fs.disk, [name]);
      var touched: Disk := *;
      if WellFormed(touched) && IsDir(touched, [name]) && SameOutside(fs.disk, touched, [name]) {
        fs.disk := touched;
      }
      r := if succeeds then Some(DataBase(name, given)) else None;
    }
  }

  /** A source inside the target is gone with it; any other source is as it was. */
  lemma SourceAfterClearing(d: Disk, d': Disk, target: Path, backup: Path)
    requires SameOutside(d, d', target) && Tree(d', target) == EMPTY_DIRECTORY
    requires IsDir(d, backup) && !(backup <= target)
    ensures IsDir(d', target)
    ensures IsDir(d', backup) <==> !(target <= backup)
    ensures !(target <= backup) ==> Tree(d', backup) == Tree(d, backup)
  {
    assert target + [] == target && [] in Tree(d', target);
    if target <= backup {
      var q := backup[|target|..];
      assert target + q == backup && q !in EMPTY_DIRECTORY;
    } else {
      SourceStays(d, d', target, backup);
      OutsideKeepsTree(d, d', target, backup);
    }
  }

  /** Startup after the first `i` entries: their slots are there, the map is the inverse of the slots,
      and the rest of the root is as it was. */
  ghost predicate Loaded(d0: Disk, w: World, listing: seq<Name>, i: nat, sound: set<Name>)
    requires i <= |listing|
  {
    Entered(d0, w, listing[..i], sound) && SameEntries(d0, w.disk) && Unopened(d0, w.disk, listing[..i])
  }

  ghost predicate Entered(d0: Disk, w: World, seen: seq<Name>, sound: set<Name>) {
    && w.bases == OpenedBases(d0, seen, sound) && IsInverse(w)
    && forall n :: n in w.names <==> n in seen && n in sound && IsDir(d0, [n])
  }

  /** All slots are live, and the map sends the name of each to its position. */
  ghost predicate IsInverse(w: World) {
    && (forall i :: 0 <= i < |w.bases| ==> w.bases[i].Some?)
    && (forall i :: 0 <= i < |w.bases| ==>
          w.bases[i].value.name in w.names && w.names[w.bases[i].value.name] == i)
    && (forall n :: n in w.names ==> w.names[n] < |w.bases| && w.bases[w.names[n]].value.name == n)
  }

  /** The root and its entries, each of the same kind as before. */
  ghost predicate SameEntries(d0: Disk, d: Disk) {
    && (IsDir(d0, []) ==> IsDir(d, []))
    && forall n :: ([n] in d <==> [n] in d0) && (IsDir(d, [n]) <==> IsDir(d0, [n]))
  }

  /** What the constructors called so far cannot have touched. */
  ghost predicate Unopened(d0: Disk, d: Disk, seen: seq<Name>) {
    forall n {:trigger SameTree(d0, d, n)} :: n !in seen || !IsDir(d0, [n]) ==> SameTree(d0, d, n)
  }

  predicate SameTree(d0: Disk, d: Disk, n: Name) {
    Tree(d, [n]) == Tree(d0, [n])
  }

  /** A new slot for the database of this directory, under the next id. */
  predicate Appended(w: World, w': World, n: Name) {
    && w'.bases == w.bases + [Some(DataBase(n, Tree(w.disk, [n])))]
    && w'.names == Insert(w.names, n, |w.bases|)
  }

  lemma AppendedIsInverse(w: World, w': World, base: DataBase)
    requires IsInverse(w) && base.name !in w.names
    requires w'.bases == w.bases + [Some(base)] && w'.names == w.names[base.name := |w.bases|]
    ensures IsInverse(w')
  {
  }

  lemma EnterOne(d0: Disk, w: World, w': World, seen: seq<Name>, sound: set<Name>, base: DataBase)
    requires Entered(d0, w, seen, sound) && base.name !in seen
    requires if base.name in sound && IsDir(d0, [base.name])
             then base.openedOn == Tree(d0, [base.name]) &&
                  w'.bases == w.bases + [Some(base)] && w'.names == w.names[base.name := |w.bases|]
             else SameRegistry(w, w')
    ensures Entered(d0, w', seen + [base.name], sound)
  {
    assert (seen + [base.name])[..|seen|] == seen;
    if base.name in sound && IsDir(d0, [base.name]) {
      AppendedIsInverse(w, w', base);
    }
  }

  lemma LoadOne(d0: Disk, w: World, w': World, listing: seq<Name>, i: nat, sound: set<Name>)
    requires i < |listing| && Loaded(d0, w, listing, i, sound)
    requires forall j, k :: 0 <= j < k < |listing| ==> listing[j] != listing[k]
    requires SameOutside(w.disk, w'.disk, [listing[i]])
    requires if IsDir(w.disk, [listing[i]]) then IsDir(w'.disk, [listing[i]]) else w'.disk == w.disk
    requires if listing[i] in sound && IsDir(w.disk, [listing[i]])
             then Appended(w, w', listing[i])
             else SameRegistry(w, w')
    ensures Loaded(d0, w', listing, i + 1, sound)
  {
    var name := listing[i];
    assert listing[..i + 1] == listing[..i] + [name];
    assert SameTree(d0, w.disk, name);
    EnterOne(d0, w, w', listing[..i], sound, DataBase(name, Tree(d0, [name])));
    EntriesStay(d0, w.disk, w'.disk, name);
    RestStays(d0, w.disk, w'.disk, listing[..i], name);
  }

  lemma OtherEntriesStay(d: Disk, d': Disk, name: Name)
    requires SameOutside(d, d', [name])
    ensures IsDir(d', []) <==> IsDir(d, [])
    ensures forall n :: n != name ==> (IsDir(d', [n]) <==> IsDir(d, [n])) && ([n] in d' <==> [n] in d)
  {
    OutsideKeeps(d, d', [name], []);
    forall n | n != name ensures (IsDir(d', [n]) <==> IsDir(d, [n])) && ([n] in d' <==> [n] in d) {
      assert [n][0] != [name][0];
      OutsideKeeps(d, d', [name], [n]);
    }
  }

  lemma EntriesStay(d0: Disk, d: Disk, d': Disk, name: Name)
    requires SameEntries(d0, d) && SameOutside(d, d', [name])
    requires if IsDir(d, [name]) then IsDir(d', [name]) else d' == d
    ensures SameEntries(d0, d')
  {
    OtherEntriesStay(d, d', name);
  }

  lemma RestStays(d0: Disk, d: Disk, d': Disk, seen: seq<Name>, name: Name)
    requires Unopened(d0, d, seen) && SameOutside(d, d', [name]) && (d' == d || IsDir(d0, [name]))
    ensures Unopened(d0, d', seen + [name])
  {
    forall n | n !in seen + [name] || !IsDir(d0, [n]) ensures SameTree(d0, d', n) {
      assert SameTree(d0, d, n);
      if d' != d {
        assert [n][0] != [name][0];
        OutsideKeepsTree(d, d', [name], [n]);
      }
    }
  }

  lemma {:induction false} EachOnItsOwnTree(d: Disk, listing: seq<Name>, sound: set<Name>)
    ensures forall i :: 0 <= i < |OpenedBases(d, listing, sound)| ==>
              OpensItself(d, OpenedBases(d, listing, sound)[i])
  {
    if listing != [] {
      EachOnItsOwnTree(d, listing[..|listing| - 1], sound);
    }
  }

  predicate OpensItself(d: Disk, slot: Option<DataBase>) {
    slot.Some? && slot == Some(DataBase(slot.value.name, Tree(d, [slot.value.name])))
  }

  lemma LoadedIsConsistent(d0: Disk, w: World, listing: seq<Name>, sound: set<Name>)
    requires Loaded(d0, w, listing, |listing|, sound) && IsListing(d0, listing)
    ensures Consistent(w) && w.bases == OpenedBases(d0, listing, sound)
    ensures OnTheirTrees(d0, w)
    ensures w.names.Keys == SoundNames(d0, listing, sound) && forall n :: n in w.names ==> IsComponent(n)
    ensures listing == [] ==> w.bases == [] && w.names == map[] && forall n :: [n] !in w.disk
    ensures BACKUP in listing && IsDir(d0, [BACKUP]) <==> IsDir(w.disk, [BACKUP])
    ensures RootKept(d0, w.disk, false)
    ensures [BACKUP] in w.disk <==> [BACKUP] in d0
    ensures IsDir(w.disk, [BACKUP]) <==> IsDir(d0, [BACKUP])
  {
    assert listing[..|listing|] == listing;
    EachOnItsOwnTree(d0, listing, sound);
    RootIsKept(d0, w.disk, listing);
  }

  lemma RootIsKept(d0: Disk, d: Disk, listing: seq<Name>)
    requires SameEntries(d0, d) && Unopened(d0, d, listing)
    ensures RootKept(d0, d, false)
  {
    forall n | [n] in d0 && !IsDir(d0, [n]) ensures d[[n]] == d0[[n]] {
      assert SameTree(d0, d, n);
      assert [n] + [] == [n];
      assert [] in Tree(d0, [n]);
    }
  }

  lemma FirstDatabase(w: World, w': World, n: Name)
    requires w.bases == [] && w.names == map[] && Created(w, w', n, Done)
    ensures Consistent(w') && w'.names == map[n := 0] && w'.bases == [Some(DataBase(n, EMPTY_DIRECTORY))]
  {
  }

  /** A new entry in the root that is not a database leaves the registry consistent. */
  lemma MoreDirectoriesAreConsistent(w: World, w': World, n: Name)
    requires Consistent(w) && [n] !in w.disk && w' == w.(disk := w.disk[[n] := Dir])
    ensures Consistent(w')
  {
  }
}
