/** The state that the system keeps, in memory and on disk, and what one command may do to it. */
module Worlds {
  import opened Disks

  datatype Option<T> = None | Some(value: T)

  /** An open database. `openedOn` is the tree that its constructor was given to read. */
  datatype DataBase = DataBase(name: Name, openedOn: Disk)

  /** `bases` only grows; a slot is emptied when its database goes, and ids are positions in it. */
  datatype World = World(bases: seq<Option<DataBase>>, names: map<Name, nat>, disk: Disk)

  /** Return, IncorrectInputException, or any other exception. */
  datatype Reply = Done | Rejected | Crashed

  const BACKUP: Name := "backup"

  function BackupPath(b: Name): Path { [BACKUP, b] }

  /** Where a database of this name lives; without a name it is the root itself. */
  function BasePath(n: Name): Path {
    if n == "" then [] else [n]
  }

  const FORBIDDEN: string := "/\\?%*:|\"<>"

  /** The check that CREATE and BACKUP make of a new name. */
  predicate NameAllowed(n: Name) {
    n != "" && forall i :: 0 <= i < |n| ==> n[i] !in FORBIDDEN
  }

  /** A name that stands for one directory entry. */
  predicate IsComponent(n: Name) {
    n != "" && n != "." && n != ".." && forall i :: 0 <= i < |n| ==> n[i] != '/' && n[i] != '\\'
  }

  /** fs::exists of a name in the root; as long as the root is there, so are the two dots. */
  predicate Exists(d: Disk, n: Name) {
    ((n == "." || n == "..") && IsDir(d, [])) || [n] in d
  }

  /** What holds of the registry whatever has failed: every name has an id of its own, and the slot
      there is empty or holds the database of that name. */
  predicate Registered(w: World) {
    && (forall n :: n in w.names ==> w.names[n] < |w.bases|)
    && (forall n :: n in w.names && w.bases[w.names[n]].Some? ==> w.bases[w.names[n]].value.name == n)
    && (forall m, n :: m in w.names && n in w.names && w.names[m] == w.names[n] ==> m == n)
  }

  /** What holds as long as no restore over a registered name has failed: names and live slots
      correspond one to one, and every name has its directory. */
  predicate Consistent(w: World) {
    && Registered(w)
    && (forall n :: n in w.names ==> w.bases[w.names[n]].Some? && IsDir(w.disk, [n]))
    && (forall i :: 0 <= i < |w.bases| && w.bases[i].Some? ==>
          w.bases[i].value.name in w.names && w.names[w.bases[i].value.name] == i)
  }

  /** What a lookup finds; a null slot is a null dereference in the program. */
  datatype Lookup = Found(base: DataBase) | NotRegistered | NullSlot

  function LookupOf(w: World, n: Name): Lookup
    requires Registered(w)
  {
    if n !in w.names then NotRegistered
    else if w.bases[w.names[n]].Some? then Found(w.bases[w.names[n]].value)
    else NullSlot
  }

  function IdLookup(w: World, id: nat): Lookup {
    if id >= |w.bases| then NotRegistered
    else if w.bases[id].Some? then Found(w.bases[id].value)
    else NullSlot
  }

  /** `name_base.insert` leaves an entry that is already there. */
  function Insert(names: map<Name, nat>, n: Name, id: nat): map<Name, nat> {
    if n in names then names else names[n := id]
  }

  predicate SameRegistry(w: World, w': World) {
    w'.bases == w.bases && w'.names == w.names
  }

  /** CREATE DATABASE n. */
  predicate Created(w: World, w': World, n: Name, r: Reply) {
    match r
    case Done =>
      && NameAllowed(n) && !Exists(w.disk, n)
      && w'.bases == w.bases + [Some(DataBase(n, EMPTY_DIRECTORY))]
      && w'.names == Insert(w.names, n, |w.bases|)
      && SameOutside(w.disk, w'.disk, [n]) && IsDir(w'.disk, [n])
    case Rejected =>
      w' == w && (!NameAllowed(n) || Exists(w.disk, n))
    case Crashed =>
      && NameAllowed(n) && !Exists(w.disk, n)
      && SameRegistry(w, w') && SameOutside(w.disk, w'.disk, [n])
      && (w'.disk != w.disk ==> IsDir(w'.disk, [n]))
  }

  /** DROP DATABASE n. */
  predicate Dropped(w: World, w': World, n: Name, r: Reply)
    requires Registered(w)
  {
    if n !in w.names then r == Rejected && w' == w
    else
      && r != Crashed
      && w'.bases == w.bases[w.names[n] := None]
      && w'.names == w.names - {n}
      && Pruned(w.disk, w'.disk, [n])
      && (!IsDir(w.disk, [n]) ==> r == Done && w'.disk == w.disk)
      && (IsDir(w.disk, [n]) && r == Done ==> w'.disk == Without(w.disk, [n]))
  }

  /** What BACKUP asks for before it copies anything. */
  predicate CanBackUp(w: World, n: Name, b: Name) {
    && n in w.names && IsDir(w.disk, [n]) && NameAllowed(b) && IsComponent(b)
    && IsDir(w.disk, [BACKUP]) && BackupPath(b) !in w.disk
  }

  /** How BACKUP answers a request that is not in order. What stops it is an error of the file system
      when the directory of the backup cannot be made, because its parent is missing or a file has its name. */
  function BackupRefusal(w: World, n: Name, b: Name): Reply {
    if n !in w.names || !NameAllowed(b) || !IsDir(w.disk, [n]) then Rejected
    else if b == "." || b == ".." then if IsDir(w.disk, [BACKUP]) then Rejected else Crashed
    else if IsDir(w.disk, BackupPath(b)) then Rejected
    else Crashed
  }

  /** BACKUP n AS b. A rejected backup leaves everything as it was. */
  predicate BackedUp(w: World, w': World, n: Name, b: Name, r: Reply) {
    && (!CanBackUp(w, n, b) ==> r == BackupRefusal(w, n, b) && w' == w)
    && match r
    case Done =>
      && CanBackUp(w, n, b)
      && SameRegistry(w, w') && SameOutside(w.disk, w'.disk, BackupPath(b)) && IsDir(w'.disk, BackupPath(b))
      && (n != BACKUP ==> Tree(w'.disk, BackupPath(b)) == Tree(w.disk, [n]))
    case Rejected =>
      w' == w
    case Crashed =>
      && SameRegistry(w, w') && SameOutside(w.disk, w'.disk, BackupPath(b))
      && (w' != w ==> CanBackUp(w, n, b) && BackupPath(b) in w'.disk)
  }

  /** The slot of a registered name is emptied before anything else is done to it. */
  function Emptied(w: World, n: Name): seq<Option<DataBase>>
    requires Registered(w)
  {
    if n in w.names then w.bases[w.names[n] := None] else w.bases
  }

  /** RESTORE b AS n. A restore to the root or to the entry of the backups removes its own source, and
      so never succeeds. */
  predicate Restored(w: World, w': World, b: Name, n: Name, r: Reply)
    requires Registered(w)
  {
    if !IsDir(w.disk, BackupPath(b)) then r == Rejected && w' == w
    else
      && SameOutside(w.disk, w'.disk, BasePath(n))
      && (r == Done ==>
            var base := Some(DataBase(n, Tree(w.disk, BackupPath(b))));
            && n != "" && n != BACKUP && IsDir(w'.disk, [n])
            && w'.names == Insert(w.names, n, |w.bases|)
            && w'.bases == if n in w.names then w.bases[w.names[n] := base] else w.bases + [base])
      && (r != Done ==> w'.names == w.names && w'.bases == Emptied(w, n))
      && (r == Rejected ==> BasePath(n) !in w'.disk)
  }

  // ----- The registry invariant survives every command, however it ends.

  lemma AppendKeepsRegistered(w: World, w': World, base: DataBase)
    requires Registered(w)
    requires w'.bases == w.bases + [Some(base)] && w'.names == Insert(w.names, base.name, |w.bases|)
    ensures Registered(w')
  {
  }

  lemma CreatedKeepsRegistered(w: World, w': World, n: Name, r: Reply)
    requires Registered(w) && Created(w, w', n, r)
    ensures Registered(w') && |w.bases| <= |w'.bases|
  {
    if r == Done {
      AppendKeepsRegistered(w, w', DataBase(n, EMPTY_DIRECTORY));
    }
  }

  lemma DroppedKeepsRegistered(w: World, w': World, n: Name, r: Reply)
    requires Registered(w) && Dropped(w, w', n, r)
    ensures Registered(w') && |w.bases| <= |w'.bases|
  {
  }

  lemma SlotKeepsRegistered(w: World, w': World, n: Name, slot: Option<DataBase>)
    requires Registered(w) && n in w.names && (slot.Some? ==> slot.value.name == n)
    requires w'.bases == w.bases[w.names[n] := slot] && w'.names == w.names
    ensures Registered(w')
  {
  }

  lemma RestoredKeepsRegistered(w: World, w': World, b: Name, n: Name, r: Reply)
    requires Registered(w) && Restored(w, w', b, n, r)
    ensures Registered(w') && |w.bases| <= |w'.bases|
  {
    if IsDir(w.disk, BackupPath(b)) {
      var base := DataBase(n, Tree(w.disk, BackupPath(b)));
      if n in w.names {
        SlotKeepsRegistered(w, w', n, if r == Done then Some(base) else None);
      } else if r == Done {
        AppendKeepsRegistered(w, w', base);
      }
    }
  }
}
