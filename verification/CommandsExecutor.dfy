/** The executor of system commands, and what SHOW says after whole sequences of them. */
module CommandsExecutors {
  import opened Disks
  import opened FileSystems
  import opened Worlds
  import opened Replies
  import opened Systems
  import opened InputStreams
  import opened CommandsParsers

  /** What the server remembers of a client. */
  class ClientInfo {
    var joinedToDataBase: bool
    var baseId: nat

    constructor ()
      ensures !joinedToDataBase && baseId == 0
    {
      joinedToDataBase, baseId := false, 0;
    }
  }

  /** The names of the live slots, in id order. */
  function LiveNames(bases: seq<Option<DataBase>>): seq<Name> {
    if bases == [] then []
    else
      var last := bases[|bases| - 1];
      LiveNames(bases[..|bases| - 1]) + if last.Some? then [last.value.name] else []
  }

  class CommandsExecutor {
    constructor () {}

    method ShowStructure(sys: System) returns (rows: seq<Name>)
      ensures rows == LiveNames(sys.bases)
    {
      rows := [];
      for i := 0 to |sys.bases|
        invariant rows == LiveNames(sys.bases[..i])
      {
        assert sys.bases[..i + 1][..i] == sys.bases[..i];
        if sys.bases[i].Some? {
          rows := rows + [sys.bases[i].value.name];
        }
      }
      assert sys.bases[..|sys.bases|] == sys.bases;
    }

    /** CREATE TABLE FOR: the first word left in the stream is the database; the storage engine reads
        the rest. */
    method CreateTable(stream: InputStream, sys: System) returns (r: Reply)
      requires stream.Valid() && sys.Valid()
      modifies stream, sys.fs
      ensures stream.Valid() && sys.Valid()
      ensures TableCreated(old(sys.World()), sys.World(), WordOr(old(stream.pending), 0, ""), r)
      ensures stream.pending == if old(stream.pending) == [] then [] else old(stream.pending)[1..]
      ensures sys.fs.faults == old(sys.fs.faults)
    {
      var ok, name := stream.ReadWord("");
      var found := sys.GetDataBase(name);
      if !found.Found? {
        return Crashed;
      }
      var touched: Disk, outcome: Reply := *, *;
      if WellFormed(touched) && InsideOnly(sys.fs.disk, touched, [name]) {
        sys.fs.disk := touched;
      }
      r := outcome;
    }

    /** The client changes by a successful ATTACH only, and then holds the id of that name. The reply is
        the one that the state and the failures of the file system call for. */
    method Execute(command: Command<InputStream>, client: ClientInfo, sys: System)
      returns (r: Reply, rows: seq<Name>)
      requires sys.Valid()
      requires command.CreateTable? ==> command.rest.Valid()
      requires command.Restore? ==>
                 IsComponent(command.backup) && (command.base == "" || IsComponent(command.base))
      modifies client, sys, sys.fs, if command.CreateTable? then {command.rest} else {}
      ensures sys.Valid()
      ensures
        if command.Attach? && r == Done
        then command.name in sys.nameBase && client.joinedToDataBase && client.baseId == sys.nameBase[command.name]
        else client.joinedToDataBase == old(client.joinedToDataBase) && client.baseId == old(client.baseId)
      ensures Executed(old(View(command)), old(sys.World()), sys.World(), r, rows)
      ensures Replied(old(View(command)), old(sys.World()), Since(old(sys.fs.faults), sys.fs.faults), r)
      ensures sys.fs.reliable && !(command.Backup? && command.base == BACKUP) ==> sys.fs.faults == old(sys.fs.faults)
    {
      rows := [];
      match command
      case Attach(n) =>
        var id := sys.GetDataBaseId(n);
        if id.None? {
          return Rejected, rows;
        }
        client.baseId := id.value;
        client.joinedToDataBase := true;
        r := Done;
      case CreateTable(stream) =>
        r := CreateTable(stream, sys);
      case ShowStructure =>
        rows := ShowStructure(sys);
        r := Done;
      case Help =>
        r := Done;
      case _ =>
        r := ChangeRegistry(command, sys);
    }

    /** The commands that change the registry or the disk. */
    method ChangeRegistry(command: Command<InputStream>, sys: System) returns (r: Reply)
      requires sys.Valid() && (command.CreateDatabase? || command.Backup? || command.Restore? || command.Drop?)
      requires command.Restore? ==>
                 IsComponent(command.backup) && (command.base == "" || IsComponent(command.base))
      modifies sys, sys.fs
      ensures sys.Valid()
      ensures Executed(old(View(command)), old(sys.World()), sys.World(), r, [])
      ensures Replied(old(View(command)), old(sys.World()), Since(old(sys.fs.faults), sys.fs.faults), r)
      ensures sys.fs.reliable && !(command.Backup? && command.base == BACKUP) ==> sys.fs.faults == old(sys.fs.faults)
    {
      ghost var w := sys.World();
      match command
      case CreateDatabase(n) =>
        r := sys.CreateDataBase(n);
        CreateIsExecuted(n, w, sys.World(), r);
      case Backup(n, b) =>
        r := sys.BackUpDatabase(n, b);
        BackupIsExecuted(n, b, w, sys.World(), r);
      case Restore(b, n) =>
        r := sys.RestoreDatabase(b, n);
        RestoreIsExecuted(b, n, w, sys.World(), r);
      case Drop(n) =>
        var id;
        r, id := sys.DeleteDatabase(n);
        DropIsExecuted(n, w, sys.World(), r);
    }
  }

  /** The storage engine writes inside a directory and leaves the directory itself. */
  predicate InsideOnly(d: Disk, d': Disk, p: Path) {
    SameOutside(d, d', p) && (p in d <==> p in d') && (IsDir(d, p) ==> IsDir(d', p))
  }

  /** CREATE TABLE for the database `n`: without a live database nothing happens. */
  predicate TableCreated(w: World, w': World, n: Name, r: Reply)
    requires Registered(w)
  {
    if LookupOf(w, n).Found? then SameRegistry(w, w') && InsideOnly(w.disk, w'.disk, [n])
    else r == Crashed && w' == w
  }

  /** What each command does to the system. */
  ghost predicate Executed(c: Command<seq<string>>, w: World, w': World, r: Reply, rows: seq<Name>)
    requires Registered(w)
  {
    (!c.ShowStructure? ==> rows == []) &&
    match c
    case Attach(n) => w' == w && r == if n in w.names then Done else Rejected
    case CreateDatabase(n) => Created(w, w', n, r)
    case CreateTable(rest) => TableCreated(w, w', WordOr(rest, 0, ""), r)
    case Backup(n, b) => BackedUp(w, w', n, b, r)
    case Restore(b, n) => Restored(w, w', b, n, r)
    case ShowStructure => w' == w && r == Done && rows == LiveNames(w.bases)
    case Drop(n) => Dropped(w, w', n, r)
    case Help => w' == w && r == Done
  }

  lemma CreateIsExecuted(n: Name, w: World, w': World, r: Reply)
    requires Registered(w) && Created(w, w', n, r)
    ensures Executed(CreateDatabase(n), w, w', r, [])
  {
  }

  lemma BackupIsExecuted(n: Name, b: Name, w: World, w': World, r: Reply)
    requires Registered(w) && BackedUp(w, w', n, b, r)
    ensures Executed(Backup(n, b), w, w', r, [])
  {
  }

  lemma RestoreIsExecuted(b: Name, n: Name, w: World, w': World, r: Reply)
    requires Registered(w) && Restored(w, w', b, n, r)
    ensures Executed(Restore(b, n), w, w', r, [])
  {
  }

  lemma DropIsExecuted(n: Name, w: World, w': World, r: Reply)
    requires Registered(w) && Dropped(w, w', n, r)
    ensures Executed(Drop(n), w, w', r, [])
  {
  }

  /** How each command ends when the calls in `f` have failed under it. What the storage engine makes of
      a new table is its own affair. */
  predicate Replied(c: Command<seq<string>>, w: World, f: Faults, r: Reply)
    requires Registered(w)
  {
    match c
    case Attach(n) => r == if n in w.names then Done else Rejected
    case CreateDatabase(n) => r == CreateReply(w, n, f)
    case CreateTable(rest) => LookupOf(w, WordOr(rest, 0, "")).Found? || r == Crashed
    case Backup(n, b) => r == BackupReply(w, n, b, f)
    case Restore(b, n) => r == RestoreReply(w, b, n, f)
    case ShowStructure => r == Done
    case Drop(n) => r == DropReply(w, n, f)
    case Help => r == Done
  }

  /** When nothing fails, a command succeeds exactly when its request is in order, and is refused as
      wrong input otherwise, except for what the file system itself cannot do. */
  lemma CommandsSucceedWhenInOrder(c: Command<seq<string>>, w: World, r: Reply)
    requires Registered(w) && Replied(c, w, NO_FAULTS, r)
    ensures c.CreateDatabase? ==>
              (r == Done <==> NameAllowed(c.name) && !Exists(w.disk, c.name) && IsDir(w.disk, [])) &&
              (IsDir(w.disk, []) ==> r != Crashed)
    ensures c.Backup? ==>
              (r == Done <==> CanBackUp(w, c.base, c.backup)) &&
              (r == Crashed ==> !IsDir(w.disk, [BACKUP]) || BackupPath(c.backup) in w.disk)
    ensures c.Restore? ==>
              (r == Done <==> IsDir(w.disk, BackupPath(c.backup)) && c.base != "" && c.base != BACKUP) && r != Crashed
    ensures c.Drop? ==> r == if c.base in w.names then Done else Rejected
  {
  }

  // ----- SHOW against the registry.

  /** One row for each registered name, none missing and none twice, in the order of the ids. */
  ghost predicate ShowsRegistry(rows: seq<Name>, w: World) {
    && (forall i :: 0 <= i < |rows| ==> rows[i] in w.names)
    && (forall n :: n in w.names ==> n in rows)
    && (forall i, j :: 0 <= i < j < |rows| ==> rows[i] in w.names && rows[j] in w.names && w.names[rows[i]] < w.names[rows[j]])
  }

  /** The rows of the first `k` slots are the names with ids below `k`, in the order of the ids. */
  ghost predicate RowsBelow(rows: seq<Name>, w: World, k: nat) {
    && (forall i :: 0 <= i < |rows| ==> rows[i] in w.names && w.names[rows[i]] < k)
    && (forall n :: n in w.names && w.names[n] < k ==> n in rows)
    && (forall i, j :: 0 <= i < j < |rows| ==> w.names[rows[i]] < w.names[rows[j]])
  }

  lemma OneMoreRow(rows: seq<Name>, w: World, k: nat)
    requires Consistent(w) && k < |w.bases| && RowsBelow(rows, w, k)
    ensures RowsBelow(rows + if w.bases[k].Some? then [w.bases[k].value.name] else [], w, k + 1)
  {
    var rows' := rows + if w.bases[k].Some? then [w.bases[k].value.name] else [];
    forall n | n in w.names && w.names[n] < k + 1 ensures n in rows' {
      if w.names[n] == k {
        assert w.bases[w.names[n]].Some?;
        assert rows'[|rows|] == n;
      }
    }
  }

  lemma {:induction false} RowsUpTo(w: World, k: nat)
    requires Consistent(w) && k <= |w.bases|
    ensures RowsBelow(LiveNames(w.bases[..k]), w, k)
  {
    if k == 0 {
      assert w.bases[..0] == [];
    } else {
      RowsUpTo(w, k - 1);
      assert w.bases[..k][..k - 1] == w.bases[..k - 1];
      OneMoreRow(LiveNames(w.bases[..k - 1]), w, k - 1);
    }
  }

  lemma ShowAgreesWithRegistry(w: World)
    requires Consistent(w)
    ensures ShowsRegistry(LiveNames(w.bases), w)
  {
    RowsUpTo(w, |w.bases|);
    assert w.bases[..|w.bases|] == w.bases;
  }

  // ----- Sequences of commands, one after the other.

  /** A command with its outcome. `Engine` is a query or CREATE TABLE on an open database. */
  datatype Act =
    | CreateAct(name: Name, reply: Reply)
    | DropAct(name: Name, reply: Reply)
    | BackupAct(name: Name, backup: Name, reply: Reply)
    | RestoreAct(backup: Name, name: Name, reply: Reply)
    | EngineAct(name: Name)

  ghost predicate Acted(w: World, a: Act, w': World) {
    Registered(w) &&
    match a
    case CreateAct(n, r) => Created(w, w', n, r)
    case DropAct(n, r) => Dropped(w, w', n, r)
    case BackupAct(n, b, r) => BackedUp(w, w', n, b, r)
    case RestoreAct(b, n, r) => Restored(w, w', b, n, r)
    case EngineAct(n) => SameRegistry(w, w') && InsideOnly(w.disk, w'.disk, [n])
  }

  /** Whatever the executor does to the system is an act, or nothing. */
  lemma ExecutedIsActed(c: Command<seq<string>>, w: World, w': World, r: Reply, rows: seq<Name>) returns (a: Act)
    requires Registered(w) && Executed(c, w, w', r, rows)
    ensures w' == w || Acted(w, a, w')
  {
    match c
    case CreateDatabase(n) => a := CreateAct(n, r);
    case CreateTable(rest) => a := EngineAct(WordOr(rest, 0, ""));
    case Backup(n, b) => a := BackupAct(n, b, r);
    case Restore(b, n) => a := RestoreAct(b, n, r);
    case Drop(n) => a := DropAct(n, r);
    case _ => a := EngineAct("");
  }

  /** The failure that hurts: a restore that got as far as the slot of a registered name, or that
      removed the root and with it the directories of all of them. */
  predicate FailsOverRegistered(w: World, a: Act) {
    && a.RestoreAct? && a.reply != Done && IsDir(w.disk, BackupPath(a.backup))
    && (a.name in w.names || (a.name == "" && a.reply == Rejected && w.names != map[]))
  }

  /** A restore to the root whose rollback failed as well: any part of the tree may be left. */
  predicate HalfGone(a: Act) {
    a.RestoreAct? && a.name == "" && a.reply == Crashed
  }

  lemma OtherDirectoriesStay(w: World, w': World, p: Path, n: Name)
    requires SameOutside(w.disk, w'.disk, p) && p != [] && (p == [p[0]] ==> p[0] != n) && IsDir(w.disk, [n])
    ensures IsDir(w'.disk, [n])
  {
    OutsideKeeps(w.disk, w'.disk, p, [n]);
  }

  /** The root entry below which an act may change the disk. */
  function Reach(a: Act): Path {
    match a
    case CreateAct(n, _) => [n]
    case DropAct(n, _) => [n]
    case BackupAct(_, b, _) => BackupPath(b)
    case RestoreAct(_, n, _) => BasePath(n)
    case EngineAct(n) => [n]
  }

  lemma DirectoriesAfter(w: World, a: Act, w': World, n: Name)
    requires Consistent(w) && Acted(w, a, w') && n in w'.names
    ensures IsDir(w'.disk, [n]) || FailsOverRegistered(w, a) || HalfGone(a)
  {
    assert SameOutside(w.disk, w'.disk, Reach(a));
    if Reach(a) == [] {
      return;
    }
    if n in w.names && Reach(a) != [n] {
      OtherDirectoriesStay(w, w', Reach(a), n);
    }
  }

  /** Names and live slots are inverse to each other. */
  ghost predicate Paired(w: World) {
    && Registered(w)
    && (forall n :: n in w.names ==> w.bases[w.names[n]].Some?)
    && (forall i :: 0 <= i < |w.bases| && w.bases[i].Some? ==>
          w.bases[i].value.name in w.names && w.names[w.bases[i].value.name] == i)
  }

  lemma AppendKeepsPaired(w: World, w': World, base: DataBase)
    requires Paired(w) && base.name !in w.names
    requires w'.bases == w.bases + [Some(base)] && w'.names == w.names[base.name := |w.bases|]
    ensures Paired(w')
  {
  }

  lemma SlotKeepsPaired(w: World, w': World, base: DataBase)
    requires Paired(w) && base.name in w.names && w'.names == w.names
    requires w'.bases == w.bases[w.names[base.name] := Some(base)]
    ensures Paired(w')
  {
  }

  lemma DropKeepsPaired(w: World, w': World, n: Name, r: Reply)
    requires Paired(w) && Dropped(w, w', n, r)
    ensures Paired(w')
  {
  }

  lemma SlotsAfter(w: World, a: Act, w': World)
    requires Consistent(w) && Acted(w, a, w') && !FailsOverRegistered(w, a)
    ensures Paired(w')
  {
    match a
    case CreateAct(n, r) => if r == Done { AppendKeepsPaired(w, w', DataBase(n, EMPTY_DIRECTORY)); }
    case DropAct(n, r) => DropKeepsPaired(w, w', n, r);
    case BackupAct(_, _, _) =>
    case RestoreAct(b, n, r) =>
      if r == Done {
        var base := DataBase(n, Tree(w.disk, BackupPath(b)));
        if n in w.names { SlotKeepsPaired(w, w', base); } else { AppendKeepsPaired(w, w', base); }
      }
    case EngineAct(_) =>
  }

  /** Names, live slots and directories stay in step through exactly the other outcomes. */
  lemma ConsistencyIsKeptExactly(w: World, a: Act, w': World)
    requires Consistent(w) && Acted(w, a, w') && (a.RestoreAct? ==> WellFormed(w'.disk))
    ensures !HalfGone(a) ==> (Consistent(w') <==> !FailsOverRegistered(w, a))
  {
    if HalfGone(a) {
    } else if !FailsOverRegistered(w, a) {
      SlotsAfter(w, a, w');
      forall n | n in w'.names ensures IsDir(w'.disk, [n]) {
        DirectoriesAfter(w, a, w', n);
      }
    } else if a.name in w.names {
      assert w'.bases[w'.names[a.name]].None?;
    } else {
      var n :| n in w'.names;
      NothingBelow(w'.disk, []);
      assert [] <= [n];
    }
  }

  ghost predicate IsHistory(ws: seq<World>, acts: seq<Act>) {
    |ws| == |acts| + 1 && forall k :: 0 <= k < |acts| ==> Acted(ws[k], acts[k], ws[k + 1])
  }

  /** After any sequence of commands in which no restore over a registered name fails, SHOW lists
      the registry. */
  lemma {:induction false} ShowAgreesThroughout(ws: seq<World>, acts: seq<Act>, k: nat)
    requires IsHistory(ws, acts) && k < |ws| && Consistent(ws[0])
    requires forall i :: 0 <= i < |ws| ==> WellFormed(ws[i].disk)
    requires forall i :: 0 <= i < k ==> !FailsOverRegistered(ws[i], acts[i]) && !HalfGone(acts[i])
    ensures Consistent(ws[k]) && ShowsRegistry(LiveNames(ws[k].bases), ws[k])
  {
    if k > 0 {
      ShowAgreesThroughout(ws, acts, k - 1);
      ConsistencyIsKeptExactly(ws[k - 1], acts[k - 1], ws[k]);
    }
    ShowAgreesWithRegistry(ws[k]);
  }

  /** A failed restore touches nothing but its own slot and its own directory. */
  lemma FailedRestoreIsContained(w: World, w': World, b: Name, n: Name, r: Reply)
    requires Registered(w) && Restored(w, w', b, n, r) && r != Done
    ensures w'.names == w.names && |w'.bases| == |w.bases|
    ensures forall i :: 0 <= i < |w.bases| && !(n in w.names && w.names[n] == i) ==> w'.bases[i] == w.bases[i]
    ensures n != "" ==> forall m :: m != n ==> Tree(w'.disk, [m]) == Tree(w.disk, [m])
  {
    if IsDir(w.disk, BackupPath(b)) && n != "" {
      forall m | m != n ensures Tree(w'.disk, [m]) == Tree(w.disk, [m]) {
        assert [m][0] != [n][0];
        OutsideKeepsTree(w.disk, w'.disk, [n], [m]);
      }
    }
  }

  // ----- Backups under commands.

  /** A command that ran its course on something that is there. */
  predicate TakesEffect(w: World, a: Act) {
    match a
    case CreateAct(_, r) => r == Done
    case DropAct(n, r) => r == Done && n in w.names
    case BackupAct(_, _, r) => r == Done
    case RestoreAct(b, _, r) => r != Crashed && IsDir(w.disk, BackupPath(b))
    case EngineAct(_) => false
  }

  /** Whether a command is aimed above the backups: at their root entry, or at the root itself. */
  predicate AimsAtBackups(a: Act) {
    Reach(a) == [BACKUP] || Reach(a) == []
  }

  lemma BackupIsGone(w: World, a: Act, w': World, b: Name)
    requires Acted(w, a, w') && TakesEffect(w, a) && WellFormed(w.disk) && WellFormed(w'.disk)
    requires BackupPath(b) in w.disk && AimsAtBackups(a)
    ensures BackupPath(b) !in w'.disk
  {
    var p := BackupPath(b);
    assert HasParent(w.disk, p) && Parent(p) == [BACKUP];
    assert [BACKUP] <= p && [] <= p;
    if a.RestoreAct? {
      NothingBelow(w'.disk, Reach(a));
    }
  }

  /** A command aimed elsewhere keeps every backup, however it ends. */
  lemma ActKeepsBackup(w: World, a: Act, w': World, b: Name)
    requires Acted(w, a, w') && BackupPath(b) in w.disk && !AimsAtBackups(a)
    ensures BackupPath(b) in w'.disk && Tree(w'.disk, BackupPath(b)) == Tree(w.disk, BackupPath(b))
  {
    var p := BackupPath(b);
    if w' != w {
      assert SameOutside(w.disk, w'.disk, Reach(a));
      assert Reach(a)[0] != p[0] || Reach(a)[1] != p[1];
      OutsideKeeps(w.disk, w'.disk, Reach(a), p);
      OutsideKeepsTree(w.disk, w'.disk, Reach(a), p);
    }
  }

  /** Of the commands that run their course, exactly those aimed at the root entry of the backups, or
      at the root, change a backup; they destroy it. */
  lemma BackupSurvivesExactly(w: World, a: Act, w': World, b: Name)
    requires Acted(w, a, w') && TakesEffect(w, a) && WellFormed(w.disk) && WellFormed(w'.disk)
    requires BackupPath(b) in w.disk
    ensures Tree(w'.disk, BackupPath(b)) == Tree(w.disk, BackupPath(b)) <==> !AimsAtBackups(a)
  {
    var p := BackupPath(b);
    assert p + [] == p;
    assert [] in Tree(w.disk, p);
    if AimsAtBackups(a) {
      BackupIsGone(w, a, w', b);
      assert [] !in Tree(w'.disk, p);
    } else {
      ActKeepsBackup(w, a, w', b);
    }
  }

  lemma {:induction false} ActsKeepBackup(ws: seq<World>, acts: seq<Act>, i: nat, j: nat, b: Name)
    requires IsHistory(ws, acts) && i <= j < |ws| && BackupPath(b) in ws[i].disk
    requires forall k :: i <= k < j ==> !AimsAtBackups(acts[k])
    ensures BackupPath(b) in ws[j].disk && Tree(ws[j].disk, BackupPath(b)) == Tree(ws[i].disk, BackupPath(b))
    decreases j
  {
    if i < j {
      ActsKeepBackup(ws, acts, i, j - 1, b);
      ActKeepsBackup(ws[j - 1], acts[j - 1], ws[j], b);
    }
  }

  /** BACKUP n AS b, any commands aimed elsewhere, RESTORE b AS m: the database found as `m` was opened
      on the tree that `n` had at the backup, with nothing left of what `m` held before. */
  lemma CommandsBringTheTreeBack(ws: seq<World>, acts: seq<Act>, i: nat, j: nat, n: Name, b: Name, m: Name)
    requires IsHistory(ws, acts) && i < j < |acts| && n != BACKUP
    requires acts[i] == BackupAct(n, b, Done) && acts[j] == RestoreAct(b, m, Done)
    requires forall k :: i < k < j ==> !AimsAtBackups(acts[k])
    ensures Registered(ws[j + 1]) && LookupOf(ws[j + 1], m) == Found(DataBase(m, Tree(ws[i].disk, [n])))
  {
    assert Acted(ws[i], acts[i], ws[i + 1]) && Acted(ws[j], acts[j], ws[j + 1]);
    ActsKeepBackup(ws, acts, i + 1, j, b);
    RestoredKeepsRegistered(ws[j], ws[j + 1], b, m, Done);
  }
}
