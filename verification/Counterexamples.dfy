/** Why the conditions of the run lemmas are there: runs that break what they protect. */
module Counterexamples {
  import opened Disks
  import opened Worlds
  import opened Interleavings
  import opened Histories
  import opened Protocols
  import opened SingleCommands

  ghost predicate HasTwins(w: World, n: Name) {
    exists i, j :: 0 <= i < j < |w.bases| && w.bases[i].Some? && w.bases[j].Some? &&
                   w.bases[i].value.name == w.bases[j].value.name == n
  }

  /** What the restore makes of the world while the create waits. */
  function AfterRestore(w: World, b: Name, n: Name): World {
    World(w.bases + [Some(DataBase(n, Tree(w.disk, BackupPath(b))))], w.names[n := |w.bases|], w.disk[[n] := Dir])
  }

  /** The thread that was creating goes on as if nothing had happened. */
  lemma CreateGoesOn(r: Run, t: Thread, n: Name) returns (r': Run)
    requires IsRun(r) && LockFree(Last(r)) && Creating(PcOf(Last(r), t)) == Some(n)
    ensures Extends(r, r')
    ensures
      var bases, bases' := Last(r).world.bases, Last(r').world.bases;
      |bases'| == |bases| + 1 && bases < bases' && bases'[|bases|].Some? && bases'[|bases|].value.name == n
  {
    r' := r;
    var w := Last(r).world;
    if PcOf(Last(r), t).Made? {
      var s := At(Last(r).pcs, t, Open(DataBase(n, EMPTY_DIRECTORY)), w);
      assert Step(Last(r), Move(t, OpenBase(true)), s);
      r' := Continue(r, Move(t, OpenBase(true)), s);
    }
    var s1 := Last(r');
    var base := PcOf(s1, t).base;
    assert forall u :: u != t ==> PcOf(s1, u) == PcOf(Last(r), u);
    var s2 := At(s1.pcs, t, Idle, World(w.bases + [Some(base)], Insert(w.names, base.name, |w.bases|), w.disk));
    assert Step(s1, Move(t, Publish), s2);
    r' := Continue(r', Move(t, Publish), s2);
  }

  /** From every state in which a name is being created, a restore of that name that begins there can
      end, together with the create, in two live databases of that name. */
  lemma EveryOverlapCanMakeTwins(s: State, t: Thread, u: Thread, b: Name, n: Name) returns (r: Run)
    requires Protocol(s) && LockFree(s) && WellFormed(s.world.disk) && IsDir(s.world.disk, BackupPath(b))
    requires Creating(PcOf(s, t)) == Some(n) && PcOf(s, u) == Idle && n != "" && n != BACKUP
    ensures IsRun(r) && r.states[0] == s && r.moves != [] && r.moves[0] == Move(u, RestoreBegin(b, n))
    ensures HasTwins(Last(r).world, n)
  {
    var w, w' := s.world, AfterRestore(s.world, b, n);
    UpdateBelow(w.disk, [n], [n], Dir);
    assert n !in w.names;
    r := RestoreIsARun(w, w', b, n, Done, s.pcs, u);
    r := CreateGoesOn(r, t, n);
    var bases, k := Last(r).world.bases, |w.bases|;
    assert bases[k].Some? && bases[k + 1].Some? && bases[k].value.name == bases[k + 1].value.name == n;
  }

  const ROOT_WITH_BACKUP: Disk := map[[] := Dir, [BACKUP] := Dir, [BACKUP, "b"] := Dir]

  /** Such states exist: one client has made the directory of "a", and there is a backup. */
  lemma OverlappingRestoreMakesTwins() returns (r: Run)
    ensures IsRun(r) && Protocol(r.states[0]) && HasTwins(Last(r).world, "a")
  {
    var d := ROOT_WITH_BACKUP[["a"] := Dir];
    var s := State(World([], map[], d), map[0 := Made("a")]);
    assert BackupPath("b") == [BACKUP, "b"] && Parent([BACKUP, "b"]) == [BACKUP];
    assert Parent([BACKUP]) == [] && Parent(["a"]) == [];
    assert Creating(PcOf(s, 0)) == Some("a") && PcOf(s, 1) == Idle;
    r := EveryOverlapCanMakeTwins(s, 0, 1, "b", "a");
  }

  /** Startup opens the directory of the backups like any other; once it is registered, dropping
      it removes a completed backup. */
  lemma DroppingTheBackupEntryRemovesBackups() returns (r: Run)
    ensures IsRun(r) && Inv(r.states[0]) && Complete(r.states[0], "b")
    ensures |r.moves| > 0 && r.moves[0].event == DropBegin(BACKUP) && !Complete(Last(r), "b")
  {
    var w := World([Some(DataBase(BACKUP, EMPTY_DIRECTORY))], map[BACKUP := 0], ROOT_WITH_BACKUP);
    var w' := World([None], map[], map[[] := Dir]);
    assert BackupPath("b") == [BACKUP, "b"];
    assert w.names - {BACKUP} == map[];
    OnlyTheRootIsLeft();
    r := DropIsARun(w, w', BACKUP, Done, map[], 0);
  }

  lemma OnlyTheRootIsLeft()
    ensures Without(ROOT_WITH_BACKUP, [BACKUP]) == map[[] := Dir]
    ensures Pruned(ROOT_WITH_BACKUP, map[[] := Dir], [BACKUP])
  {
    assert [BACKUP] <= [BACKUP, "b"] && [BACKUP] <= [BACKUP];
    assert Without(map[[] := Dir], [BACKUP]) == map[[] := Dir];
  }
}
