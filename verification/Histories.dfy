/** What holds over whole runs, however the threads interleave and whatever fails. */
module Histories {
  import opened Disks
  import opened Worlds
  import opened Interleavings

  // ----- Ids.

  /** Slot `id` belongs to the name `n`: nothing else is there, and no other name leads there. */
  ghost predicate BelongsTo(w: World, id: nat, n: Name) {
    && id < |w.bases|
    && (w.bases[id].Some? ==> w.bases[id].value.name == n)
    && (forall m :: m in w.names && w.names[m] == id ==> m == n)
  }

  lemma OwnerKept(r: Run, k: nat, id: nat, n: Name)
    requires IsRun(r) && k < |r.moves| && Inv(r.states[k]) && BelongsTo(r.states[k].world, id, n)
    ensures BelongsTo(r.states[k + 1].world, id, n)
  {
    assert StepAt(r, k);
  }

  /** A client that attached to `n` got an id that is in range for good, and whose slot is from then
      on empty or a database named `n`, never another one. */
  lemma {:induction false} AttachmentIsStable(r: Run, i: nat, j: nat, n: Name)
    requires IsRun(r) && i <= j < |r.states| && Inv(r.states[i])
    requires n in r.states[i].world.names
    ensures BelongsTo(r.states[j].world, r.states[i].world.names[n], n)
    decreases j
  {
    if i < j {
      AttachmentIsStable(r, i, j - 1, n);
      RunKeepsInv(r, i, j - 1);
      OwnerKept(r, j - 1, r.states[i].world.names[n], n);
    }
  }

  /** A query of that client runs on the database it attached to or on none, never on another one. */
  lemma AttachedClientFindsItsOwn(r: Run, i: nat, j: nat, n: Name)
    requires IsRun(r) && i <= j < |r.states| && Inv(r.states[i])
    requires n in r.states[i].world.names
    ensures
      match IdLookup(r.states[j].world, r.states[i].world.names[n])
      case Found(base) => base.name == n
      case NullSlot => true
      case NotRegistered => false
  {
    AttachmentIsStable(r, i, j, n);
  }

  /** An empty slot that no name leads to. */
  ghost predicate Retired(w: World, id: nat) {
    id < |w.bases| && w.bases[id].None? && forall m :: m in w.names ==> w.names[m] != id
  }

  lemma RetiredKept(r: Run, k: nat, id: nat)
    requires IsRun(r) && k < |r.moves| && Inv(r.states[k]) && Retired(r.states[k].world, id)
    ensures Retired(r.states[k + 1].world, id)
  {
    assert StepAt(r, k);
  }

  lemma {:induction false} RetiredForGood(r: Run, i: nat, j: nat, id: nat)
    requires IsRun(r) && i <= j < |r.states| && Inv(r.states[i]) && Retired(r.states[i].world, id)
    ensures Retired(r.states[j].world, id)
    decreases j
  {
    if i < j {
      RetiredForGood(r, i, j - 1, id);
      RunKeepsInv(r, i, j - 1);
      RetiredKept(r, j - 1, id);
    }
  }

  /** A dropped id stays empty, and no name ever leads to it again. */
  lemma DroppedIdIsNeverRecycled(r: Run, i: nat, j: nat)
    requires IsRun(r) && i < j < |r.states| && Inv(r.states[i]) && r.moves[i].event.DropBegin?
    ensures
      var n, names := r.moves[i].event.name, r.states[i].world.names;
      n in names && Retired(r.states[j].world, names[n])
  {
    assert StepAt(r, i);
    InvKept(r, i);
    RetiredForGood(r, i + 1, j, r.states[i].world.names[r.moves[i].event.name]);
  }

  /** One step gives a new name the next id, and leaves the id of any other name that stays. */
  lemma NamesAndIds(r: Run, k: nat, n: Name)
    requires IsRun(r) && k < |r.moves| && Inv(r.states[k])
    ensures
      var w, w' := r.states[k].world, r.states[k + 1].world;
      && (n in w'.names ==> w'.names[n] == if n in w.names then w.names[n] else |w.bases|)
      && (n in w.names && n !in w'.names ==> r.moves[k].event == DropBegin(n))
  {
    assert StepAt(r, k);
  }

  /** A name registered afresh gets an id larger than all earlier ones. */
  lemma {:induction false} FreshNamesGetNewIds(r: Run, i: nat, j: nat, n: Name)
    requires IsRun(r) && i <= j < |r.states| && Inv(r.states[i])
    requires n !in r.states[i].world.names && n in r.states[j].world.names
    ensures r.states[j].world.names[n] >= |r.states[i].world.bases|
    decreases j
  {
    if i < j {
      RunKeepsInv(r, i, j - 1);
      if n in r.states[j - 1].world.names {
        FreshNamesGetNewIds(r, i, j - 1, n);
      }
      NamesAndIds(r, j - 1, n);
    }
  }

  /** Only a drop of `n` ends the binding between a name and its id. */
  lemma {:induction false} BindingLasts(r: Run, i: nat, j: nat, n: Name)
    requires IsRun(r) && i <= j < |r.states| && Inv(r.states[i]) && n in r.states[i].world.names
    requires forall k :: i <= k < j ==> r.moves[k].event != DropBegin(n)
    ensures n in r.states[j].world.names
    ensures r.states[j].world.names[n] == r.states[i].world.names[n]
    decreases j
  {
    if i < j {
      BindingLasts(r, i, j - 1, n);
      RunKeepsInv(r, i, j - 1);
      NamesAndIds(r, j - 1, n);
    }
  }

  /** A restore that succeeds later brings the database back under the id it had. */
  lemma RestoreRevivesTheId(r: Run, i: nat, j: nat, n: Name)
    requires IsRun(r) && i <= j < |r.moves| && Inv(r.states[i]) && n in r.states[i].world.names
    requires forall k :: i <= k < j ==> r.moves[k].event != DropBegin(n)
    requires r.moves[j].event.RestoreCommit? && r.moves[j].event.base.name == n
    ensures
      var id, bases := r.states[i].world.names[n], r.states[j + 1].world.bases;
      id < |bases| && bases[id] == Some(r.moves[j].event.base)
  {
    BindingLasts(r, i, j, n);
    RunKeepsInv(r, i, j);
    assert StepAt(r, j);
  }

  // ----- Empty slots behind registered names.

  ghost predicate Restores(pc: Pc, n: Name) {
    pc.Restoring? && pc.name == n
  }

  /** What a step makes of the flag. */
  ghost predicate FlagAfter(s: State, m: Move, n: Name, failed: bool) {
    var pc, e := PcOf(s, m.thread), m.event;
    if e.RestoreFail? && Restores(pc, n) && pc.existed then true
    else if (e.RestoreCommit? && Restores(pc, n)) || e == DropBegin(n) then false
    else failed
  }

  /** Whether, of the restores of `n` that reset its slot in the first `k` moves, the last one failed;
      a drop of the name starts afresh. */
  ghost predicate LastRestoreFailed(r: Run, k: nat, n: Name)
    requires IsRun(r) && k < |r.states|
  {
    k > 0 && FlagAfter(r.states[k - 1], r.moves[k - 1], n, LastRestoreFailed(r, k - 1, n))
  }

  /** The slot of `n` against the flag, in three cases: not registered, being restored, at rest. */
  ghost predicate SlotMatches(s: State, n: Name, failed: bool)
    requires Registered(s.world)
  {
    if n !in s.world.names then !failed
    else if exists t :: Restores(PcOf(s, t), n) then s.world.bases[s.world.names[n]].None?
    else s.world.bases[s.world.names[n]].None? <==> failed
  }

  lemma OthersKeepRestoring(s: State, m: Move, s': State, n: Name, t: Thread)
    requires Step(s, m, s') && Restores(PcOf(s, t), n)
    requires !(m.event.RestoreFail? && Restores(PcOf(s, m.thread), n))
    requires !(m.event.RestoreCommit? && Restores(PcOf(s, m.thread), n))
    ensures Restores(PcOf(s', t), n)
  {
  }

  lemma NoRestoreAppears(s: State, m: Move, s': State, n: Name, t: Thread)
    requires Step(s, m, s') && Restores(PcOf(s', t), n)
    requires !(m.event.RestoreBegin? && m.event.name == n)
    ensures Restores(PcOf(s, t), n)
  {
  }

  /** While `n` is being restored, its entry and its slot do not move. */
  lemma SlotUnderRestore(s: State, m: Move, s': State, n: Name, t: Thread)
    requires Inv(s) && Step(s, m, s') && Restores(PcOf(s, t), n)
    requires !(m.event.RestoreCommit? && t == m.thread)
    ensures SameRegistry(s.world, s'.world)
  {
    if t != m.thread {
      OthersLeaveTheRegistry(s, m, s', t);
    }
  }

  /** A step that neither restores nor drops `n` leaves its slot, or registers it with a database. */
  lemma SlotAtRest(s: State, m: Move, s': State, n: Name)
    requires Inv(s) && Step(s, m, s') && Registered(s'.world)
    requires !Restores(PcOf(s, m.thread), n) && m.event != DropBegin(n)
    requires !(m.event.RestoreBegin? && m.event.name == n)
    ensures n in s.world.names ==>
              && n in s'.world.names && s'.world.names[n] == s.world.names[n]
              && s'.world.bases[s'.world.names[n]] == s.world.bases[s.world.names[n]]
    ensures n !in s.world.names && n in s'.world.names ==> s'.world.bases[s'.world.names[n]].Some?
  {
    var w, w', pc := s.world, s'.world, PcOf(s, m.thread);
    if n in w.names {
      assert w.names[n] < |w.bases|;
      if m.event.RestoreCommit? && pc.existed {
        assert w.names[pc.name] == pc.id;
      }
    }
  }

  lemma SlotAfterRestore(s: State, m: Move, s': State, n: Name, failed: bool)
    requires Inv(s) && Step(s, m, s') && Registered(s'.world) && SlotMatches(s, n, failed)
    requires (m.event.RestoreFail? || m.event.RestoreCommit?) && Restores(PcOf(s, m.thread), n)
    ensures SlotMatches(s', n, FlagAfter(s, m, n, failed))
  {
    forall t ensures !Restores(PcOf(s', t), n) {
      assert t != m.thread ==> !IsWriter(PcOf(s, t));
    }
  }

  lemma SlotStep(s: State, m: Move, s': State, n: Name, failed: bool)
    requires Inv(s) && Step(s, m, s') && Registered(s'.world) && SlotMatches(s, n, failed)
    ensures SlotMatches(s', n, FlagAfter(s, m, n, failed))
  {
    var pc, e := PcOf(s, m.thread), m.event;
    if (e.RestoreFail? || e.RestoreCommit?) && Restores(pc, n) {
      SlotAfterRestore(s, m, s', n, failed);
    } else if e.RestoreBegin? && e.name == n {
      assert Restores(PcOf(s', m.thread), n);
    } else if t :| Restores(PcOf(s, t), n) {
      OthersKeepRestoring(s, m, s', n, t);
      SlotUnderRestore(s, m, s', n, t);
    } else {
      forall t ensures !Restores(PcOf(s', t), n) {
        if Restores(PcOf(s', t), n) { NoRestoreAppears(s, m, s', n, t); }
      }
      if e != DropBegin(n) {
        SlotAtRest(s, m, s', n);
      }
    }
  }

  /** At rest: no thread is restoring, and every registered name has its database. */
  ghost predicate AllLive(s: State) {
    && Registered(s.world)
    && (forall t :: !PcOf(s, t).Restoring?)
    && (forall n :: n in s.world.names ==> s.world.bases[s.world.names[n]].Some?)
  }

  lemma SlotKept(r: Run, k: nat, n: Name, failed: bool)
    requires IsRun(r) && k < |r.moves| && Inv(r.states[k]) && SlotMatches(r.states[k], n, failed)
    requires Registered(r.states[k + 1].world)
    ensures SlotMatches(r.states[k + 1], n, FlagAfter(r.states[k], r.moves[k], n, failed))
  {
    assert StepAt(r, k);
    SlotStep(r.states[k], r.moves[k], r.states[k + 1], n, failed);
  }

  lemma {:induction false} SlotHistory(r: Run, k: nat, n: Name)
    requires IsRun(r) && k < |r.states| && Inv(r.states[0]) && AllLive(r.states[0])
    ensures Inv(r.states[k]) && SlotMatches(r.states[k], n, LastRestoreFailed(r, k, n))
  {
    RunKeepsInv(r, 0, k);
    if k > 0 {
      SlotHistory(r, k - 1, n);
      SlotKept(r, k - 1, n, LastRestoreFailed(r, k - 1, n));
    }
  }

  /** Whoever may hold the lock sees a registered name with an empty slot exactly when the last
      restore of it that reset the slot failed; otherwise the slot holds the database of that name. */
  lemma EmptySlotMeansFailedRestore(r: Run, k: nat, n: Name)
    requires IsRun(r) && k < |r.states| && Inv(r.states[0]) && AllLive(r.states[0])
    requires NoWriter(r.states[k]) && n in r.states[k].world.names
    ensures
      var w := r.states[k].world;
      w.names[n] < |w.bases| &&
      match w.bases[w.names[n]]
      case None => LastRestoreFailed(r, k, n)
      case Some(base) => !LastRestoreFailed(r, k, n) && base.name == n
  {
    SlotHistory(r, k, n);
    forall t ensures !Restores(PcOf(r.states[k], t), n) {
      assert !IsWriter(PcOf(r.states[k], t));
    }
  }

  // ----- Backups.

  /** The root entry that a move works on, as its thread or the event names it. */
  function WorksOn(s: State, m: Move): Option<Name> {
    var pc := PcOf(s, m.thread);
    match m.event
    case Check(n) => Some(n)
    case DropBegin(n) => Some(n)
    case RestoreBegin(_, n) => Some(n)
    case Touch(n) => Some(n)
    case BackupBegin(_, _) => None
    case _ =>
      match pc
      case Checked(n) => Some(n)
      case Made(n) => Some(n)
      case Open(base) => Some(base.name)
      case Dropping(n, _) => Some(n)
      case Restoring(n, _, _, _, _) => Some(n)
      case _ => None
  }

  predicate Writes(pc: Pc, b: Name) {
    pc.BackingUp? && pc.backup == b
  }

  /** A backup that is there and that nobody is still writing. */
  ghost predicate Complete(s: State, b: Name) {
    BackupPath(b) in s.world.disk && forall t :: !Writes(PcOf(s, t), b)
  }

  /** The path below which a move may change the disk. */
  function Scope(s: State, m: Move): Path {
    var pc := PcOf(s, m.thread);
    match m.event
    case BackupBegin(_, b) => BackupPath(b)
    case BackupWork | BackupEnd | BackupUndo => if pc.BackingUp? then BackupPath(pc.backup) else []
    case _ => if WorksOn(s, m).Some? then [WorksOn(s, m).value] else []
  }

  lemma StepStaysInScope(s: State, m: Move, s': State)
    requires Step(s, m, s')
    ensures SameOutside(s.world.disk, s'.world.disk, Scope(s, m))
  {
    var d, p, pc := s.world.disk, Scope(s, m), PcOf(s, m.thread);
    if m.event.BackupBegin? || (m.event.MakeDirectory? && m.event.ok) {
      UpdateBelow(d, p, p, Dir);
    } else if m.event.BackupWork? && pc.name != BACKUP {
      var rel :| CopiesEntry(d, s'.world.disk, [pc.name], p, pc.done, rel);
      UpdateBelow(d, p, p + rel, d[[pc.name] + rel]);
    }
  }

  /** A move leaves every tree that is apart from where it works. */
  lemma TreeStays(s: State, m: Move, s': State, p: Path)
    requires Step(s, m, s') && !(Scope(s, m) <= p) && !(p <= Scope(s, m))
    ensures Tree(s'.world.disk, p) == Tree(s.world.disk, p)
  {
    StepStaysInScope(s, m, s');
    OutsideKeepsTree(s.world.disk, s'.world.disk, Scope(s, m), p);
  }

  lemma OthersLeaveBackup(s: State, m: Move, s': State, b: Name)
    requires Step(s, m, s') && WorksOn(s, m) != Some(BACKUP)
    requires BackupPath(b) in s.world.disk && !Writes(PcOf(s, m.thread), b)
    ensures BackupPath(b) in s'.world.disk
    ensures Tree(s'.world.disk, BackupPath(b)) == Tree(s.world.disk, BackupPath(b))
  {
    assert |Scope(s, m)| >= 1 && (Scope(s, m)[0] != BACKUP || (|Scope(s, m)| == 2 && Scope(s, m)[1] != b));
    TreeStays(s, m, s', BackupPath(b));
    assert BackupPath(b) + [] == BackupPath(b);
    assert [] in Tree(s.world.disk, BackupPath(b));
  }

  lemma OthersLeaveBase(s: State, m: Move, s': State, n: Name)
    requires Step(s, m, s') && WorksOn(s, m) != Some(n) && n != BACKUP
    ensures Tree(s'.world.disk, [n]) == Tree(s.world.disk, [n])
  {
    assert |Scope(s, m)| >= 1 && Scope(s, m)[0] != n;
    TreeStays(s, m, s', [n]);
  }

  lemma BackupKept(r: Run, k: nat, b: Name)
    requires IsRun(r) && k < |r.moves| && Complete(r.states[k], b)
    requires WorksOn(r.states[k], r.moves[k]) != Some(BACKUP)
    ensures Complete(r.states[k + 1], b)
    ensures Tree(r.states[k + 1].world.disk, BackupPath(b)) == Tree(r.states[k].world.disk, BackupPath(b))
  {
    assert StepAt(r, k);
    OthersLeaveBackup(r.states[k], r.moves[k], r.states[k + 1], b);
  }

  /** No move from `i` on and before `j` is aimed at the root entry that holds the backups. */
  ghost predicate EntryLeftAlone(r: Run, i: nat, j: nat)
    requires IsRun(r) && j < |r.states|
  {
    forall k :: i <= k < j ==> WorksOn(r.states[k], r.moves[k]) != Some(BACKUP)
  }

  /** No later step of anybody changes a completed backup, a second BACKUP to the same name
      included, as long as no command is aimed at the root entry that holds the backups. */
  lemma {:induction false} BackupIsImmutable(r: Run, i: nat, j: nat, b: Name)
    requires IsRun(r) && i <= j < |r.states| && Complete(r.states[i], b)
    requires EntryLeftAlone(r, i, j)
    ensures Complete(r.states[j], b)
    ensures Tree(r.states[j].world.disk, BackupPath(b)) == Tree(r.states[i].world.disk, BackupPath(b))
    decreases j
  {
    if i < j {
      BackupIsImmutable(r, i, j - 1, b);
      BackupKept(r, j - 1, b);
    }
  }

  /** A backup in the making is on disk and has one owner, so that a rollback removes nobody else's. */
  ghost predicate BackupsAreOwned(s: State) {
    && (forall t :: PcOf(s, t).BackingUp? ==> BackupPath(PcOf(s, t).backup) in s.world.disk)
    && (forall t, u :: PcOf(s, t).BackingUp? && Writes(PcOf(s, u), PcOf(s, t).backup) ==> t == u)
  }

  lemma OwnersKept(r: Run, k: nat)
    requires IsRun(r) && k < |r.moves| && BackupsAreOwned(r.states[k])
    requires WorksOn(r.states[k], r.moves[k]) != Some(BACKUP)
    ensures BackupsAreOwned(r.states[k + 1])
  {
    var s, m, s' := r.states[k], r.moves[k], r.states[k + 1];
    assert StepAt(r, k);
    forall t | PcOf(s', t).BackingUp? ensures BackupPath(PcOf(s', t).backup) in s'.world.disk {
      if t != m.thread {
        OthersLeaveBackup(s, m, s', PcOf(s, t).backup);
      }
    }
  }

  lemma {:induction false} BackupsHaveOneOwner(r: Run, k: nat)
    requires IsRun(r) && k < |r.states| && BackupsAreOwned(r.states[0])
    requires EntryLeftAlone(r, 0, k)
    ensures BackupsAreOwned(r.states[k])
  {
    if k > 0 {
      BackupsHaveOneOwner(r, k - 1);
      OwnersKept(r, k - 1);
    }
  }
}
