/**
 * All clients at once. Every thread runs its command in the pieces that the lock and the file
 * system make of it, and the pieces of different threads interleave freely:
 *   - create checks the name, makes the directory and opens the database without the lock, and
 *     takes it exclusively to publish;
 *   - drop and restore hold it exclusively throughout, backup holds it shared.
 */
module Interleavings {
  import opened Disks
  import opened Worlds

  type Thread = nat

  /** How far a restore has come with its directory. */
  datatype Work = Clearing | Cleared | Copying(done: set<Path>) | Opened(base: DataBase) | Failed

  /** Where a thread is in its command, with what it holds in local variables. */
  datatype Pc =
    | Idle
    | Checked(name: Name)
    | Made(name: Name)
    | Open(base: DataBase)
    | Dropping(name: Name, gone: bool)
    | Restoring(name: Name, backup: Name, id: nat, existed: bool, work: Work)
    | BackingUp(name: Name, backup: Name, done: set<Path>)

  datatype State = State(world: World, pcs: map<Thread, Pc>)

  datatype Event =
    | Check(name: Name)
    | MakeDirectory(ok: bool)
    | OpenBase(ok: bool)
    | Publish
    | DropBegin(name: Name)
    | DropRemove
    | DropEnd
    | RestoreBegin(backup: Name, name: Name)
    | RestoreWork
    | RestoreCommit(base: DataBase)
    | RestoreFail
    | BackupBegin(name: Name, backup: Name)
    | BackupWork
    | BackupEnd
    | BackupUndo
    | Touch(name: Name)

  datatype Move = Move(thread: Thread, event: Event)

  function PcOf(s: State, t: Thread): Pc {
    if t in s.pcs then s.pcs[t] else Idle
  }

  predicate IsWriter(pc: Pc) {
    pc.Dropping? || pc.Restoring?
  }

  ghost predicate NoWriter(s: State) {
    forall t :: !IsWriter(PcOf(s, t))
  }

  ghost predicate LockFree(s: State) {
    forall t :: !IsWriter(PcOf(s, t)) && !PcOf(s, t).BackingUp?
  }

  /** The storage engine writes inside a database's directory, but not the directory away. */
  predicate Touched(d: Disk, d': Disk, p: Path) {
    SameOutside(d, d', p) && (p in d <==> p in d')
  }

  ghost predicate IsLive(w: World, n: Name) {
    exists i :: 0 <= i < |w.bases| && w.bases[i].Some? && w.bases[i].value.name == n
  }

  /** The steps of create. */
  ghost predicate CreateStep(s: State, m: Move, s': State) {
    var Move(t, e) := m;
    var pc, w, w', pc' := PcOf(s, t), s.world, s'.world, PcOf(s', t);
    match e
    case Check(n) =>
      pc.Idle? && NameAllowed(n) && !Exists(w.disk, n) && w' == w && pc' == Checked(n)
    case MakeDirectory(ok) =>
      pc.Checked? &&
      if ok then [pc.name] !in w.disk && w' == w.(disk := w.disk[[pc.name] := Dir]) && pc' == Made(pc.name)
      else w' == w && pc' == Idle
    case OpenBase(ok) =>
      pc.Made? && SameRegistry(w, w') && Touched(w.disk, w'.disk, [pc.name]) &&
      if ok then pc'.Open? && pc'.base.name == pc.name else pc' == Idle
    case Publish =>
      pc.Open? && LockFree(s) && pc' == Idle && w'.disk == w.disk &&
      w'.bases == w.bases + [Some(pc.base)] && w'.names == Insert(w.names, pc.base.name, |w.bases|)
    case _ => false
  }

  /** The steps of drop. The lock stays held until DropEnd, after the directory is gone. */
  ghost predicate DropStep(s: State, m: Move, s': State) {
    var Move(t, e) := m;
    var pc, w, w', pc' := PcOf(s, t), s.world, s'.world, PcOf(s', t);
    match e
    case DropBegin(n) =>
      pc.Idle? && LockFree(s) && n in w.names && w.names[n] < |w.bases| && pc' == Dropping(n, false) &&
      w' == World(w.bases[w.names[n] := None], w.names - {n}, w.disk)
    case DropRemove =>
      pc.Dropping? && !pc.gone && [pc.name] in w.disk && SameRegistry(w, w') &&
      Pruned(w.disk, w'.disk, [pc.name]) && pc' == Dropping(pc.name, [pc.name] !in w'.disk)
    case DropEnd =>
      pc.Dropping? && w' == w && pc' == Idle
    case _ => false
  }

  // ----- Copying, one entry at a time.

  /** The entry `rel` of `from` arrives under `to`; the directory that holds it came before. */
  predicate CopiesEntry(d: Disk, d': Disk, from: Path, to: Path, done: set<Path>, rel: Path) {
    rel != [] && rel !in done && rel[..|rel| - 1] in done && from + rel in d && d' == d[to + rel := d[from + rel]]
  }

  ghost predicate CopiesOne(d: Disk, d': Disk, from: Path, to: Path, done: set<Path>, done': set<Path>) {
    exists rel :: CopiesEntry(d, d', from, to, done, rel) && done' == done + {rel}
  }

  ghost predicate AllCopied(d: Disk, from: Path, done: set<Path>) {
    forall q :: from + q in d ==> q in done
  }

  ghost predicate NothingAt(d: Disk, p: Path) {
    forall r :: p <= r ==> r !in d
  }

  /** The work of a restore on the directory of `n`: remove it, make it, copy the entries of the
      backup, and open the database on what is there; at any moment it may fail, and then the
      rollback leaves whatever it can. */
  ghost predicate RestoreWorks(d: Disk, d': Disk, n: Name, b: Name, work: Work, work': Work) {
    SameOutside(d, d', [n]) &&
    match work'
    case Clearing => work.Clearing? && Pruned(d, d', [n])
    case Cleared => work.Clearing? && Pruned(d, d', [n]) && NothingAt(d', [n])
    case Copying(done) =>
      if work.Cleared? then done == {[]} && d' == if [n] in d then d else d[[n] := Dir]
      else work.Copying? && CopiesOne(d, d', BackupPath(b), [n], work.done, done)
    case Opened(base) =>
      work.Copying? && AllCopied(d, BackupPath(b), work.done) &&
      base == DataBase(n, Tree(d, [n])) && Touched(d, d', [n])
    case Failed => true
  }

  ghost predicate RestoreStep(s: State, m: Move, s': State) {
    var Move(t, e) := m;
    var pc, w, w', pc' := PcOf(s, t), s.world, s'.world, PcOf(s', t);
    match e
    case RestoreBegin(b, n) =>
      pc.Idle? && LockFree(s) && n != "" && IsDir(w.disk, BackupPath(b)) &&
      (n in w.names ==> w.names[n] < |w.bases|) && w'.disk == w.disk && w'.names == w.names &&
      w'.bases == (if n in w.names then w.bases[w.names[n] := None] else w.bases) &&
      pc' == Restoring(n, b, if n in w.names then w.names[n] else |w.bases|, n in w.names, Clearing)
    case RestoreWork =>
      pc.Restoring? && SameRegistry(w, w') && pc'.Restoring? && pc' == pc.(work := pc'.work) &&
      RestoreWorks(w.disk, w'.disk, pc.name, pc.backup, pc.work, pc'.work)
    case RestoreCommit(base) =>
      pc.Restoring? && pc.work == Opened(base) && w'.disk == w.disk && pc' == Idle &&
      if pc.existed
      then pc.id < |w.bases| && w'.bases == w.bases[pc.id := Some(base)] && w'.names == w.names
      else w'.bases == w.bases + [Some(base)] && w'.names == Insert(w.names, pc.name, pc.id)
    case RestoreFail =>
      pc.Restoring? && w' == w && pc' == Idle
    case _ => false
  }

  /** The steps of backup, and of the storage engine at work on a live database. What a copy of the
      backups into themselves delivers is not specified. */
  ghost predicate OtherStep(s: State, m: Move, s': State) {
    var Move(t, e) := m;
    var pc, w, w', pc' := PcOf(s, t), s.world, s'.world, PcOf(s', t);
    SameRegistry(w, w') &&
    match e
    case BackupBegin(n, b) =>
      pc.Idle? && NoWriter(s) && n in w.names && IsDir(w.disk, [n]) && NothingAt(w.disk, BackupPath(b)) &&
      w'.disk == w.disk[BackupPath(b) := Dir] && pc' == BackingUp(n, b, {[]})
    case BackupWork =>
      pc.BackingUp? && pc'.BackingUp? && pc' == pc.(done := pc'.done) &&
      if pc.name == BACKUP then Touched(w.disk, w'.disk, BackupPath(pc.backup))
      else CopiesOne(w.disk, w'.disk, [pc.name], BackupPath(pc.backup), pc.done, pc'.done)
    case BackupEnd =>
      pc.BackingUp? && (pc.name != BACKUP ==> AllCopied(w.disk, [pc.name], pc.done)) && w' == w && pc' == Idle
    case BackupUndo =>
      pc.BackingUp? && SameOutside(w.disk, w'.disk, BackupPath(pc.backup)) && pc' == Idle
    case Touch(n) =>
      pc.Idle? && IsLive(w, n) && Touched(w.disk, w'.disk, [n]) && pc' == Idle
    case _ => false
  }

  ghost predicate Step(s: State, m: Move, s': State) {
    && (forall u :: u != m.thread ==> PcOf(s', u) == PcOf(s, u))
    && match m.event
       case Check(_) | MakeDirectory(_) | OpenBase(_) | Publish => CreateStep(s, m, s')
       case DropBegin(_) | DropRemove | DropEnd => DropStep(s, m, s')
       case RestoreBegin(_, _) | RestoreWork | RestoreCommit(_) | RestoreFail => RestoreStep(s, m, s')
       case BackupBegin(_, _) | BackupWork | BackupEnd | BackupUndo | Touch(_) => OtherStep(s, m, s')
  }

  /** One writer excludes every other holder of the lock. */
  ghost predicate LockHeld(s: State) {
    forall t, u :: t != u && IsWriter(PcOf(s, t)) ==> !IsWriter(PcOf(s, u)) && !PcOf(s, u).BackingUp?
  }

  /** The id that a restore found under the lock is still right when it commits. */
  ghost predicate IdsHold(s: State) {
    forall t :: PcOf(s, t).Restoring? ==> IdHolds(s.world, PcOf(s, t))
  }

  predicate IdHolds(w: World, pc: Pc)
    requires pc.Restoring?
  {
    if pc.existed then pc.name in w.names && w.names[pc.name] == pc.id
    else pc.name !in w.names && pc.id == |w.bases|
  }

  /** Once made, the directory of a restore stays, and the database opened on it has its name. */
  ghost predicate WorkHolds(s: State) {
    forall t :: PcOf(s, t).Restoring? ==> WorkDone(s.world.disk, PcOf(s, t))
  }

  predicate WorkDone(d: Disk, pc: Pc)
    requires pc.Restoring?
  {
    && (pc.work.Copying? || pc.work.Opened? ==> [pc.name] in d)
    && (pc.work.Opened? ==> pc.work.base.name == pc.name)
  }

  ghost predicate Inv(s: State) {
    Registered(s.world) && LockHeld(s) && IdsHold(s) && WorkHolds(s)
  }

  lemma StepKeepsLock(s: State, m: Move, s': State)
    requires LockHeld(s) && Step(s, m, s')
    ensures LockHeld(s')
  {
  }

  lemma StepKeepsRegistered(s: State, m: Move, s': State)
    requires Inv(s) && Step(s, m, s')
    ensures Registered(s'.world) && |s.world.bases| <= |s'.world.bases|
  {
    var w, w', pc := s.world, s'.world, PcOf(s, m.thread);
    if m.event.Publish? {
      AppendKeepsRegistered(w, w', pc.base);
    } else if m.event.RestoreBegin? && m.event.name in w.names {
      SlotKeepsRegistered(w, w', m.event.name, None);
    } else if m.event.RestoreCommit? {
      if pc.existed {
        SlotKeepsRegistered(w, w', pc.name, Some(m.event.base));
      } else {
        AppendKeepsRegistered(w, w', m.event.base);
      }
    }
  }

  /** A thread that is restoring sees the registry change only by its own steps. */
  lemma OthersLeaveTheRegistry(s: State, m: Move, s': State, t: Thread)
    requires LockHeld(s) && Step(s, m, s') && t != m.thread && PcOf(s, t).Restoring?
    ensures SameRegistry(s.world, s'.world)
  {
    assert IsWriter(PcOf(s, t));
  }

  lemma StepKeepsIds(s: State, m: Move, s': State)
    requires Inv(s) && Step(s, m, s')
    ensures IdsHold(s')
  {
    forall t | PcOf(s', t).Restoring? ensures IdHolds(s'.world, PcOf(s', t)) {
      if t != m.thread {
        OthersLeaveTheRegistry(s, m, s', t);
      }
    }
  }

  /** The root entry of `n` stays, unless the step is one of those that remove `n`. */
  lemma RootEntryStays(s: State, m: Move, s': State, n: Name)
    requires Step(s, m, s')
    requires m.event.DropRemove? ==> PcOf(s, m.thread).name != n
    requires m.event.RestoreWork? ==> PcOf(s, m.thread).name != n
    ensures [n] in s.world.disk ==> [n] in s'.world.disk
  {
    var d, d', pc := s.world.disk, s'.world.disk, PcOf(s, m.thread);
    match m.event
    case OpenBase(_) => if n != pc.name { assert [pc.name][0] != [n][0]; OutsideKeeps(d, d', [pc.name], [n]); }
    case DropRemove => assert [pc.name][0] != [n][0]; OutsideKeeps(d, d', [pc.name], [n]);
    case RestoreWork => assert [pc.name][0] != [n][0]; OutsideKeeps(d, d', [pc.name], [n]);
    case BackupWork => if pc.name == BACKUP { OutsideKeeps(d, d', BackupPath(pc.backup), [n]); }
    case BackupUndo => OutsideKeeps(d, d', BackupPath(pc.backup), [n]);
    case Touch(k) => if n != k { assert [k][0] != [n][0]; OutsideKeeps(d, d', [k], [n]); }
    case _ =>
  }

  lemma StepKeepsWork(s: State, m: Move, s': State)
    requires Inv(s) && Step(s, m, s')
    ensures WorkHolds(s')
  {
    forall t | PcOf(s', t).Restoring? ensures WorkDone(s'.world.disk, PcOf(s', t)) {
      if t != m.thread {
        assert IsWriter(PcOf(s, t)) && !IsWriter(PcOf(s, m.thread));
        RootEntryStays(s, m, s', PcOf(s, t).name);
      }
    }
  }

  /** Every step, successful or failing, keeps the invariant. */
  lemma StepKeepsInv(s: State, m: Move, s': State)
    requires Inv(s) && Step(s, m, s')
    ensures Inv(s') && |s.world.bases| <= |s'.world.bases|
  {
    StepKeepsLock(s, m, s');
    StepKeepsRegistered(s, m, s');
    StepKeepsIds(s, m, s');
    StepKeepsWork(s, m, s');
  }

  /** A run: states, and the moves between them. */
  datatype Run = Run(states: seq<State>, moves: seq<Move>)

  ghost predicate StepAt(r: Run, k: int)
    requires 0 <= k < |r.moves| && |r.states| == |r.moves| + 1
  {
    Step(r.states[k], r.moves[k], r.states[k + 1])
  }

  ghost predicate IsRun(r: Run) {
    |r.states| == |r.moves| + 1 && forall k :: 0 <= k < |r.moves| ==> StepAt(r, k)
  }

  lemma InvKept(r: Run, k: nat)
    requires IsRun(r) && k < |r.moves| && Inv(r.states[k])
    ensures Inv(r.states[k + 1]) && |r.states[k].world.bases| <= |r.states[k + 1].world.bases|
  {
    assert StepAt(r, k);
    StepKeepsInv(r.states[k], r.moves[k], r.states[k + 1]);
  }

  lemma {:induction false} RunKeepsInv(r: Run, i: nat, j: nat)
    requires IsRun(r) && i <= j < |r.states| && Inv(r.states[i])
    ensures Inv(r.states[j]) && |r.states[i].world.bases| <= |r.states[j].world.bases|
    decreases j
  {
    if i < j {
      RunKeepsInv(r, i, j - 1);
      InvKept(r, j - 1);
    }
  }
}
