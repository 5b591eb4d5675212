/**
 * The unlocked half of create. Making the directory is what decides between two clients that want
 * the same name; these lemmas say what that buys, and exactly which steps would break it.
 */
module Protocols {
  import opened Disks
  import opened Worlds
  import opened Interleavings

  /** The name that a thread is creating: its directory made, its database not yet published. */
  function Creating(pc: Pc): Option<Name> {
    match pc
    case Made(n) => Some(n)
    case Open(base) => Some(base.name)
    case _ => None
  }

  ghost predicate InCreation(s: State, n: Name) {
    exists t :: Creating(PcOf(s, t)) == Some(n)
  }

  ghost predicate InRestore(s: State, n: Name) {
    exists t :: PcOf(s, t).Restoring? && PcOf(s, t).name == n
  }

  /** A name in creation is not registered, has its directory, and has one owner. */
  ghost predicate CreationsAreOwned(s: State) {
    && (forall t :: Creating(PcOf(s, t)).Some? ==>
          Creating(PcOf(s, t)).value !in s.world.names && [Creating(PcOf(s, t)).value] in s.world.disk)
    && (forall t, u :: Creating(PcOf(s, t)).Some? && Creating(PcOf(s, t)) == Creating(PcOf(s, u)) ==> t == u)
  }

  /** A writer that may still touch the directory of its name. */
  predicate AtWork(pc: Pc) {
    pc.Restoring? || (pc.Dropping? && !pc.gone)
  }

  /** A writer works on a name that nobody is creating; what is being dropped is no longer
      registered, and until it is gone its directory is there. */
  ghost predicate WritersAreApart(s: State) {
    forall t :: AtWork(PcOf(s, t)) ==>
      && !InCreation(s, PcOf(s, t).name)
      && (PcOf(s, t).Dropping? ==> PcOf(s, t).name !in s.world.names && [PcOf(s, t).name] in s.world.disk)
  }

  /** A registered name has its directory, except while it is being restored. */
  ghost predicate NamesHaveDirectories(s: State) {
    forall n :: n in s.world.names ==> [n] in s.world.disk || InRestore(s, n)
  }

  /** A live slot is the slot of its name. */
  ghost predicate SlotsAreNamed(s: State) {
    var w := s.world;
    forall i :: 0 <= i < |w.bases| && w.bases[i].Some? ==>
      w.bases[i].value.name in w.names && w.names[w.bases[i].value.name] == i
  }

  ghost predicate Protocol(s: State) {
    && Inv(s) && CreationsAreOwned(s) && WritersAreApart(s)
    && NamesHaveDirectories(s) && SlotsAreNamed(s)
  }

  /** The steps that respect create: a restore does not begin on a name in creation, a directory is
      not made for a name in restore, and a failed restore does not leave a registered name without
      its directory. */
  ghost predicate Respects(s: State, m: Move) {
    var pc := PcOf(s, m.thread);
    match m.event
    case RestoreBegin(_, n) => !InCreation(s, n)
    case MakeDirectory(ok) => ok && pc.Checked? ==> !InRestore(s, pc.name)
    case RestoreFail => pc.Restoring? && pc.existed ==> [pc.name] in s.world.disk
    case _ => true
  }

  // ----- What one step does to names in creation and in restore.

  lemma CreationStays(s: State, m: Move, s': State, n: Name)
    requires Step(s, m, s') && InCreation(s', n)
    requires !(m.event.MakeDirectory? && m.event.ok && PcOf(s, m.thread).name == n)
    ensures InCreation(s, n)
  {
  }

  lemma RestoreStays(s: State, m: Move, s': State, n: Name)
    requires Step(s, m, s') && InRestore(s, n)
    requires (m.event.RestoreFail? || m.event.RestoreCommit?) ==> PcOf(s, m.thread).name != n
    ensures InRestore(s', n)
  {
  }

  // ----- Each part of the invariant, kept by every step that respects create.

  /** A step registers only the name that its thread was creating or restoring. */
  lemma RegistersOwnName(s: State, m: Move, s': State, n: Name)
    requires Step(s, m, s') && n !in s.world.names && n in s'.world.names
    ensures (m.event.Publish? && Creating(PcOf(s, m.thread)) == Some(n)) ||
            (m.event.RestoreCommit? && PcOf(s, m.thread).Restoring? && PcOf(s, m.thread).name == n)
  {
  }

  lemma CreationsKept(s: State, m: Move, s': State)
    requires Protocol(s) && Step(s, m, s') && Respects(s, m)
    ensures CreationsAreOwned(s')
  {
    forall t | Creating(PcOf(s', t)).Some?
      ensures
        var n := Creating(PcOf(s', t)).value;
        && n !in s'.world.names && [n] in s'.world.disk
        && forall u :: Creating(PcOf(s', u)) == Some(n) ==> u == t
    {
      CreationKept(s, m, s', t);
    }
  }

  lemma CreationKept(s: State, m: Move, s': State, t: Thread)
    requires Protocol(s) && Step(s, m, s') && Respects(s, m) && Creating(PcOf(s', t)).Some?
    ensures
      var n := Creating(PcOf(s', t)).value;
      && n !in s'.world.names && [n] in s'.world.disk
      && forall u :: Creating(PcOf(s', u)) == Some(n) ==> u == t
  {
    var n := Creating(PcOf(s', t)).value;
    if m.event.MakeDirectory? && m.event.ok && t == m.thread {
      forall u | u != t ensures Creating(PcOf(s', u)) != Some(n) {
        assert Creating(PcOf(s, u)) == Some(n) ==> [n] in s.world.disk;
      }
    } else {
      assert Creating(PcOf(s, t)) == Some(n);
      assert InCreation(s, n);
      assert AtWork(PcOf(s, m.thread)) ==> PcOf(s, m.thread).name != n;
      RootEntryStays(s, m, s', n);
      if n in s'.world.names {
        RegistersOwnName(s, m, s', n);
      }
      forall u | Creating(PcOf(s', u)) == Some(n) ensures u == t {
        assert !m.event.MakeDirectory? ==> Creating(PcOf(s, u)) == Some(n);
      }
    }
  }

  lemma WritersKept(s: State, m: Move, s': State)
    requires Protocol(s) && Step(s, m, s') && Respects(s, m)
    ensures WritersAreApart(s')
  {
    forall t | AtWork(PcOf(s', t))
      ensures
        var n := PcOf(s', t).name;
        && !InCreation(s', n)
        && (PcOf(s', t).Dropping? ==> n !in s'.world.names && [n] in s'.world.disk)
    {
      WriterKept(s, m, s', t);
    }
  }

  lemma WriterKept(s: State, m: Move, s': State, t: Thread)
    requires Protocol(s) && Step(s, m, s') && Respects(s, m) && AtWork(PcOf(s', t))
    ensures
      var n := PcOf(s', t).name;
      && !InCreation(s', n)
      && (PcOf(s', t).Dropping? ==> n !in s'.world.names && [n] in s'.world.disk)
  {
    var n := PcOf(s', t).name;
    var madeHere := m.event.MakeDirectory? && m.event.ok && PcOf(s, m.thread).name == n;
    if AtWork(PcOf(s, t)) {
      assert PcOf(s, t).name == n;
      assert !InCreation(s, n);
      if PcOf(s, t).Restoring? { assert InRestore(s, n); }
      assert !madeHere;
      if PcOf(s', t).Dropping? && t != m.thread {
        assert !IsWriter(PcOf(s, m.thread));
        RootEntryStays(s, m, s', n);
        if n in s'.world.names { RegistersOwnName(s, m, s', n); }
      }
    } else if m.event.DropBegin? {
      assert n in s.world.names;
      assert [n] in s.world.disk by {
        assert !InRestore(s, n) by { assert LockFree(s); }
      }
      assert forall u :: Creating(PcOf(s, u)) == Some(n) ==> n !in s.world.names;
    }
    if InCreation(s', n) {
      CreationStays(s, m, s', n);
    }
  }

  lemma DirectoriesKept(s: State, m: Move, s': State)
    requires Protocol(s) && Step(s, m, s') && Respects(s, m)
    ensures NamesHaveDirectories(s')
  {
    forall n | n in s'.world.names ensures [n] in s'.world.disk || InRestore(s', n) {
      DirectoryKept(s, m, s', n);
    }
  }

  lemma DirectoryKept(s: State, m: Move, s': State, n: Name)
    requires Protocol(s) && Step(s, m, s') && Respects(s, m) && n in s'.world.names
    ensures [n] in s'.world.disk || InRestore(s', n)
  {
    var pc := PcOf(s, m.thread);
    if m.event.RestoreWork? && pc.name == n {
      assert PcOf(s', m.thread).Restoring?;
    } else if (m.event.RestoreFail? || m.event.RestoreCommit?) && pc.name == n {
    } else if n !in s.world.names {
      RegistersOwnName(s, m, s', n);
      RootEntryStays(s, m, s', n);
    } else if InRestore(s, n) {
      RestoreStays(s, m, s', n);
    } else {
      assert m.event.DropRemove? ==> pc.name != n;
      RootEntryStays(s, m, s', n);
    }
  }

  lemma SlotsKept(s: State, m: Move, s': State)
    requires Protocol(s) && Step(s, m, s')
    ensures SlotsAreNamed(s')
  {
    var pc := PcOf(s, m.thread);
    if m.event.Publish? {
      assert Creating(pc) == Some(pc.base.name);
    }
  }

  /** The invariant of create is kept by exactly the steps that respect it. */
  lemma ProtocolIsKeptExactly(s: State, m: Move, s': State)
    requires Protocol(s) && Step(s, m, s')
    ensures Protocol(s') <==> Respects(s, m)
  {
    StepKeepsInv(s, m, s');
    SlotsKept(s, m, s');
    if Respects(s, m) {
      CreationsKept(s, m, s');
      WritersKept(s, m, s');
      DirectoriesKept(s, m, s');
    } else {
      DisrespectShows(s, m, s');
    }
  }

  lemma DisrespectShows(s: State, m: Move, s': State)
    requires Protocol(s) && Step(s, m, s') && !Respects(s, m)
    ensures !Protocol(s')
  {
    var pc := PcOf(s, m.thread);
    if m.event.RestoreBegin? {
      var t :| Creating(PcOf(s, t)) == Some(m.event.name);
      assert Creating(PcOf(s', t)) == Some(m.event.name);
      assert AtWork(PcOf(s', m.thread));
    } else if m.event.MakeDirectory? {
      var t :| PcOf(s, t).Restoring? && PcOf(s, t).name == pc.name;
      assert Creating(PcOf(s', m.thread)) == Some(pc.name);
      assert AtWork(PcOf(s', t));
    } else {
      assert pc.name in s'.world.names;
      forall t ensures !(PcOf(s', t).Restoring? && PcOf(s', t).name == pc.name) {
        assert t != m.thread ==> !IsWriter(PcOf(s, t));
      }
    }
  }

  lemma ProtocolKept(r: Run, k: nat)
    requires IsRun(r) && k < |r.moves| && Protocol(r.states[k]) && Respects(r.states[k], r.moves[k])
    ensures Protocol(r.states[k + 1])
  {
    assert StepAt(r, k);
    ProtocolIsKeptExactly(r.states[k], r.moves[k], r.states[k + 1]);
  }

  /** In every interleaving of creates, drops, backups and respectful restores, from any state that
      satisfies the invariant, it holds at every moment. */
  lemma {:induction false} ProtocolHoldsThroughout(r: Run, k: nat)
    requires IsRun(r) && k < |r.states| && Protocol(r.states[0])
    requires forall i :: 0 <= i < k ==> Respects(r.states[i], r.moves[i])
    ensures Protocol(r.states[k])
  {
    if k > 0 {
      ProtocolHoldsThroughout(r, k - 1);
      ProtocolKept(r, k - 1);
    }
  }

  /** Hence the insert at publish finds its name free, the published slot is the slot of the name,
      and no two live slots share a name. */
  lemma PublishFindsNameFree(r: Run, k: nat)
    requires IsRun(r) && k < |r.moves| && Protocol(r.states[0])
    requires forall i :: 0 <= i < k ==> Respects(r.states[i], r.moves[i])
    requires r.moves[k].event.Publish?
    ensures
      var w, w', pc := r.states[k].world, r.states[k + 1].world, PcOf(r.states[k], r.moves[k].thread);
      && pc.Open? && pc.base.name !in w.names
      && w'.names == w.names[pc.base.name := |w.bases|]
  {
    ProtocolHoldsThroughout(r, k);
    var pc := PcOf(r.states[k], r.moves[k].thread);
    assert StepAt(r, k);
    assert Creating(pc) == Some(pc.base.name);
  }

  lemma LiveSlotsHaveDifferentNames(r: Run, k: nat, i: nat, j: nat)
    requires IsRun(r) && k < |r.states| && Protocol(r.states[0])
    requires forall l :: 0 <= l < k ==> Respects(r.states[l], r.moves[l])
    requires i < j < |r.states[k].world.bases|
    requires r.states[k].world.bases[i].Some? && r.states[k].world.bases[j].Some?
    ensures r.states[k].world.bases[i].value.name != r.states[k].world.bases[j].value.name
  {
    ProtocolHoldsThroughout(r, k);
  }
}
