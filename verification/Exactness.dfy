/**
 * Backup and restore copy entry by entry while other clients are at work. What arrives is exact all
 * the same, as long as nobody else works on the directory that is being read or written.
 */
module Exactness {
  import opened Disks
  import opened Worlds
  import opened Interleavings
  import opened Histories

  /** The target holds the entries in `done`, with what the source holds at them, and nothing else. */
  ghost predicate HalfCopied(d: Disk, from: Path, to: Path, done: set<Path>) {
    var source, target := Tree(d, from), Tree(d, to);
    target.Keys == done && forall q :: q in done ==> q in source && target[q] == source[q]
  }

  lemma TreeGrows(d: Disk, p: Path, rel: Path, node: Node)
    ensures Tree(d[p + rel := node], p) == Tree(d, p)[rel := node]
  {
    forall q ensures p + q == p + rel <==> q == rel {
      SameRelative(p, q, rel);
    }
  }

  lemma CopyKeepsHalf(d: Disk, d': Disk, from: Path, to: Path, done: set<Path>, done': set<Path>)
    requires HalfCopied(d, from, to, done) && CopiesOne(d, d', from, to, done, done')
    requires !(from <= to) && !(to <= from)
    ensures HalfCopied(d', from, to, done') && Tree(d', from) == Tree(d, from)
  {
    var rel :| CopiesEntry(d, d', from, to, done, rel) && done' == done + {rel};
    UpdateBelow(d, to, to + rel, d[from + rel]);
    OutsideKeepsTree(d, d', to, from);
    TreeGrows(d, to, rel, d[from + rel]);
    assert Tree(d', to) == Tree(d, to)[rel := d[from + rel]];
  }

  lemma SameRelative(p: Path, q: Path, r: Path)
    ensures p + q == p + r <==> q == r
  {
    assert (p + q)[|p|..] == q && (p + r)[|p|..] == r;
  }

  lemma AllCopiedIsExact(d: Disk, from: Path, to: Path, done: set<Path>)
    requires HalfCopied(d, from, to, done) && AllCopied(d, from, done)
    ensures Tree(d, to) == Tree(d, from)
  {
    forall q ensures q in Tree(d, from) ==> q in done {
      assert q in Tree(d, from) <==> from + q in d;
    }
  }

  lemma FreshCopy(d: Disk, from: Path, to: Path)
    requires NothingAt(d, to) && IsDir(d, from) && !(from <= to) && !(to <= from)
    ensures
      var d' := d[to := Dir];
      HalfCopied(d', from, to, {[]}) && Tree(d', from) == Tree(d, from)
  {
    var d' := d[to := Dir];
    UpdateBelow(d, to, to, Dir);
    OutsideKeepsTree(d, d', to, from);
    assert to + [] == to && from + [] == from;
    forall q ensures q in Tree(d', to) <==> q in {[]} {
      SameRelative(to, q, []);
      assert to <= to + q;
    }
  }

  /** Between moves `i` and `j`, thread `t` does nothing but `work`, and nobody else works on `n` or on
      the entry of the backups. */
  ghost predicate Undisturbed(r: Run, i: nat, j: nat, t: Thread, work: Event, n: Name)
    requires IsRun(r) && j <= |r.moves|
  {
    forall k :: i < k < j ==> GoesOn(r, k, t, work, n)
  }

  ghost predicate GoesOn(r: Run, k: int, t: Thread, work: Event, n: Name)
    requires IsRun(r) && 0 <= k < |r.moves|
  {
    if r.moves[k].thread == t then r.moves[k].event == work
    else WorksOn(r.states[k], r.moves[k]) != Some(n) && WorksOn(r.states[k], r.moves[k]) != Some(BACKUP)
  }

  // ----- Backup.

  /** Thread `t` is copying `n` to `b`, and so far has copied it right. */
  ghost predicate CopyingOut(s: State, t: Thread, n: Name, b: Name, tree: Disk) {
    var pc := PcOf(s, t);
    && pc.BackingUp? && pc.name == n && pc.backup == b && BackupsAreOwned(s)
    && HalfCopied(s.world.disk, [n], BackupPath(b), pc.done) && Tree(s.world.disk, [n]) == tree
  }

  lemma BackupStarts(r: Run, i: nat, t: Thread, n: Name, b: Name)
    requires IsRun(r) && i < |r.moves| && r.moves[i] == Move(t, BackupBegin(n, b)) && n != BACKUP
    requires BackupsAreOwned(r.states[i])
    ensures CopyingOut(r.states[i + 1], t, n, b, Tree(r.states[i].world.disk, [n]))
  {
    assert StepAt(r, i);
    OwnersKept(r, i);
    assert [n][0] != BackupPath(b)[0];
    FreshCopy(r.states[i].world.disk, [n], BackupPath(b));
  }

  lemma BackupGoesOn(r: Run, k: nat, t: Thread, n: Name, b: Name, tree: Disk)
    requires IsRun(r) && k < |r.moves| && CopyingOut(r.states[k], t, n, b, tree) && n != BACKUP
    requires GoesOn(r, k, t, BackupWork, n)
    ensures CopyingOut(r.states[k + 1], t, n, b, tree)
  {
    var s, m, s' := r.states[k], r.moves[k], r.states[k + 1];
    assert StepAt(r, k);
    OwnersKept(r, k);
    if m.thread == t {
      assert [n][0] != BackupPath(b)[0];
      CopyKeepsHalf(s.world.disk, s'.world.disk, [n], BackupPath(b), PcOf(s, t).done, PcOf(s', t).done);
    } else {
      OthersLeaveBackup(s, m, s', b);
      OthersLeaveBase(s, m, s', n);
    }
  }

  lemma {:induction false} BackupProgress(r: Run, i: nat, j: nat, t: Thread, n: Name, b: Name)
    requires IsRun(r) && i < j <= |r.moves| && r.moves[i] == Move(t, BackupBegin(n, b)) && n != BACKUP
    requires BackupsAreOwned(r.states[i]) && Undisturbed(r, i, j, t, BackupWork, n)
    ensures CopyingOut(r.states[j], t, n, b, Tree(r.states[i].world.disk, [n]))
    decreases j
  {
    if j == i + 1 {
      BackupStarts(r, i, t, n, b);
    } else {
      BackupProgress(r, i, j - 1, t, n, b);
      BackupGoesOn(r, j - 1, t, n, b, Tree(r.states[i].world.disk, [n]));
    }
  }

  /** The backup `b` is complete, and this is its tree. */
  ghost predicate Holds(s: State, b: Name, tree: Disk) {
    Complete(s, b) && Tree(s.world.disk, BackupPath(b)) == tree
  }

  lemma BackupEnds(s: State, t: Thread, s': State, n: Name, b: Name, tree: Disk)
    requires CopyingOut(s, t, n, b, tree) && Step(s, Move(t, BackupEnd), s') && n != BACKUP
    ensures Holds(s', b, tree)
  {
    AllCopiedIsExact(s.world.disk, [n], BackupPath(b), PcOf(s, t).done);
  }

  /** From move `i` to move `j`, thread `t` backs `n` up as `b`, and succeeds. */
  ghost predicate BacksUp(r: Run, i: nat, j: nat, t: Thread, n: Name, b: Name)
    requires IsRun(r)
  {
    && i < j < |r.moves| && n != BACKUP
    && r.moves[i] == Move(t, BackupBegin(n, b)) && r.moves[j] == Move(t, BackupEnd)
    && Undisturbed(r, i, j, t, BackupWork, n)
  }

  /** A backup that ends successfully, whatever else goes on, holds the tree of its database. */
  lemma BackupIsExact(r: Run, i: nat, j: nat, t: Thread, n: Name, b: Name)
    requires IsRun(r) && BacksUp(r, i, j, t, n, b) && BackupsAreOwned(r.states[i])
    ensures Holds(r.states[j + 1], b, Tree(r.states[i].world.disk, [n]))
  {
    BackupProgress(r, i, j, t, n, b);
    assert StepAt(r, j);
    BackupEnds(r.states[j], t, r.states[j + 1], n, b, Tree(r.states[i].world.disk, [n]));
  }

  // ----- Restore.

  /** What the work of a restore has come to, against the tree of the backup. */
  ghost predicate WorkIsExact(d: Disk, m: Name, b: Name, work: Work, tree: Disk) {
    match work
    case Cleared => Tree(d, [m]) == map[]
    case Copying(done) => HalfCopied(d, BackupPath(b), [m], done)
    case Opened(base) => base == DataBase(m, tree)
    case _ => true
  }

  ghost predicate CopyingIn(s: State, t: Thread, m: Name, b: Name, tree: Disk) {
    var pc := PcOf(s, t);
    && pc.Restoring? && pc.name == m && pc.backup == b
    && Complete(s, b) && Tree(s.world.disk, BackupPath(b)) == tree && [] in tree && tree[[]] == Dir
    && WorkIsExact(s.world.disk, m, b, pc.work, tree)
  }

  /** One piece of the restore's own work. */
  lemma WorkGoesOn(d: Disk, d': Disk, m: Name, b: Name, work: Work, work': Work)
    requires RestoreWorks(d, d', m, b, work, work') && WorkIsExact(d, m, b, work, Tree(d, BackupPath(b)))
    requires m != BACKUP && IsDir(d, BackupPath(b))
    ensures WorkIsExact(d', m, b, work', Tree(d, BackupPath(b)))
    ensures Tree(d', BackupPath(b)) == Tree(d, BackupPath(b))
  {
    assert [m][0] != BackupPath(b)[0];
    OutsideKeepsTree(d, d', [m], BackupPath(b));
    match work'
    case Cleared =>
      forall q ensures q !in Tree(d', [m]) { assert [m] <= [m] + q; }
    case Copying(done) =>
      if work.Cleared? {
        ClearedIsEmpty(d, [m]);
        FreshCopy(d, BackupPath(b), [m]);
      } else {
        CopyKeepsHalf(d, d', BackupPath(b), [m], work.done, done);
      }
    case Opened(base) => AllCopiedIsExact(d, BackupPath(b), [m], work.done);
    case _ =>
  }

  lemma ClearedIsEmpty(d: Disk, p: Path)
    requires Tree(d, p) == map[]
    ensures NothingAt(d, p)
  {
    forall r | p <= r ensures r !in d {
      assert r == p + r[|p|..];
      assert r[|p|..] !in Tree(d, p);
    }
  }

  lemma RestoreGoesOn(r: Run, k: nat, t: Thread, m: Name, b: Name, tree: Disk)
    requires IsRun(r) && k < |r.moves| && CopyingIn(r.states[k], t, m, b, tree) && m != BACKUP
    requires GoesOn(r, k, t, RestoreWork, m)
    ensures CopyingIn(r.states[k + 1], t, m, b, tree)
  {
    var s, s' := r.states[k], r.states[k + 1];
    assert StepAt(r, k);
    BackupKept(r, k, b);
    if r.moves[k].thread == t {
      assert BackupPath(b) + [] == BackupPath(b);
      WorkGoesOn(s.world.disk, s'.world.disk, m, b, PcOf(s, t).work, PcOf(s', t).work);
    } else {
      OthersLeaveBase(s, r.moves[k], s', m);
    }
  }

  lemma {:induction false} RestoreProgress(r: Run, i: nat, j: nat, t: Thread, b: Name, m: Name)
    requires IsRun(r) && i < j <= |r.moves| && r.moves[i] == Move(t, RestoreBegin(b, m)) && m != BACKUP
    requires Complete(r.states[i], b) && Undisturbed(r, i, j, t, RestoreWork, m)
    ensures CopyingIn(r.states[j], t, m, b, Tree(r.states[i].world.disk, BackupPath(b)))
    decreases j
  {
    if j == i + 1 {
      assert StepAt(r, i);
      BackupKept(r, i, b);
      assert BackupPath(b) + [] == BackupPath(b);
    } else {
      RestoreProgress(r, i, j - 1, t, b, m);
      RestoreGoesOn(r, j - 1, t, m, b, Tree(r.states[i].world.disk, BackupPath(b)));
    }
  }

  /** The lookup of `m` finds a database that was opened on this tree. */
  ghost predicate IsOpenOn(w: World, m: Name, tree: Disk) {
    Registered(w) && LookupOf(w, m) == Found(DataBase(m, tree))
  }

  /** From move `i` to move `j`, thread `t` restores `b` as `m`, and succeeds. */
  ghost predicate PutsBack(r: Run, i: nat, j: nat, t: Thread, b: Name, m: Name)
    requires IsRun(r)
  {
    && i < j < |r.moves| && m != BACKUP
    && r.moves[i] == Move(t, RestoreBegin(b, m)) && r.moves[j].thread == t && r.moves[j].event.RestoreCommit?
    && Undisturbed(r, i, j, t, RestoreWork, m)
  }

  /** A restore that commits, whatever else goes on, has opened its database on the tree of the
      backup, and that database is the one found under its name. */
  lemma RestoreIsExact(r: Run, i: nat, j: nat, t: Thread, b: Name, m: Name, tree: Disk)
    requires IsRun(r) && PutsBack(r, i, j, t, b, m) && Inv(r.states[i]) && Holds(r.states[i], b, tree)
    ensures IsOpenOn(r.states[j + 1].world, m, tree)
  {
    RestoreProgress(r, i, j, t, b, m);
    RunKeepsInv(r, i, j);
    InvKept(r, j);
    assert StepAt(r, j);
  }

  /** A finished backup is still there, whole, at a later moment. */
  lemma BackupIsKept(r: Run, i: nat, j: nat, b: Name, tree: Disk)
    requires IsRun(r) && i <= j < |r.states| && Holds(r.states[i], b, tree) && EntryLeftAlone(r, i, j)
    ensures Holds(r.states[j], b, tree)
  {
    BackupIsImmutable(r, i, j, b);
  }

  lemma LaterRestore(r: Run, i: nat, j: nat, k: nat, t: Thread, b: Name, m: Name, tree: Disk)
    requires IsRun(r) && i <= j && PutsBack(r, j, k, t, b, m)
    requires Inv(r.states[i]) && Holds(r.states[i], b, tree) && EntryLeftAlone(r, i, j)
    ensures IsOpenOn(r.states[k + 1].world, m, tree)
  {
    BackupIsKept(r, i, j, b, tree);
    RunKeepsInv(r, i, j);
    RestoreIsExact(r, j, k, t, b, m, tree);
  }

  lemma DatabaseIsThere(r: Run, i: nat, j: nat, t: Thread, n: Name, b: Name)
    requires IsRun(r) && BacksUp(r, i, j, t, n, b)
    ensures var w := r.states[i].world; n in w.names && [n] in w.disk && [] in Tree(w.disk, [n])
  {
    assert StepAt(r, i);
    assert [n] + [] == [n];
  }

  /**
   * Backup, then anything, then restore, all of it interleaved with other clients: the database that
   * comes up as `m` was opened on the tree that `n` had when its backup began, whatever `m` held before.
   */
  lemma BackupThenRestoreIsExact(r: Run, i: nat, j: nat, k: nat, l: nat, t: Thread, u: Thread, n: Name, b: Name, m: Name)
    requires IsRun(r) && BacksUp(r, i, j, t, n, b) && j < k && PutsBack(r, k, l, u, b, m)
    requires Inv(r.states[i]) && BackupsAreOwned(r.states[i])
    requires EntryLeftAlone(r, j + 1, k)
    ensures IsOpenOn(r.states[l + 1].world, m, Tree(r.states[i].world.disk, [n]))
  {
    var tree := Tree(r.states[i].world.disk, [n]);
    DatabaseIsThere(r, i, j, t, n, b);
    RunKeepsInv(r, i, j + 1);
    BackupIsExact(r, i, j, t, n, b);
    LaterRestore(r, j + 1, k, l, u, b, m, tree);
  }
}
