/** A command that nobody interrupts is a run of one thread, so that what holds of all runs holds of
    the methods of System; and startup leaves a state from which all of it holds. */
module SingleCommands {
  import opened Disks
  import opened FileSystems
  import opened Worlds
  import opened Interleavings
  import opened Histories
  import opened Protocols

  /** From `w` to `w'`, with every thread after it where it was before. */
  ghost predicate Leads(r: Run, pcs: map<Thread, Pc>, w: World, w': World) {
    && IsRun(r) && r.states[0] == State(w, pcs) && Last(r).world == w'
    && forall t :: PcOf(Last(r), t) == PcOf(State(w, pcs), t)
  }

  function Last(r: Run): State
    requires |r.states| == |r.moves| + 1
  {
    r.states[|r.moves|]
  }

  /** A run that begins like `r`, at least with its first move. */
  ghost predicate Extends(r: Run, r': Run) {
    && IsRun(r) && IsRun(r') && r'.states[0] == r.states[0]
    && (r.moves != [] ==> r'.moves != [] && r'.moves[0] == r.moves[0])
  }

  /** One more move at the end of a run. */
  lemma Continue(r: Run, m: Move, s: State) returns (r': Run)
    requires IsRun(r) && Step(Last(r), m, s)
    ensures Extends(r, r') && Last(r') == s && (r.moves == [] ==> r'.moves == [m])
  {
    r' := Run(r.states + [s], r.moves + [m]);
    forall k | 0 <= k < |r'.moves| ensures StepAt(r', k) {
      if k < |r.moves| {
        assert StepAt(r, k);
      }
    }
  }

  lemma Start(s: State) returns (r: Run)
    ensures IsRun(r) && r.states[0] == s && Last(r) == s && r.moves == []
  {
    r := Run([s], []);
  }

  ghost predicate AtRest(pcs: map<Thread, Pc>, w: World, t: Thread) {
    LockFree(State(w, pcs)) && PcOf(State(w, pcs), t) == Idle
  }

  /** The state in which thread `t` stands at `pc` and the world is `w`. */
  function At(pcs: map<Thread, Pc>, t: Thread, pc: Pc, w: World): State {
    State(w, pcs[t := pc])
  }

  /** A thread that was idle is idle again. */
  lemma Finish(r: Run, pcs: map<Thread, Pc>, w: World, w': World, t: Thread)
    requires IsRun(r) && r.states[0] == State(w, pcs) && Last(r) == At(pcs, t, Idle, w') && AtRest(pcs, w, t)
    ensures Leads(r, pcs, w, w')
  {
  }

  lemma CreateBegins(w: World, n: Name, pcs: map<Thread, Pc>, t: Thread)
    requires NameAllowed(n) && !Exists(w.disk, n) && AtRest(pcs, w, t)
    ensures Step(State(w, pcs), Move(t, Check(n)), At(pcs, t, Checked(n), w))
    ensures Step(At(pcs, t, Checked(n), w), Move(t, MakeDirectory(true)),
                 At(pcs, t, Pc.Made(n), w.(disk := w.disk[[n] := Dir])))
  {
  }

  lemma CreateOpens(w: World, d: Disk, base: DataBase, ok: bool, pcs: map<Thread, Pc>, t: Thread)
    requires [base.name] in d && SameOutside(w.disk, d, [base.name])
    ensures Step(At(pcs, t, Pc.Made(base.name), w.(disk := w.disk[[base.name] := Dir])), Move(t, OpenBase(ok)),
                 At(pcs, t, if ok then Open(base) else Idle, w.(disk := d)))
  {
  }

  lemma CreatePublishes(w: World, w': World, base: DataBase, pcs: map<Thread, Pc>, t: Thread)
    requires AtRest(pcs, w, t) && w'.bases == w.bases + [Some(base)]
    requires w'.names == Insert(w.names, base.name, |w.bases|)
    ensures Step(At(pcs, t, Open(base), w.(disk := w'.disk)), Move(t, Publish), At(pcs, t, Idle, w'))
  {
    var s := At(pcs, t, Open(base), w.(disk := w'.disk));
    assert forall u :: PcOf(s, u) == if u == t then Open(base) else PcOf(State(w, pcs), u);
  }

  lemma CreateIsARun(w: World, w': World, n: Name, reply: Reply, pcs: map<Thread, Pc>, t: Thread) returns (r: Run)
    requires Created(w, w', n, reply) && AtRest(pcs, w, t)
    ensures Leads(r, pcs, w, w')
  {
    r := Start(State(w, pcs));
    if w' != w {
      var base := DataBase(n, EMPTY_DIRECTORY);
      CreateBegins(w, n, pcs, t);
      CreateOpens(w, w'.disk, base, reply == Done, pcs, t);
      r := Continue(r, Move(t, Check(n)), At(pcs, t, Checked(n), w));
      r := Continue(r, Move(t, MakeDirectory(true)), At(pcs, t, Pc.Made(n), w.(disk := w.disk[[n] := Dir])));
      if reply == Done {
        CreatePublishes(w, w', base, pcs, t);
        r := Continue(r, Move(t, OpenBase(true)), At(pcs, t, Open(base), w.(disk := w'.disk)));
        r := Continue(r, Move(t, Publish), At(pcs, t, Idle, w'));
      } else {
        assert w.(disk := w'.disk) == w';
        r := Continue(r, Move(t, OpenBase(false)), At(pcs, t, Idle, w'));
      }
      Finish(r, pcs, w, w', t);
    }
  }

  lemma DropSteps(w: World, w': World, n: Name, reply: Reply, gone: bool, pcs: map<Thread, Pc>, t: Thread)
    requires Registered(w) && Dropped(w, w', n, reply) && n in w.names && AtRest(pcs, w, t)
    requires gone == ([n] !in w'.disk)
    ensures Step(State(w, pcs), Move(t, DropBegin(n)), At(pcs, t, Dropping(n, false), w'.(disk := w.disk)))
    ensures IsDir(w.disk, [n]) ==>
              Step(At(pcs, t, Dropping(n, false), w'.(disk := w.disk)), Move(t, DropRemove),
                   At(pcs, t, Dropping(n, gone), w'))
    ensures !IsDir(w.disk, [n]) ==> w'.(disk := w.disk) == w'
  {
  }

  lemma DropEnds(w: World, n: Name, gone: bool, pcs: map<Thread, Pc>, t: Thread)
    ensures Step(At(pcs, t, Dropping(n, gone), w), Move(t, DropEnd), At(pcs, t, Idle, w))
  {
  }

  lemma DropIsARun(w: World, w': World, n: Name, reply: Reply, pcs: map<Thread, Pc>, t: Thread) returns (r: Run)
    requires Registered(w) && Dropped(w, w', n, reply) && AtRest(pcs, w, t)
    ensures Leads(r, pcs, w, w')
    ensures n in w.names ==> r.moves != [] && r.moves[0] == Move(t, DropBegin(n))
  {
    r := Start(State(w, pcs));
    if n in w.names {
      var gone := [n] !in w'.disk;
      DropSteps(w, w', n, reply, gone, pcs, t);
      r := Continue(r, Move(t, DropBegin(n)), At(pcs, t, Dropping(n, false), w'.(disk := w.disk)));
      if IsDir(w.disk, [n]) {
        r := Continue(r, Move(t, DropRemove), At(pcs, t, Dropping(n, gone), w'));
        DropEnds(w', n, gone, pcs, t);
      } else {
        DropEnds(w', n, false, pcs, t);
      }
      r := Continue(r, Move(t, DropEnd), At(pcs, t, Idle, w'));
      Finish(r, pcs, w, w', t);
    }
  }

  // ----- The copy loop as a run.

  /** A thread that copies, with the entries in `done` behind it. */
  function WithDone(pc: Pc, done: set<Path>): Pc
    requires pc.BackingUp? || pc.Restoring?
  {
    if pc.BackingUp? then pc.(done := done) else pc.(work := Copying(done))
  }

  function Source(pc: Pc): Path
    requires pc.BackingUp? || pc.Restoring?
  {
    if pc.BackingUp? then [pc.name] else BackupPath(pc.backup)
  }

  function Target(pc: Pc): Path
    requires pc.BackingUp? || pc.Restoring?
  {
    if pc.BackingUp? then BackupPath(pc.backup) else [pc.name]
  }

  /** Climbing from any entry that is missing leads to one that can be copied next. */
  lemma {:induction false} NextRelative(d: Disk, from: Path, done: set<Path>, q: Path) returns (rel: Path)
    requires WellFormed(d) && from + q in d && q !in done && [] in done
    ensures rel != [] && from + rel in d && rel !in done && rel[..|rel| - 1] in done
    decreases |q|
  {
    var up := q[..|q| - 1];
    assert HasParent(d, from + q) && Parent(from + q) == from + up;
    if up in done {
      rel := q;
    } else {
      rel := NextRelative(d, from, done, up);
    }
  }

  lemma EntryIsCopied(source: Disk, d: Disk, from: Path, to: Path, done: set<Path>, rel: Path)
    requires WellFormed(source) && Copied(source, d, from, to, done) && !(from <= to) && !(to <= from)
    requires rel != [] && from + rel in source && rel !in done && rel[..|rel| - 1] in done
    ensures
      var d' := d[to + rel := source[from + rel]];
      Copied(source, d', from, to, done + {rel}) && CopiesEntry(d, d', from, to, done, rel) && SameOutside(d, d', to)
  {
    ParentIsCopied(source, d, from, to, done, rel);
    CopyOne(source, d, from, to, done, rel);
    PrefixOfExtension(to, from, rel);
    OutsideKeeps(source, d, to, from + rel);
    UpdateBelow(d, to, to + rel, source[from + rel]);
  }

  lemma CopyStep(source: Disk, w: World, pcs: map<Thread, Pc>, t: Thread, pc: Pc, done: set<Path>, rel: Path)
    requires (pc.BackingUp? || pc.Restoring?) && pc.name != BACKUP && WellFormed(source)
    requires Copied(source, w.disk, Source(pc), Target(pc), done)
    requires rel != [] && Source(pc) + rel in source && rel !in done && rel[..|rel| - 1] in done
    ensures
      var d := w.disk[Target(pc) + rel := source[Source(pc) + rel]];
      && Copied(source, d, Source(pc), Target(pc), done + {rel})
      && Step(At(pcs, t, WithDone(pc, done), w), Move(t, if pc.BackingUp? then BackupWork else RestoreWork),
              At(pcs, t, WithDone(pc, done + {rel}), w.(disk := d)))
  {
    assert Source(pc)[0] != Target(pc)[0];
    EntryIsCopied(source, w.disk, Source(pc), Target(pc), done, rel);
    MoveOfCopy(w, w.disk[Target(pc) + rel := source[Source(pc) + rel]], pcs, t, pc, done, rel);
  }

  lemma MoveOfCopy(w: World, d: Disk, pcs: map<Thread, Pc>, t: Thread, pc: Pc, done: set<Path>, rel: Path)
    requires (pc.BackingUp? || pc.Restoring?) && pc.name != BACKUP
    requires CopiesEntry(w.disk, d, Source(pc), Target(pc), done, rel) && SameOutside(w.disk, d, Target(pc))
    ensures Step(At(pcs, t, WithDone(pc, done), w), Move(t, if pc.BackingUp? then BackupWork else RestoreWork),
                 At(pcs, t, WithDone(pc, done + {rel}), w.(disk := d)))
  {
    assert CopiesOne(w.disk, d, Source(pc), Target(pc), done, done + {rel});
  }

  /** The thread copies until nothing is left to copy. */
  lemma {:induction false} CopyLoop(r: Run, source: Disk, w: World, pcs: map<Thread, Pc>, t: Thread, pc: Pc, done: set<Path>)
    returns (r': Run, w': World, done': set<Path>)
    requires (pc.BackingUp? || pc.Restoring?) && pc.name != BACKUP && WellFormed(source)
    requires Copied(source, w.disk, Source(pc), Target(pc), done) && [] in done
    requires IsRun(r) && Last(r) == At(pcs, t, WithDone(pc, done), w)
    ensures Extends(r, r') && Last(r') == At(pcs, t, WithDone(pc, done'), w')
    ensures SameRegistry(w, w')
    ensures Copied(source, w'.disk, Source(pc), Target(pc), done') && AllCopied(source, Source(pc), done') && [] in done'
    decreases Relatives(source, Source(pc)) - done
  {
    if AllCopied(source, Source(pc), done) {
      return r, w, done;
    }
    var q :| Source(pc) + q in source && q !in done;
    var rel := NextRelative(source, Source(pc), done, q);
    RelativesAt(source, Source(pc), rel);
    CopyStep(source, w, pcs, t, pc, done, rel);
    var w1 := w.(disk := w.disk[Target(pc) + rel := source[Source(pc) + rel]]);
    var event := if pc.BackingUp? then BackupWork else RestoreWork;
    var r1 := Continue(r, Move(t, event), At(pcs, t, WithDone(pc, done + {rel}), w1));
    r', w', done' := CopyLoop(r1, source, w1, pcs, t, pc, done + {rel});
  }

  lemma CopyIsFinished(source: Disk, d: Disk, from: Path, to: Path, done: set<Path>)
    requires Copied(source, d, from, to, done) && AllCopied(source, from, done) && !(from <= to) && !(to <= from)
    ensures AllCopied(d, from, done) && Tree(d, to) == Tree(source, from)
  {
    CopyIsComplete(source, d, from, to, done);
    forall q | from + q in d ensures q in done {
      PrefixOfExtension(to, from, q);
      OutsideKeeps(source, d, to, from + q);
    }
  }

  lemma SameTreeSameDisk(d: Disk, d': Disk, p: Path)
    requires SameOutside(d, d', p) && Tree(d, p) == Tree(d', p)
    ensures d == d'
  {
    forall r
      ensures r in d <==> r in d'
      ensures r in d ==> d[r] == d'[r]
    {
      if p <= r {
        assert r == p + r[|p|..];
        assert r[|p|..] in Tree(d, p) <==> r in d;
        assert r[|p|..] in Tree(d', p) <==> r in d';
      } else {
        OutsideKeeps(d, d', p, r);
      }
    }
  }

  // ----- Backup and restore.

  lemma BackupBegins(w: World, n: Name, b: Name, pcs: map<Thread, Pc>, t: Thread)
    requires AtRest(pcs, w, t) && WellFormed(w.disk) && n in w.names && IsDir(w.disk, [n]) && BackupPath(b) !in w.disk
    ensures Step(State(w, pcs), Move(t, BackupBegin(n, b)),
                 At(pcs, t, BackingUp(n, b, {[]}), w.(disk := w.disk[BackupPath(b) := Dir])))
  {
    NothingBelow(w.disk, BackupPath(b));
  }

  lemma BackupIsARun(w: World, w': World, n: Name, b: Name, reply: Reply, pcs: map<Thread, Pc>, t: Thread)
    returns (r: Run)
    requires BackedUp(w, w', n, b, reply) && AtRest(pcs, w, t) && WellFormed(w.disk)
    ensures Leads(r, pcs, w, w')
  {
    r := Start(State(w, pcs));
    if w' == w {
      return;
    }
    BackupBegins(w, n, b, pcs, t);
    r := Continue(r, Move(t, BackupBegin(n, b)),
                  At(pcs, t, BackingUp(n, b, {[]}), w.(disk := w.disk[BackupPath(b) := Dir])));
    if reply == Done && n != BACKUP {
      r := FinishBackup(r, w, w', n, b, pcs, t);
    } else {
      r := EndBackup(r, w, w', n, b, reply, pcs, t);
    }
    Finish(r, pcs, w, w', t);
  }

  /** A backup that fails, or whose content is not specified. */
  lemma BackupIsOver(w: World, w': World, n: Name, b: Name, reply: Reply, pcs: map<Thread, Pc>, t: Thread)
    requires BackedUp(w, w', n, b, reply) && w' != w && (reply == Done ==> n == BACKUP)
    ensures
      var pc, w1 := BackingUp(n, b, {[]}), w.(disk := w.disk[BackupPath(b) := Dir]);
      if reply != Done then Step(At(pcs, t, pc, w1), Move(t, BackupUndo), At(pcs, t, Idle, w'))
      else Step(At(pcs, t, pc, w1), Move(t, BackupWork), At(pcs, t, pc, w')) &&
           Step(At(pcs, t, pc, w'), Move(t, BackupEnd), At(pcs, t, Idle, w'))
  {
    UpdateBelow(w.disk, BackupPath(b), BackupPath(b), Dir);
  }

  lemma EndBackup(r: Run, w: World, w': World, n: Name, b: Name, reply: Reply, pcs: map<Thread, Pc>, t: Thread)
    returns (r': Run)
    requires BackedUp(w, w', n, b, reply) && w' != w && (reply == Done ==> n == BACKUP)
    requires IsRun(r) && Last(r) == At(pcs, t, BackingUp(n, b, {[]}), w.(disk := w.disk[BackupPath(b) := Dir]))
    ensures Extends(r, r') && Last(r') == At(pcs, t, Idle, w')
  {
    BackupIsOver(w, w', n, b, reply, pcs, t);
    if reply != Done {
      r' := Continue(r, Move(t, BackupUndo), At(pcs, t, Idle, w'));
    } else {
      r' := Continue(r, Move(t, BackupWork), At(pcs, t, BackingUp(n, b, {[]}), w'));
      r' := Continue(r', Move(t, BackupEnd), At(pcs, t, Idle, w'));
    }
  }

  /** The disk with a new target directory, ready for the first entry. */
  lemma TargetIsMade(d: Disk, from: Path, to: Path)
    requires WellFormed(d) && IsDir(d, from) && to !in d && HasParent(d, to) && !(from <= to) && !(to <= from)
    ensures
      var made := d[to := Dir];
      && WellFormed(made) && SameOutside(d, made, to) && Tree(made, from) == Tree(d, from)
      && Copied(made, made, from, to, {[]})
  {
    var made := d[to := Dir];
    NewDirectory(d, to);
    NewNodeKeepsForm(d, to, Dir);
    OutsideKeepsTree(d, made, to, from);
    SourceStays(d, made, to, from);
    CopyStarts(made, from, to);
  }

  lemma FinishBackup(r: Run, w: World, w': World, n: Name, b: Name, pcs: map<Thread, Pc>, t: Thread)
    returns (r': Run)
    requires BackedUp(w, w', n, b, Done) && n != BACKUP && WellFormed(w.disk)
    requires IsRun(r) && Last(r) == At(pcs, t, BackingUp(n, b, {[]}), w.(disk := w.disk[BackupPath(b) := Dir]))
    ensures Extends(r, r') && Last(r') == At(pcs, t, Idle, w')
  {
    var pc, p, made := BackingUp(n, b, {[]}), BackupPath(b), w.disk[BackupPath(b) := Dir];
    assert [n][0] != p[0] && Parent(p) == [BACKUP];
    TargetIsMade(w.disk, [n], p);
    assert WithDone(pc, {[]}) == pc;
    var w2, done;
    r', w2, done := CopyLoop(r, made, w.(disk := made), pcs, t, pc, {[]});
    BackupEnds(made, w, w2, w', pc, done, pcs, t);
    r' := Continue(r', Move(t, BackupEnd), At(pcs, t, Idle, w'));
  }

  lemma BackupEnds(made: Disk, w: World, w2: World, w': World, pc: Pc, done: set<Path>, pcs: map<Thread, Pc>, t: Thread)
    requires pc.BackingUp? && pc.name != BACKUP && BackedUp(w, w', pc.name, pc.backup, Done) && SameRegistry(w, w2)
    requires SameOutside(w.disk, made, Target(pc)) && Tree(made, Source(pc)) == Tree(w.disk, Source(pc))
    requires Copied(made, w2.disk, Source(pc), Target(pc), done) && AllCopied(made, Source(pc), done)
    ensures Step(At(pcs, t, WithDone(pc, done), w2), Move(t, BackupEnd), At(pcs, t, Idle, w'))
  {
    assert Source(pc)[0] != Target(pc)[0];
    CopyIsFinished(made, w2.disk, Source(pc), Target(pc), done);
    SameTreeSameDisk(w2.disk, w'.disk, Target(pc));
  }

  lemma RestoreBegins(w: World, b: Name, n: Name, pcs: map<Thread, Pc>, t: Thread)
    requires Registered(w) && IsDir(w.disk, BackupPath(b)) && AtRest(pcs, w, t) && n != ""
    ensures Step(State(w, pcs), Move(t, RestoreBegin(b, n)), At(pcs, t, Begun(w, b, n), w.(bases := Emptied(w, n))))
  {
  }

  function Begun(w: World, b: Name, n: Name): Pc {
    Restoring(n, b, if n in w.names then w.names[n] else |w.bases|, n in w.names, Clearing)
  }

  /** The directory is removed. */
  lemma RestoreClears(w: World, clear: Disk, pc: Pc, pcs: map<Thread, Pc>, t: Thread)
    requires pc.Restoring? && pc.work.Clearing? && clear == Without(w.disk, [pc.name])
    ensures Step(At(pcs, t, pc, w), Move(t, RestoreWork), At(pcs, t, pc.(work := Cleared), w.(disk := clear)))
  {
    RemovalLeavesNothing(w.disk, [pc.name]);
    assert RestoreWorks(w.disk, clear, pc.name, pc.backup, pc.work, Cleared);
  }

  /** The directory is made again. */
  lemma RestoreMakes(w: World, made: Disk, pc: Pc, pcs: map<Thread, Pc>, t: Thread)
    requires pc.Restoring? && [pc.name] !in w.disk && made == w.disk[[pc.name] := Dir]
    ensures Step(At(pcs, t, pc.(work := Cleared), w), Move(t, RestoreWork),
                 At(pcs, t, WithDone(pc, {[]}), w.(disk := made)))
  {
    UpdateBelow(w.disk, [pc.name], [pc.name], Dir);
    assert RestoreWorks(w.disk, made, pc.name, pc.backup, Cleared, Copying({[]}));
  }

  lemma ReplaceDirectory(r: Run, w: World, made: Disk, pc: Pc, pcs: map<Thread, Pc>, t: Thread) returns (r': Run)
    requires pc.Restoring? && pc.work.Clearing? && IsRun(r) && Last(r) == At(pcs, t, pc, w)
    requires made == Without(w.disk, [pc.name])[[pc.name] := Dir]
    ensures Extends(r, r')
    ensures Last(r') == At(pcs, t, WithDone(pc, {[]}), w.(disk := made))
  {
    var clear := Without(w.disk, [pc.name]);
    RestoreClears(w, clear, pc, pcs, t);
    RestoreMakes(w.(disk := clear), made, pc, pcs, t);
    r' := Continue(r, Move(t, RestoreWork), At(pcs, t, pc.(work := Cleared), w.(disk := clear)));
    r' := Continue(r', Move(t, RestoreWork), At(pcs, t, WithDone(pc, {[]}), w.(disk := made)));
  }

  lemma RestoreOpens(w: World, d: Disk, base: DataBase, pc: Pc, done: set<Path>, pcs: map<Thread, Pc>, t: Thread)
    requires pc.Restoring? && AllCopied(w.disk, BackupPath(pc.backup), done)
    requires base == DataBase(pc.name, Tree(w.disk, [pc.name])) && Touched(w.disk, d, [pc.name])
    ensures Step(At(pcs, t, WithDone(pc, done), w), Move(t, RestoreWork),
                 At(pcs, t, pc.(work := Opened(base)), w.(disk := d)))
  {
    assert RestoreWorks(w.disk, d, pc.name, pc.backup, Copying(done), Opened(base));
  }

  lemma RestoreCommits(w: World, w': World, base: DataBase, pc: Pc, pcs: map<Thread, Pc>, t: Thread)
    requires pc.Restoring? && w'.disk == w.disk
    requires if pc.existed
             then pc.id < |w.bases| && w'.bases == w.bases[pc.id := Some(base)] && w'.names == w.names
             else w'.bases == w.bases + [Some(base)] && w'.names == Insert(w.names, pc.name, pc.id)
    ensures Step(At(pcs, t, pc.(work := Opened(base)), w), Move(t, RestoreCommit(base)), At(pcs, t, Idle, w'))
  {
  }

  lemma RestoreFails(w: World, w': World, pc: Pc, pcs: map<Thread, Pc>, t: Thread)
    requires pc.Restoring? && SameRegistry(w, w') && SameOutside(w.disk, w'.disk, [pc.name])
    ensures Step(At(pcs, t, pc, w), Move(t, RestoreWork), At(pcs, t, pc.(work := Failed), w'))
    ensures Step(At(pcs, t, pc.(work := Failed), w'), Move(t, RestoreFail), At(pcs, t, Idle, w'))
  {
    assert RestoreWorks(w.disk, w'.disk, pc.name, pc.backup, pc.work, Failed);
  }

  /** The disk without the old directory and with a new one, ready for the first entry. */
  lemma RestoreIsPrepared(d: Disk, from: Path, to: Path)
    requires WellFormed(d) && IsDir(d, from) && |to| == 1 && !(from <= to) && !(to <= from)
    ensures
      var made := Without(d, to)[to := Dir];
      && WellFormed(made) && SameOutside(d, made, to) && Tree(made, from) == Tree(d, from)
      && Copied(made, made, from, to, {[]})
  {
    RemovalKeepsForm(d, to);
    RemovalLeavesNothing(d, to);
    var clear := Without(d, to);
    RootIsThere(d, from);
    OutsideKeeps(d, clear, to, []);
    OutsideKeepsTree(d, clear, to, from);
    SourceStays(d, clear, to, from);
    assert Parent(to) == [];
    TargetIsMade(clear, from, to);
  }

  lemma FinishRestore(r: Run, w: World, w': World, b: Name, n: Name, pcs: map<Thread, Pc>, t: Thread)
    returns (r': Run)
    requires Registered(w) && Restored(w, w', b, n, Done) && WellFormed(w.disk) && IsDir(w.disk, BackupPath(b))
    requires IsRun(r) && Last(r) == At(pcs, t, Begun(w, b, n), w.(bases := Emptied(w, n)))
    ensures Extends(r, r') && Last(r') == At(pcs, t, Idle, w')
  {
    var p, pc, reset := [n], Begun(w, b, n), w.(bases := Emptied(w, n));
    var made := Without(w.disk, p)[p := Dir];
    assert BackupPath(b)[0] != p[0];
    RestoreIsPrepared(w.disk, BackupPath(b), p);
    r' := ReplaceDirectory(r, reset, made, pc, pcs, t);
    var w2, done;
    r', w2, done := CopyLoop(r', made, reset.(disk := made), pcs, t, pc, {[]});
    r' := EndRestore(r', w, w2, w', made, pc, done, pcs, t);
  }

  /** The finished copy is the tree of the source, and opening it leads to `d'`. */
  lemma CopyCanBeOpened(d: Disk, made: Disk, copy: Disk, d': Disk, from: Path, to: Path, done: set<Path>)
    requires SameOutside(d, made, to) && Tree(made, from) == Tree(d, from) && !(from <= to) && !(to <= from)
    requires Copied(made, copy, from, to, done) && AllCopied(made, from, done) && [] in done
    requires SameOutside(d, d', to) && to in d'
    ensures AllCopied(copy, from, done) && Tree(copy, to) == Tree(d, from) && Touched(copy, d', to)
  {
    assert to + [] == to;
    CopyIsFinished(made, copy, from, to, done);
  }

  lemma RestoreEnds(w: World, w2: World, w': World, made: Disk, base: DataBase, pc: Pc, done: set<Path>, pcs: map<Thread, Pc>, t: Thread)
    requires Registered(w) && pc.Restoring? && pc == Begun(w, pc.backup, pc.name) && IsDir(w.disk, BackupPath(pc.backup))
    requires Restored(w, w', pc.backup, pc.name, Done) && w2.names == w.names && w2.bases == Emptied(w, pc.name)
    requires SameOutside(w.disk, made, Target(pc)) && Tree(made, Source(pc)) == Tree(w.disk, Source(pc))
    requires Copied(made, w2.disk, Source(pc), Target(pc), done) && AllCopied(made, Source(pc), done) && [] in done
    requires base == DataBase(pc.name, Tree(w.disk, BackupPath(pc.backup)))
    ensures Step(At(pcs, t, WithDone(pc, done), w2), Move(t, RestoreWork),
                 At(pcs, t, pc.(work := Opened(base)), w2.(disk := w'.disk)))
    ensures Step(At(pcs, t, pc.(work := Opened(base)), w2.(disk := w'.disk)), Move(t, RestoreCommit(base)),
                 At(pcs, t, Idle, w'))
  {
    assert Source(pc)[0] != Target(pc)[0];
    CopyCanBeOpened(w.disk, made, w2.disk, w'.disk, Source(pc), Target(pc), done);
    RestoreOpens(w2, w'.disk, base, pc, done, pcs, t);
    RestoreCommits(w2.(disk := w'.disk), w', base, pc, pcs, t);
  }

  lemma EndRestore(r: Run, w: World, w2: World, w': World, made: Disk, pc: Pc, done: set<Path>, pcs: map<Thread, Pc>, t: Thread)
    returns (r': Run)
    requires Registered(w) && pc.Restoring? && pc == Begun(w, pc.backup, pc.name) && IsDir(w.disk, BackupPath(pc.backup))
    requires Restored(w, w', pc.backup, pc.name, Done) && w2.names == w.names && w2.bases == Emptied(w, pc.name)
    requires SameOutside(w.disk, made, Target(pc)) && Tree(made, Source(pc)) == Tree(w.disk, Source(pc))
    requires Copied(made, w2.disk, Source(pc), Target(pc), done) && AllCopied(made, Source(pc), done) && [] in done
    requires IsRun(r) && Last(r) == At(pcs, t, WithDone(pc, done), w2)
    ensures Extends(r, r') && Last(r') == At(pcs, t, Idle, w')
  {
    var base := DataBase(pc.name, Tree(w.disk, BackupPath(pc.backup)));
    RestoreEnds(w, w2, w', made, base, pc, done, pcs, t);
    r' := Continue(r, Move(t, RestoreWork), At(pcs, t, pc.(work := Opened(base)), w2.(disk := w'.disk)));
    r' := Continue(r', Move(t, RestoreCommit(base)), At(pcs, t, Idle, w'));
  }

  lemma RootIsThere(d: Disk, p: Path)
    requires WellFormed(d) && p in d
    ensures IsDir(d, [])
  {
    PrefixesExist(d, [], p);
  }

  lemma RestoreIsARun(w: World, w': World, b: Name, n: Name, reply: Reply, pcs: map<Thread, Pc>, t: Thread)
    returns (r: Run)
    requires Registered(w) && Restored(w, w', b, n, reply) && AtRest(pcs, w, t) && WellFormed(w.disk) && n != ""
    ensures Leads(r, pcs, w, w')
    ensures IsDir(w.disk, BackupPath(b)) ==> r.moves != [] && r.moves[0] == Move(t, RestoreBegin(b, n))
  {
    r := Start(State(w, pcs));
    if !IsDir(w.disk, BackupPath(b)) {
      return;
    }
    var pc, reset := Begun(w, b, n), w.(bases := Emptied(w, n));
    RestoreBegins(w, b, n, pcs, t);
    r := Continue(r, Move(t, RestoreBegin(b, n)), At(pcs, t, pc, reset));
    if reply == Done {
      r := FinishRestore(r, w, w', b, n, pcs, t);
    } else {
      RestoreFails(reset, w', pc, pcs, t);
      r := Continue(r, Move(t, RestoreWork), At(pcs, t, pc.(work := Failed), w'));
      r := Continue(r, Move(t, RestoreFail), At(pcs, t, Idle, w'));
    }
    Finish(r, pcs, w, w', t);
  }

  /** What startup leaves satisfies every invariant from which the run lemmas start. */
  lemma StartupStateIsGood(w: World)
    requires Consistent(w)
    ensures var s := State(w, map[]);
            Inv(s) && Protocol(s) && AllLive(s) && BackupsAreOwned(s)
  {
  }
}
