/** Execution guards over `flock`, at the level of open file descriptions.

    A lock belongs to an open file description. Descriptions are shared by the
    descriptor copies that `dup`, `fork` and a supervisor's inherited
    descriptors create, and the kernel frees a lock when it is unlocked
    explicitly or when the last copy closes. Every acquire, transfer, fork,
    exec, close, narrow and process death is one step, so a run is an
    interleaving of any number of threads, processes and children. */
module LockKernel {
  import opened Results
  import opened LockNames

  type Id = nat
  type Process = nat
  type Child = nat

  /** The life of the `LockFile` that opened a description: opened and trying,
      holding the lock, or unlocked and about to close. */
  datatype Phase = Opening | Holding | Released

  datatype LockFile = LockFile(phase: Phase, transferred: bool)

  /** One open file description: the process that opened it, its lock, and every
      descriptor copy of it.
      - `owner`: the `LockFile` of the opening process;
      - `gated`: `TransferredFile` copies, closed through the spawn gate;
      - `borrowed`: a runner's duplicates of a gated copy, closed ungated while
        that copy is still alive (each maps to the copy it duplicates);
      - `forked`: children between fork and exec, which copy everything;
      - `kept`: those of them whose copy was meant to survive exec;
      - `supervisors`: children that exec'd with an inherited copy. */
  datatype Description = Description(
    process: Process, file: LockName, lock: Option<Mode>, owner: Option<LockFile>,
    gated: set<Id>, borrowed: map<Id, Id>, forked: set<Child>, kept: set<Child>, supervisors: set<Child>)
  {
    predicate OpenInProcess() {
      owner.Some? || gated != {} || borrowed != map[]
    }

    /** Some descriptor is open somewhere. */
    predicate Open() {
      OpenInProcess() || forked != {} || supervisors != {}
    }

    /** Some descriptor is open that was meant to carry the lock. */
    predicate Transferred() {
      gated != {} || borrowed != map[] || kept != {} || supervisors != {}
    }

    predicate Holding() {
      owner.Some? && owner.value.phase == Phase.Holding
    }

    /** The kernel frees the lock of a description once no copy of it is open. */
    function Settle(): Description {
      if Open() then this else this.(lock := None)
    }
  }

  /** The guards of the library, each owning its lock files. */
  datatype Guard =
    | RootGuard(root: Path, rootLock: Id)
    | ProjectGuard(project: Project, rootLock: Id, projectLock: Id)
    | SharedGuard(project: Project, rootLock: Id, projectLock: Id, fences: map<Resource, Id>, routineLock: Id)
    | Fence(fenceRoot: Path, resource: Resource, fenceLock: Id)
    | CheckGuard(project: Project, resource: Resource, fenceLock: Id, rootLock: Id)

  /** `forks` gives the parent of each child between fork and exec. A process
      that crashed never acts again. */
  datatype World = World(descs: map<Id, Description>, forks: map<Child, Process>, crashed: set<Process>, guards: map<Id, Guard>)

  datatype Step =
    | Open(desc: Id, process: Process, file: LockName)
    | TryLock(desc: Id, mode: Mode)
    | MarkTransferred(desc: Id)
    | Clone(desc: Id, copy: Id)
    | Borrow(desc: Id, copy: Id, base: Id)
    | Unlock(desc: Id)
    | Close(desc: Id)
    | CloseTransferred(desc: Id)
    | CloseGated(desc: Id, copy: Id)
    | CloseBorrowed(desc: Id, copy: Id)
    | ForkChild(child: Child, process: Process, keep: set<Id>)
    | Exec(child: Child)
    | ChildDies(child: Child)
    | SupervisorExits(child: Child)
    | Crash(process: Process)
    | Build(guard: Id, value: Guard)
    | Dismantle(guard: Id)
    | Narrow(guard: Id, fence: Id, check: Id)

  // ---------------------------------------------------------------- guards and locks

  predicate Holds(w: World, h: Id, file: LockName, mode: Mode) {
    && h in w.descs && w.descs[h].Holding()
    && w.descs[h].file == file && w.descs[h].lock == Some(mode)
  }

  function HandlesOf(g: Guard): set<Id> {
    match g
    case RootGuard(_, r) => {r}
    case ProjectGuard(_, r, p) => {r, p}
    case SharedGuard(_, r, p, fences, q) => {r, p, q} + fences.Values
    case Fence(_, _, f) => {f}
    case CheckGuard(_, _, f, r) => {f, r}
  }

  /** What holding a guard means in terms of the locks behind it. */
  predicate GuardHolds(w: World, g: Guard) {
    match g
    case RootGuard(root, r) => Holds(w, r, RootLock(root), Exclusive)
    case ProjectGuard(p, r, e) =>
      Holds(w, r, RootLock(p.root), Shared) && Holds(w, e, EffectLock(p), Exclusive)
    case SharedGuard(p, r, e, fences, q) =>
      && Holds(w, r, RootLock(p.root), Shared)
      && Holds(w, e, EffectLock(p), Shared)
      && Holds(w, q, RoutineLock(p.root), Shared)
      && (forall x <- fences :: Holds(w, fences[x], FenceLock(p.root, x), Exclusive))
    case Fence(root, x, f) => Holds(w, f, FenceLock(root, x), Exclusive)
    case CheckGuard(p, x, f, r) =>
      Holds(w, r, RootLock(p.root), Shared) && Holds(w, f, FenceLock(p.root, x), Exclusive)
  }

  predicate InGuard(w: World, h: Id) {
    exists g <- w.guards :: h in HandlesOf(w.guards[g])
  }

  /** No other description holds a conflicting lock on the same file. */
  predicate Grantable(w: World, d: Id, mode: Mode)
    requires d in w.descs
  {
    forall e <- w.descs :: e != d && w.descs[e].file == w.descs[d].file && w.descs[e].lock.Some?
      ==> Compatible(w.descs[e].lock.value, mode)
  }

  /** The spawn gate of a process is held shared exactly while one of its
      children is between fork and exec. */
  predicate GateShared(w: World, p: Process) {
    p in w.forks.Values
  }

  // ---------------------------------------------------------------- steps

  predicate Enabled(w: World, a: Step) {
    match a
    case Open(d, p, _) => d !in w.descs && p !in w.crashed
    case TryLock(d, mode) =>
      d in w.descs && w.descs[d].owner.Some? && w.descs[d].owner.value.phase == Opening && Grantable(w, d, mode)
    case MarkTransferred(d) => d in w.descs && w.descs[d].Holding()
    case Clone(d, c) => d in w.descs && w.descs[d].Holding() && w.descs[d].owner.value.transferred && c !in w.descs[d].gated
    case Borrow(d, c, b) => d in w.descs && b in w.descs[d].gated && c !in w.descs[d].borrowed
    case Unlock(d) => d in w.descs && w.descs[d].Holding() && !w.descs[d].owner.value.transferred && !InGuard(w, d)
    case Close(d) => d in w.descs && w.descs[d].owner.Some? && !w.descs[d].Holding()
    case CloseTransferred(d) =>
      && d in w.descs && w.descs[d].Holding() && w.descs[d].owner.value.transferred && !InGuard(w, d)
      && !GateShared(w, w.descs[d].process)
    case CloseGated(d, c) =>
      && d in w.descs && c in w.descs[d].gated && c !in w.descs[d].borrowed.Values
      && !GateShared(w, w.descs[d].process)
    case CloseBorrowed(d, c) => d in w.descs && c in w.descs[d].borrowed
    case ForkChild(f, p, keep) =>
      && f !in w.forks && p !in w.crashed && (forall d <- w.descs :: f !in w.descs[d].supervisors)
      && (forall d <- keep :: d in w.descs && w.descs[d].process == p && w.descs[d].borrowed != map[])
    case Exec(f) => f in w.forks
    case ChildDies(f) => f in w.forks
    case SupervisorExits(s) => s !in w.forks
    case Crash(p) => true
    case Build(g, value) => g !in w.guards && GuardHolds(w, value) && (forall h <- HandlesOf(value) :: !InGuard(w, h))
    case Dismantle(g) => g in w.guards
    case Narrow(g, f, c) =>
      && g in w.guards && f in w.guards && g != f && c !in w.guards
      && w.guards[g].ProjectGuard? && w.guards[f].Fence? && w.guards[f].fenceRoot == w.guards[g].project.root
  }

  /** What a step does to one description. */
  function Effect(w: World, a: Step, d: Id): Description
    requires Enabled(w, a) && d in w.descs
  {
    var x := w.descs[d];
    match a
    case TryLock(e, mode) => if d == e then x.(lock := Some(mode), owner := Some(x.owner.value.(phase := Holding))) else x
    case MarkTransferred(e) => if d == e then x.(owner := Some(x.owner.value.(transferred := true))) else x
    case Clone(e, c) => if d == e then x.(gated := x.gated + {c}) else x
    case Borrow(e, c, b) => if d == e then x.(borrowed := x.borrowed[c := b]) else x
    case Unlock(e) => if d == e then x.(lock := None, owner := Some(x.owner.value.(phase := Released))) else x
    case Close(e) => if d == e then x.(owner := None).Settle() else x
    case CloseTransferred(e) => if d == e then x.(owner := None).Settle() else x
    case CloseGated(e, c) => if d == e then x.(gated := x.gated - {c}).Settle() else x
    case CloseBorrowed(e, c) => if d == e then x.(borrowed := x.borrowed - {c}).Settle() else x
    case ForkChild(f, p, keep) =>
      if x.process == p && x.OpenInProcess()
      then x.(forked := x.forked + {f}, kept := if d in keep then x.kept + {f} else x.kept)
      else x
    case Exec(f) =>
      x.(forked := x.forked - {f}, kept := x.kept - {f}, supervisors := if f in x.kept then x.supervisors + {f} else x.supervisors).Settle()
    case ChildDies(f) => x.(forked := x.forked - {f}, kept := x.kept - {f}).Settle()
    case SupervisorExits(s) => x.(supervisors := x.supervisors - {s}).Settle()
    case Crash(p) => if x.process == p then x.(owner := None, gated := {}, borrowed := map[]).Settle() else x
    case _ => x
  }

  function Apply(w: World, a: Step): World
    requires Enabled(w, a)
  {
    var descs := map d <- w.descs :: Effect(w, a, d);
    match a
    case Open(d, p, file) =>
      w.(descs := descs[d := Description(p, file, None, Some(LockFile(Opening, false)), {}, map[], {}, {}, {})])
    case ForkChild(f, p, _) => w.(descs := descs, forks := w.forks[f := p])
    case Exec(f) => w.(descs := descs, forks := w.forks - {f})
    case ChildDies(f) => w.(descs := descs, forks := w.forks - {f})
    case Crash(p) =>
      w.(descs := descs, crashed := w.crashed + {p},
         guards := map g <- w.guards | (forall h <- HandlesOf(w.guards[g]) :: h in w.descs && w.descs[h].process != p) :: w.guards[g])
    case Build(g, value) => w.(guards := w.guards[g := value])
    case Dismantle(g) => w.(guards := w.guards - {g})
    case Narrow(g, f, c) =>
      w.(guards := (w.guards - {g, f})
           [c := CheckGuard(w.guards[g].project, w.guards[f].resource, w.guards[f].fenceLock, w.guards[g].rootLock)])
    case _ => w.(descs := descs)
  }

  const EmptyWorld: World := World(map[], map[], {}, map[])

  /** A finite run: every world follows from the one before by an enabled step. */
  ghost predicate Run(worlds: seq<World>, steps: seq<Step>) {
    && |worlds| == |steps| + 1
    && worlds[0] == EmptyWorld
    && forall i :: 0 <= i < |steps| ==> Enabled(worlds[i], steps[i]) && worlds[i + 1] == Apply(worlds[i], steps[i])
  }

  // ---------------------------------------------------------------- the invariant

  /** One description, seen against the children awaiting exec and the crashed processes. */
  predicate DescriptionOk(x: Description, forks: map<Child, Process>, crashed: set<Process>) {
    && (x.owner.Some? ==> (x.lock.Some? <==> x.Holding()))
    && x.borrowed.Values <= x.gated
    && x.kept <= x.forked
    && (forall f <- x.forked :: f in forks && forks[f] == x.process)
    // A transferred lock is never unlocked: it lives as long as its copies.
    && (x.Transferred() ==> x.lock.Some? && (x.owner.Some? ==> x.owner.value.transferred))
    // The kernel has settled.
    && (x.lock.Some? ==> x.Open())
    // The spawn gate: a child awaiting exec never has the last copy of a lock.
    && (x.lock.Some? && x.forked != {} && x.process !in crashed ==> x.owner.Some? || x.gated != {})
    && (x.process in crashed ==> !x.OpenInProcess())
  }

  ghost predicate DescriptionsOk(w: World) {
    forall d :: d in w.descs ==> DescriptionOk(w.descs[d], w.forks, w.crashed)
  }

  /** The kernel's lock table never holds conflicting locks. */
  ghost predicate TableConsistent(w: World) {
    forall d, e :: d in w.descs && e in w.descs && d != e && w.descs[d].file == w.descs[e].file
      && w.descs[d].lock.Some? && w.descs[e].lock.Some?
      ==> Compatible(w.descs[d].lock.value, w.descs[e].lock.value)
  }

  /** Every guard holds its locks and owns them alone. */
  ghost predicate GuardsHold(w: World) {
    (forall g :: g in w.guards ==> GuardHolds(w, w.guards[g])) && GuardsDisjoint(w)
  }

  ghost predicate GuardsDisjoint(w: World) {
    forall g, h :: g in w.guards && h in w.guards && g != h ==> HandlesOf(w.guards[g]) !! HandlesOf(w.guards[h])
  }

  ghost predicate Inv(w: World) {
    DescriptionsOk(w) && TableConsistent(w) && GuardsHold(w)
  }

  // ---------------------------------------------------------------- preservation

  lemma LockEffectOk(w: World, a: Step, d: Id)
    requires DescriptionsOk(w) && Enabled(w, a) && d in w.descs
    requires a.Open? || a.TryLock? || a.MarkTransferred? || a.Unlock? || a.Build? || a.Dismantle? || a.Narrow?
    ensures DescriptionOk(Effect(w, a, d), w.forks, w.crashed)
  {
    assert DescriptionOk(w.descs[d], w.forks, w.crashed);
  }

  lemma CopyEffectOk(w: World, a: Step, d: Id)
    requires DescriptionsOk(w) && Enabled(w, a) && d in w.descs
    requires a.Clone? || a.Borrow? || a.CloseBorrowed?
    ensures DescriptionOk(Effect(w, a, d), w.forks, w.crashed)
  {
    var x := w.descs[d];
    assert DescriptionOk(x, w.forks, w.crashed);
    if a.CloseBorrowed? && a.desc == d {
      assert x.borrowed[a.copy] in x.gated;
    }
  }

  /** The gated closes: with the gate held exclusively no child has a copy. */
  lemma CloseEffectOk(w: World, a: Step, d: Id)
    requires DescriptionsOk(w) && Enabled(w, a) && d in w.descs
    requires a.Close? || a.CloseTransferred? || a.CloseGated?
    ensures DescriptionOk(Effect(w, a, d), w.forks, w.crashed)
  {
    var x := w.descs[d];
    assert DescriptionOk(x, w.forks, w.crashed);
    if d == a.desc && !a.Close? {
      assert x.forked == {};
    }
  }

  lemma ForkEffectOk(w: World, a: Step, d: Id)
    requires DescriptionsOk(w) && Enabled(w, a) && d in w.descs && a.ForkChild?
    ensures DescriptionOk(Effect(w, a, d), w.forks[a.child := a.process], w.crashed)
  {
    var x := w.descs[d];
    assert DescriptionOk(x, w.forks, w.crashed);
    if x.borrowed != map[] {
      var c :| c in x.borrowed;
      assert x.borrowed[c] in x.gated;
    }
  }

  lemma ChildEffectOk(w: World, a: Step, d: Id)
    requires DescriptionsOk(w) && Enabled(w, a) && d in w.descs && (a.Exec? || a.ChildDies? || a.SupervisorExits?)
    ensures DescriptionOk(Effect(w, a, d), if a.SupervisorExits? then w.forks else w.forks - {a.child}, w.crashed)
  {
    assert DescriptionOk(w.descs[d], w.forks, w.crashed);
  }

  lemma CrashEffectOk(w: World, a: Step, d: Id)
    requires DescriptionsOk(w) && Enabled(w, a) && d in w.descs && a.Crash?
    ensures DescriptionOk(Effect(w, a, d), w.forks, w.crashed + {a.process})
  {
    assert DescriptionOk(w.descs[d], w.forks, w.crashed);
  }

  lemma EffectOk(w: World, a: Step, d: Id)
    requires DescriptionsOk(w) && Enabled(w, a) && d in w.descs
    ensures DescriptionOk(Effect(w, a, d), Apply(w, a).forks, Apply(w, a).crashed)
  {
    if a.Clone? || a.Borrow? || a.CloseBorrowed? {
      CopyEffectOk(w, a, d);
    } else if a.Close? || a.CloseTransferred? || a.CloseGated? {
      CloseEffectOk(w, a, d);
    } else if a.ForkChild? {
      ForkEffectOk(w, a, d);
    } else if a.Exec? || a.ChildDies? || a.SupervisorExits? {
      ChildEffectOk(w, a, d);
    } else if a.Crash? {
      CrashEffectOk(w, a, d);
    } else {
      LockEffectOk(w, a, d);
    }
  }

  lemma DescriptionsKept(w: World, a: Step)
    requires DescriptionsOk(w) && Enabled(w, a)
    ensures DescriptionsOk(Apply(w, a))
  {
    forall d | d in w.descs ensures DescriptionOk(Effect(w, a, d), Apply(w, a).forks, Apply(w, a).crashed) {
      EffectOk(w, a, d);
    }
  }

  /** Only an acquisition creates a lock, and no step changes a lock's mode. */
  lemma EffectOnLock(w: World, a: Step, d: Id)
    requires Enabled(w, a) && d in w.descs
    ensures Effect(w, a, d).file == w.descs[d].file && Effect(w, a, d).process == w.descs[d].process
    ensures Effect(w, a, d).lock.Some? && !(a.TryLock? && a.desc == d) ==> Effect(w, a, d).lock == w.descs[d].lock
  {
  }

  lemma TableKept(w: World, a: Step)
    requires TableConsistent(w) && Enabled(w, a)
    ensures TableConsistent(Apply(w, a))
  {
    forall d | d in w.descs
      ensures Effect(w, a, d).file == w.descs[d].file
      ensures Effect(w, a, d).lock.Some? && !(a.TryLock? && a.desc == d) ==> Effect(w, a, d).lock == w.descs[d].lock
    {
      EffectOnLock(w, a, d);
    }
  }

  /** A lock file inside a guard is only ever released by dismantling the guard. */
  lemma HandleKept(w: World, a: Step, h: Id, file: LockName, mode: Mode)
    requires Enabled(w, a) && Holds(w, h, file, mode)
    requires a.Unlock? || a.CloseTransferred? ==> a.desc != h
    requires a.Crash? ==> w.descs[h].process != a.process
    ensures Holds(Apply(w, a), h, file, mode)
  {
    assert Effect(w, a, h).Holding() && Effect(w, a, h).lock == Some(mode) && Effect(w, a, h).file == file;
  }

  lemma GuardKept(w: World, a: Step, g: Id)
    requires GuardsHold(w) && Enabled(w, a) && g in w.guards && g in Apply(w, a).guards
    requires !a.Build? && !a.Dismantle? && !a.Narrow?
    ensures GuardHolds(Apply(w, a), w.guards[g])
  {
    forall h, file, mode | h in HandlesOf(w.guards[g]) && Holds(w, h, file, mode)
      ensures Holds(Apply(w, a), h, file, mode)
    {
      HandleKept(w, a, h, file, mode);
    }
  }

  /** Holding a guard is a matter of descriptions only. */
  lemma SameDescriptions(w: World, v: World, g: Guard)
    requires v.descs == w.descs && GuardHolds(w, g)
    ensures GuardHolds(v, g)
  {
  }

  lemma GuardStepHolds(w: World, a: Step)
    requires GuardsHold(w) && Enabled(w, a) && (a.Build? || a.Dismantle? || a.Narrow?)
    ensures forall g :: g in Apply(w, a).guards ==> GuardHolds(Apply(w, a), Apply(w, a).guards[g])
  {
    var v := Apply(w, a);
    forall g | g in v.guards ensures GuardHolds(v, v.guards[g]) {
      if a.Narrow? && g == a.check {
        assert GuardHolds(w, w.guards[a.guard]) && GuardHolds(w, w.guards[a.fence]);
      } else {
        assert GuardHolds(w, v.guards[g]);
        SameDescriptions(w, v, v.guards[g]);
      }
    }
  }

  /** A guard whose handles nobody else's guard has can join the others. */
  lemma JoinDisjoint(guards: map<Id, Guard>, g: Id, value: Guard)
    requires forall x, y :: x in guards && y in guards && x != y ==> HandlesOf(guards[x]) !! HandlesOf(guards[y])
    requires forall x :: x in guards && x != g ==> HandlesOf(guards[x]) !! HandlesOf(value)
    ensures var all := guards[g := value];
            forall x, y :: x in all && y in all && x != y ==> HandlesOf(all[x]) !! HandlesOf(all[y])
  {
  }

  lemma NarrowedHandles(w: World, a: Step, x: Id)
    requires GuardsHold(w) && Enabled(w, a) && a.Narrow? && x in w.guards && x != a.guard && x != a.fence
    ensures HandlesOf(w.guards[x]) !! HandlesOf(Apply(w, a).guards[a.check])
  {
    assert HandlesOf(w.guards[x]) !! HandlesOf(w.guards[a.guard]);
    assert HandlesOf(w.guards[x]) !! HandlesOf(w.guards[a.fence]);
  }

  lemma GuardStepDisjoint(w: World, a: Step)
    requires GuardsHold(w) && Enabled(w, a) && (a.Build? || a.Dismantle? || a.Narrow?)
    ensures GuardsDisjoint(Apply(w, a))
  {
    if a.Narrow? {
      var rest := w.guards - {a.guard, a.fence};
      forall x | x in rest ensures HandlesOf(rest[x]) !! HandlesOf(Apply(w, a).guards[a.check]) {
        NarrowedHandles(w, a, x);
      }
      JoinDisjoint(rest, a.check, Apply(w, a).guards[a.check]);
    } else if a.Build? {
      forall x | x in w.guards ensures HandlesOf(w.guards[x]) !! HandlesOf(a.value) {
        assert forall h <- HandlesOf(w.guards[x]) :: InGuard(w, h);
      }
      JoinDisjoint(w.guards, a.guard, a.value);
    }
  }

  lemma InvKept(w: World, a: Step)
    requires Inv(w) && Enabled(w, a)
    ensures Inv(Apply(w, a))
  {
    DescriptionsKept(w, a);
    TableKept(w, a);
    if a.Build? || a.Dismantle? || a.Narrow? {
      GuardStepHolds(w, a);
      GuardStepDisjoint(w, a);
    } else {
      forall g | g in Apply(w, a).guards ensures GuardHolds(Apply(w, a), w.guards[g]) {
        GuardKept(w, a, g);
      }
    }
  }

  lemma {:induction false} InvAlways(worlds: seq<World>, steps: seq<Step>, i: nat)
    requires Run(worlds, steps) && i < |worlds|
    ensures Inv(worlds[i])
  {
    if i > 0 {
      InvAlways(worlds, steps, i - 1);
      InvKept(worlds[i - 1], steps[i - 1]);
    }
  }

  // ---------------------------------------------------------------- exclusion

  function RootOf(g: Guard): Path {
    match g
    case RootGuard(root, _) => root
    case Fence(root, _, _) => root
    case _ => g.project.root
  }

  /** The resources a guard has to itself, by the root their fences live under. */
  function FencedBy(g: Guard): set<(Path, Resource)> {
    match g
    case SharedGuard(p, _, _, fences, _) => set x <- fences :: (p.root, x)
    case Fence(root, x, _) => {(root, x)}
    case CheckGuard(p, x, _, _) => {(p.root, x)}
    case _ => {}
  }

  /** Which guards may be held at the same time, as the lock hierarchy is documented:
      an exclusive root is alone, apart from fences; a project guard is the only
      guard of its project; no resource is fenced twice. */
  predicate MayCoexist(a: Guard, b: Guard) {
    && (a.RootGuard? && !b.Fence? ==> RootOf(a) != RootOf(b))
    && (b.RootGuard? && !a.Fence? ==> RootOf(a) != RootOf(b))
    && (a.ProjectGuard? && (b.ProjectGuard? || b.SharedGuard?) ==> a.project != b.project)
    && (b.ProjectGuard? && (a.ProjectGuard? || a.SharedGuard?) ==> a.project != b.project)
    && FencedBy(a) !! FencedBy(b)
  }

  /** Two different lock files cannot hold one file unless both share it. */
  lemma TwoHolders(w: World, h: Id, k: Id, file: LockName, m: Mode, n: Mode)
    requires TableConsistent(w) && h != k && Holds(w, h, file, m) && Holds(w, k, file, n)
    ensures m == Shared && n == Shared
  {
  }

  lemma FenceHolder(w: World, g: Guard, f: (Path, Resource)) returns (h: Id)
    requires GuardHolds(w, g) && f in FencedBy(g)
    ensures h in HandlesOf(g) && Holds(w, h, FenceLock(f.0, f.1), Exclusive)
  {
    match g
    case SharedGuard(_, _, _, fences, _) => h := fences[f.1];
    case Fence(_, _, l) => h := l;
    case CheckGuard(_, _, l, _) => h := l;
  }

  lemma GuardsExclude(w: World, g: Id, h: Id)
    requires TableConsistent(w) && GuardsHold(w) && g in w.guards && h in w.guards && g != h
    ensures MayCoexist(w.guards[g], w.guards[h])
  {
    var a, b := w.guards[g], w.guards[h];
    assert HandlesOf(a) !! HandlesOf(b);
    if f :| f in FencedBy(a) && f in FencedBy(b) {
      var x := FenceHolder(w, a, f);
      var y := FenceHolder(w, b, f);
      TwoHolders(w, x, y, FenceLock(f.0, f.1), Exclusive, Exclusive);
      assert false;
    }
  }

  /** Over every interleaving, the guards held at any moment may coexist. */
  lemma GuardExclusion(worlds: seq<World>, steps: seq<Step>, i: nat, g: Id, h: Id)
    requires Run(worlds, steps) && i < |worlds|
    requires g in worlds[i].guards && h in worlds[i].guards && g != h
    ensures MayCoexist(worlds[i].guards[g], worlds[i].guards[h])
  {
    InvAlways(worlds, steps, i);
    GuardsExclude(worlds[i], g, h);
  }

  // ---------------------------------------------------------------- transfer and the spawn gate

  /** A descriptor that carries the lock on purpose: the holding `LockFile`, a
      transferred copy of it, or a supervisor that inherited one. */
  predicate IntendedCopy(x: Description) {
    x.Holding() || x.Transferred()
  }

  /** A child that outlived a parent killed before the child's exec. */
  predicate OrphanedFork(w: World, x: Description) {
    x.process in w.crashed && x.forked != {}
  }

  /** At every moment of every run a description is locked while an intended
      copy is open, and only then: children between fork and exec never keep a
      lock, except those whose parent died before they exec'd. */
  lemma HeldExactlyByIntendedCopies(worlds: seq<World>, steps: seq<Step>, i: nat, d: Id)
    requires Run(worlds, steps) && i < |worlds| && d in worlds[i].descs
    ensures IntendedCopy(worlds[i].descs[d]) ==> worlds[i].descs[d].lock.Some?
    ensures worlds[i].descs[d].lock.Some? ==> IntendedCopy(worlds[i].descs[d]) || OrphanedFork(worlds[i], worlds[i].descs[d])
  {
    InvAlways(worlds, steps, i);
    assert DescriptionOk(worlds[i].descs[d], worlds[i].forks, worlds[i].crashed);
  }

  /** A supervisor that outlives its guard and its farm process still excludes:
      while it has an inherited copy of a lock, nobody else holds that file
      exclusively, and if the lock is exclusive nobody else holds it at all. */
  lemma SupervisorExcludes(worlds: seq<World>, steps: seq<Step>, i: nat, d: Id, h: Id, file: LockName)
    requires Run(worlds, steps) && i < |worlds| && d in worlds[i].descs && d != h
    requires worlds[i].descs[d].supervisors != {} && worlds[i].descs[d].file == file
    ensures !Holds(worlds[i], h, file, Exclusive)
    ensures worlds[i].descs[d].lock == Some(Exclusive) ==> !Holds(worlds[i], h, file, Shared)
  {
    InvAlways(worlds, steps, i);
    assert DescriptionOk(worlds[i].descs[d], worlds[i].forks, worlds[i].crashed);
  }

  /** A child that is to keep its copy of a lock, before its exec or after it. */
  predicate Carries(x: Description, child: Child) { child in x.kept || child in x.supervisors }

  /** At its exec a child loses every copy but those it was to keep. */
  lemma ExecKeepsExactly(worlds: seq<World>, steps: seq<Step>, i: nat, d: Id)
    requires Run(worlds, steps) && i < |steps| && steps[i].Exec? && d in worlds[i].descs
    ensures d in worlds[i + 1].descs && steps[i].child !in worlds[i + 1].descs[d].forked
    ensures Carries(worlds[i + 1].descs[d], steps[i].child) <==> Carries(worlds[i].descs[d], steps[i].child)
  {
    assert worlds[i + 1].descs[d] == Effect(worlds[i], steps[i], d);
  }

  lemma CarriedThrough(w: World, a: Step, d: Id, child: Child)
    requires Enabled(w, a) && d in w.descs && DescriptionOk(w.descs[d], w.forks, w.crashed) && Carries(w.descs[d], child)
    requires a != ChildDies(child) && a != SupervisorExits(child)
    ensures Carries(Effect(w, a, d), child) && Effect(w, a, d).lock == w.descs[d].lock
  {
  }

  /** A lock that a child carries, in its mode. */
  predicate CarriedAt(w: World, d: Id, child: Child, lock: Option<Mode>) {
    d in w.descs && Carries(w.descs[d], child) && w.descs[d].lock == lock
  }

  lemma CarriedOn(worlds: seq<World>, steps: seq<Step>, i: nat, d: Id, child: Child, lock: Option<Mode>)
    requires Run(worlds, steps) && i < |steps| && CarriedAt(worlds[i], d, child, lock)
    requires steps[i] != ChildDies(child) && steps[i] != SupervisorExits(child)
    ensures CarriedAt(worlds[i + 1], d, child, lock)
  {
    InvAlways(worlds, steps, i);
    CarriedThrough(worlds[i], steps[i], d, child);
  }

  /** The child does not end between two moments. */
  ghost predicate Lives(steps: seq<Step>, child: Child, i: nat, j: nat)
    requires i <= j <= |steps|
  {
    forall k :: i <= k < j ==> steps[k] != ChildDies(child) && steps[k] != SupervisorExits(child)
  }

  lemma CarriedIsLocked(worlds: seq<World>, steps: seq<Step>, i: nat, d: Id, child: Child, lock: Option<Mode>)
    requires Run(worlds, steps) && i < |worlds| && CarriedAt(worlds[i], d, child, lock)
    ensures lock.Some?
  {
    HeldExactlyByIntendedCopies(worlds, steps, i, d);
  }

  /** A lock handed to a child stays locked, in its mode, until that child ends:
      through its exec, through every close and drop by its parent, and through
      its parent's death. */
  lemma {:induction false} TransferSurvives(worlds: seq<World>, steps: seq<Step>, i: nat, j: nat, d: Id, child: Child, lock: Option<Mode>)
    requires Run(worlds, steps) && i <= j < |worlds| && CarriedAt(worlds[i], d, child, lock)
    requires Lives(steps, child, i, j)
    ensures CarriedAt(worlds[j], d, child, lock) && lock.Some?
    decreases j
  {
    if i < j {
      TransferSurvives(worlds, steps, i, j - 1, d, child, lock);
      CarriedOn(worlds, steps, j - 1, d, child, lock);
    } else {
      CarriedIsLocked(worlds, steps, i, d, child, lock);
    }
  }

  /** A fork hands over every lock the runner passed on to it. */
  lemma ForkHandsOver(worlds: seq<World>, steps: seq<Step>, i: nat, d: Id)
    requires Run(worlds, steps) && i < |steps| && steps[i].ForkChild? && d in steps[i].keep
    ensures d in worlds[i + 1].descs && Carries(worlds[i + 1].descs[d], steps[i].child)
    ensures worlds[i].descs[d].lock.Some? && worlds[i + 1].descs[d].lock == worlds[i].descs[d].lock
  {
    InvAlways(worlds, steps, i);
    var x := worlds[i].descs[d];
    assert DescriptionOk(x, worlds[i].forks, worlds[i].crashed);
    assert worlds[i + 1].descs[d] == Effect(worlds[i], steps[i], d);
  }

  predicate Free(w: World, file: LockName) {
    forall d <- w.descs :: w.descs[d].file == file ==> w.descs[d].lock.None?
  }

  /** The only open lock of a file: nothing else has the file locked. */
  predicate SoleLock(w: World, d: Id) {
    d in w.descs && forall e <- w.descs :: e != d && w.descs[e].file == w.descs[d].file ==> w.descs[e].lock.None?
  }

  /** An exclusive lock is the only lock of its file. */
  lemma ExclusiveIsSole(w: World, d: Id)
    requires TableConsistent(w) && d in w.descs && w.descs[d].lock == Some(Exclusive)
    ensures SoleLock(w, d)
  {
  }

  /** A step that leaves the sole lock of a file unlocked leaves the file free. */
  lemma SoleLockReleased(w: World, a: Step, d: Id)
    requires Enabled(w, a) && !a.Open? && !a.TryLock? && SoleLock(w, d)
    requires Effect(w, a, d).lock.None?
    ensures Free(Apply(w, a), w.descs[d].file)
  {
    var v := Apply(w, a);
    forall e | e in v.descs ensures v.descs[e].file == w.descs[d].file ==> v.descs[e].lock.None? {
      EffectOnLock(w, a, e);
    }
  }

  /** Closing the last intended copy of a transferred lock through the gate
      unlocks it at once, whatever other children are between fork and exec,
      and frees the file if nobody else shares it. */
  lemma GatedCloseFrees(worlds: seq<World>, steps: seq<Step>, i: nat)
    requires Run(worlds, steps) && i < |steps| && (steps[i].CloseTransferred? || steps[i].CloseGated?)
    requires !IntendedCopy(worlds[i + 1].descs[steps[i].desc])
    ensures worlds[i + 1].descs[steps[i].desc].lock.None?
    ensures SoleLock(worlds[i], steps[i].desc) || worlds[i].descs[steps[i].desc].lock == Some(Exclusive)
      ==> Free(worlds[i + 1], worlds[i].descs[steps[i].desc].file)
  {
    var w, a := worlds[i], steps[i];
    InvAlways(worlds, steps, i);
    EffectOk(w, a, a.desc);
    assert DescriptionOk(w.descs[a.desc], w.forks, w.crashed);
    if w.descs[a.desc].lock == Some(Exclusive) { ExclusiveIsSole(w, a.desc); }
    if SoleLock(w, a.desc) { SoleLockReleased(w, a, a.desc); }
  }

  /** Dropping a lock that was never transferred unlocks it at once: forked
      children still share the description, but it no longer carries a lock. */
  lemma UnlockFrees(worlds: seq<World>, steps: seq<Step>, i: nat)
    requires Run(worlds, steps) && i < |steps| && steps[i].Unlock?
    ensures worlds[i + 1].descs[steps[i].desc].lock.None?
    ensures SoleLock(worlds[i], steps[i].desc) || worlds[i].descs[steps[i].desc].lock == Some(Exclusive)
      ==> Free(worlds[i + 1], worlds[i].descs[steps[i].desc].file)
  {
    var w, a := worlds[i], steps[i];
    InvAlways(worlds, steps, i);
    if w.descs[a.desc].lock == Some(Exclusive) { ExclusiveIsSole(w, a.desc); }
    if SoleLock(w, a.desc) { SoleLockReleased(w, a, a.desc); }
  }

  lemma Then(worlds: seq<World>, steps: seq<Step>, a: Step) returns (ws: seq<World>, ss: seq<Step>)
    requires Run(worlds, steps) && Enabled(worlds[|steps|], a)
    ensures Run(ws, ss) && ss == steps + [a] && ws == worlds + [Apply(worlds[|steps|], a)] && ws[|ss|] == Apply(worlds[|steps|], a)
  {
    ws, ss := worlds + [Apply(worlds[|steps|], a)], steps + [a];
    forall i | 0 <= i < |ss| ensures Enabled(ws[i], ss[i]) && ws[i + 1] == Apply(ws[i], ss[i]) {
      assert i < |steps| ==> Enabled(worlds[i], steps[i]) && worlds[i + 1] == Apply(worlds[i], steps[i]);
    }
  }

  /** Without the gate the promise fails. In this run a process transfers a lock,
      drops its own copy and forks a child. The gate now keeps the transferred
      copy from closing; were it closed all the same, the file would stay locked
      although nobody is meant to hold it. */
  lemma UngatedCloseLeaks(file: LockName) returns (worlds: seq<World>, steps: seq<Step>)
    ensures Run(worlds, steps) && 1 in worlds[|steps|].descs && worlds[|steps|].descs[1].file == file
    ensures worlds[|steps|].descs[1].gated == {2} && !Enabled(worlds[|steps|], CloseGated(1, 2))
    ensures var closed := worlds[|steps|].descs[1].(gated := {}).Settle(); closed.lock == Some(Exclusive) && !IntendedCopy(closed)
  {
    worlds, steps := LockTaken(file);
    worlds, steps := LockCloned(worlds, steps, file);
    worlds, steps := Leaking(worlds, steps, file);
    assert 3 in worlds[|steps|].descs[1].forked;
  }

  /** A world with this one description and nothing else. */
  predicate OnlyDescription(w: World, x: Description) {
    w == World(map[1 := x], map[], {}, map[])
  }

  lemma LockTaken(file: LockName) returns (worlds: seq<World>, steps: seq<Step>)
    ensures Run(worlds, steps)
    ensures OnlyDescription(worlds[|steps|], Description(0, file, Some(Exclusive), Some(LockFile(Phase.Holding, false)), {}, map[], {}, {}, {}))
  {
    worlds, steps := [EmptyWorld], [];
    worlds, steps := Then(worlds, steps, Step.Open(1, 0, file));
    assert OnlyDescription(worlds[|steps|], Description(0, file, None, Some(LockFile(Opening, false)), {}, map[], {}, {}, {}));
    worlds, steps := Then(worlds, steps, TryLock(1, Exclusive));
    assert worlds[|steps|].descs.Keys == {1};
  }

  lemma LockCloned(before: seq<World>, done: seq<Step>, file: LockName) returns (worlds: seq<World>, steps: seq<Step>)
    requires Run(before, done)
    requires OnlyDescription(before[|done|], Description(0, file, Some(Exclusive), Some(LockFile(Phase.Holding, false)), {}, map[], {}, {}, {}))
    ensures Run(worlds, steps)
    ensures OnlyDescription(worlds[|steps|], Description(0, file, Some(Exclusive), Some(LockFile(Phase.Holding, true)), {2}, map[], {}, {}, {}))
  {
    worlds, steps := Then(before, done, MarkTransferred(1));
    assert OnlyDescription(worlds[|steps|], Description(0, file, Some(Exclusive), Some(LockFile(Phase.Holding, true)), {}, map[], {}, {}, {}));
    worlds, steps := Then(worlds, steps, Clone(1, 2));
    assert {} + {2} == {2} && worlds[|steps|].descs.Keys == {1};
  }

  lemma Leaking(before: seq<World>, done: seq<Step>, file: LockName) returns (worlds: seq<World>, steps: seq<Step>)
    requires Run(before, done)
    requires OnlyDescription(before[|done|], Description(0, file, Some(Exclusive), Some(LockFile(Phase.Holding, true)), {2}, map[], {}, {}, {}))
    ensures Run(worlds, steps) && worlds[|steps|].descs == map[1 := Description(0, file, Some(Exclusive), None, {2}, map[], {3}, {}, {})]
    ensures GateShared(worlds[|steps|], 0)
  {
    worlds, steps := Then(before, done, CloseTransferred(1));
    var x := Description(0, file, Some(Exclusive), None, {2}, map[], {}, {}, {});
    assert 2 in x.gated && x.Settle() == x;
    assert worlds[|steps|].descs[1] == x;
    assert worlds[|steps|].descs == map[1 := x];
    worlds, steps := Then(worlds, steps, ForkChild(3, 0, {}));
    assert x.forked + {3} == {3};
    assert worlds[|steps|].descs == map[1 := x.(forked := {3})];
    assert worlds[|steps|].forks[3] == 0;
  }
}
