/** Threads that run the guard library step by step over the lock kernel: every
    try-lock and every release is a step of its own, in any interleaving, so a
    thread may be overtaken between any two of them. */
module GuardThreads {
  import opened Results
  import opened LockNames
  import K = LockKernel

  datatype Thread = Thread(process: K.Process, number: nat)

  datatype Lock = Lock(file: LockName, mode: Mode)

  /** Where a thread is in the library, with the lock files it has then. `kept`
      is what it held when it began to ask for a root exclusively. */
  datatype Phase =
    | Resting
    | AwaitingRoot(root: Path, kept: map<K.Id, Lock>)                   // `exclusive_by` between attempts
    | HasRoot(root: Path, r: K.Id, kept: map<K.Id, Lock>)               // a RootGuard
    | Entered(root: Path, r: K.Id)                                      // shared root taken, project not yet
    | Owning(project: Project, r: K.Id, e: K.Id)                        // a ProjectGuard
    | Fencing(project: Project, r: K.Id, e: K.Id, x: Resource, f: K.Id) // and a fence under it
    | Routing(project: Project, r: K.Id, e: K.Id, q: K.Id)              // and the routine lock being transferred
    | Sharing(project: Project, r: K.Id, e: K.Id, more: map<K.Id, Lock>)// a ProjectSharedGuard, complete or not
    | Checking(project: Project, r: K.Id, x: Resource, f: K.Id)         // a CheckGuard
    | Widening(project: Project, r: K.Id)                               // `widen` between attempts
    | Reentering(project: Project, r: K.Id, s: K.Id)                    // an attempt: second shared root, project not yet
    | Swapping(project: Project, r: K.Id, s: K.Id, e: K.Id)             // project regained, first root not yet dropped
    | Leaving(rest: map<K.Id, Lock>)                                    // dropping what is left

  function Has(k: Phase): map<K.Id, Lock> {
    match k
    case Resting => map[]
    case AwaitingRoot(_, kept) => kept
    case HasRoot(root, r, kept) => kept[r := Lock(RootLock(root), Exclusive)]
    case Entered(root, r) => map[r := Lock(RootLock(root), Shared)]
    case Owning(p, r, e) => map[r := Lock(RootLock(p.root), Shared), e := Lock(EffectLock(p), Exclusive)]
    case Fencing(p, r, e, x, f) =>
      map[r := Lock(RootLock(p.root), Shared), e := Lock(EffectLock(p), Exclusive), f := Lock(FenceLock(p.root, x), Exclusive)]
    case Routing(p, r, e, q) =>
      map[r := Lock(RootLock(p.root), Shared), e := Lock(EffectLock(p), Exclusive), q := Lock(RoutineLock(p.root), Exclusive)]
    case Sharing(p, r, e, more) => more[r := Lock(RootLock(p.root), Shared)][e := Lock(EffectLock(p), Shared)]
    case Checking(p, r, x, f) => map[r := Lock(RootLock(p.root), Shared), f := Lock(FenceLock(p.root, x), Exclusive)]
    case Widening(p, r) => map[r := Lock(RootLock(p.root), Shared)]
    case Reentering(p, r, s) => map[r := Lock(RootLock(p.root), Shared), s := Lock(RootLock(p.root), Shared)]
    case Swapping(p, r, s, e) =>
      map[r := Lock(RootLock(p.root), Shared), s := Lock(RootLock(p.root), Shared), e := Lock(EffectLock(p), Exclusive)]
    case Leaving(rest) => rest
  }

  /** What the library locks next, and where that takes the thread. */
  function Taken(k: Phase, d: K.Id, l: Lock): Option<Phase> {
    match k
    case Resting =>
      if l.file.RootLock? then Some(if l.mode == Shared then Entered(l.file.root, d) else HasRoot(l.file.root, d, map[])) else None
    case AwaitingRoot(root, kept) => if l == Lock(RootLock(root), Exclusive) then Some(HasRoot(root, d, kept)) else None
    case Entered(root, r) =>
      if !l.file.EffectLock? || l.file.project.root != root then None
      else if l.mode == Exclusive then Some(Owning(l.file.project, r, d))
      else Some(Sharing(l.file.project, r, d, map[]))
    case Owning(p, r, e) =>
      if l.file.FenceLock? && l.file.fenceRoot == p.root && l.mode == Exclusive then Some(Fencing(p, r, e, l.file.resource, d))
      else if l == Lock(RoutineLock(p.root), Exclusive) then Some(Routing(p, r, e, d))
      else None
    case Sharing(p, r, e, more) =>
      if (l.file.FenceLock? && l.file.fenceRoot == p.root && l.mode == Exclusive) || l == Lock(RoutineLock(p.root), Shared)
      then Some(Sharing(p, r, e, more[d := l]))
      else None
    case Widening(p, r) => if l == Lock(RootLock(p.root), Shared) then Some(Reentering(p, r, d)) else None
    case Reentering(p, r, s) => if l == Lock(EffectLock(p), Exclusive) then Some(Swapping(p, r, s, d)) else None
    case _ => None
  }

  /** What the library gives up on its way: a fence or the routine copy under the
      project, the project to narrow, the fence to widen, a failed attempt's
      root, the first root once the project is regained. Everything else goes by
      dropping the guard. */
  function Dropped(k: Phase, d: K.Id): Option<Phase> {
    match k
    case Fencing(p, r, e, x, f) =>
      if d == f then Some(Owning(p, r, e)) else if d == e then Some(Checking(p, r, x, f)) else None
    case Routing(p, r, e, q) => if d == q then Some(Owning(p, r, e)) else None
    case Checking(p, r, _, f) => if d == f then Some(Widening(p, r)) else None
    case Reentering(p, r, s) => if d == s then Some(Widening(p, r)) else None
    case Swapping(p, r, s, e) => if d == r then Some(Owning(p, s, e)) else None
    case Leaving(rest) => if d in rest then Some(Leaving(rest - {d})) else None
    case _ => None
  }

  /** `opener` remembers which thread opened a description. */
  datatype World = World(kernel: K.World, opener: map<K.Id, Thread>, phases: map<Thread, Phase>)

  datatype Step =
    | Kernel(a: K.Step)                          // copies, forks, supervisors, crashes, guard bookkeeping
    | Open(t: Thread, d: K.Id, file: LockName)
    | Take(t: Thread, d: K.Id, mode: Mode)
    | Release(t: Thread, d: K.Id, gated: bool)   // unlock, or the gated close of a transferred lock
    | Await(t: Thread, root: Path)
    | Leave(t: Thread)                           // an error return, or the guard goes out of scope
    | Rest(t: Thread)

  function PhaseOf(w: World, t: Thread): Phase { if t in w.phases then w.phases[t] else Resting }

  predicate Alive(w: World, t: Thread) { t.process !in w.kernel.crashed }

  function KernelStep(s: Step): K.Step
    requires s.Kernel? || s.Open? || s.Take? || s.Release?
  {
    match s
    case Kernel(a) => a
    case Open(t, d, file) => K.Open(d, t.process, file)
    case Take(_, d, mode) => K.TryLock(d, mode)
    case Release(_, d, gated) => if gated then K.CloseTransferred(d) else K.Unlock(d)
  }

  predicate Mine(w: World, t: Thread, d: K.Id) { d in w.opener && w.opener[d] == t && d in w.kernel.descs }

  predicate Enabled(w: World, s: Step) {
    match s
    case Kernel(a) => K.Enabled(w.kernel, a) && !a.Open? && !a.TryLock? && !a.Unlock? && !a.CloseTransferred?
    case Open(_, d, _) => K.Enabled(w.kernel, KernelStep(s)) && d !in w.opener
    case Take(t, d, mode) =>
      && Alive(w, t) && Mine(w, t, d) && K.Enabled(w.kernel, KernelStep(s))
      && Taken(PhaseOf(w, t), d, Lock(w.kernel.descs[d].file, mode)).Some?
    case Release(t, d, _) => Alive(w, t) && Mine(w, t, d) && K.Enabled(w.kernel, KernelStep(s)) && Dropped(PhaseOf(w, t), d).Some?
    case Await(t, _) => Alive(w, t)
    case Leave(t) => Alive(w, t)
    case Rest(t) => Alive(w, t) && PhaseOf(w, t) == Leaving(map[])
  }

  function Apply(w: World, s: Step): World
    requires Enabled(w, s)
  {
    match s
    case Kernel(a) => w.(kernel := K.Apply(w.kernel, a))
    case Open(t, d, _) => w.(kernel := K.Apply(w.kernel, KernelStep(s)), opener := w.opener[d := t])
    case Take(t, d, mode) =>
      w.(kernel := K.Apply(w.kernel, KernelStep(s)),
         phases := w.phases[t := Taken(PhaseOf(w, t), d, Lock(w.kernel.descs[d].file, mode)).value])
    case Release(t, d, _) =>
      w.(kernel := K.Apply(w.kernel, KernelStep(s)), phases := w.phases[t := Dropped(PhaseOf(w, t), d).value])
    case Await(t, root) => w.(phases := w.phases[t := AwaitingRoot(root, Has(PhaseOf(w, t)))])
    case Leave(t) => w.(phases := w.phases[t := Leaving(Has(PhaseOf(w, t)))])
    case Rest(t) => w.(phases := w.phases[t := Resting])
  }

  predicate Follows(w: World, s: Step, v: World) { Enabled(w, s) && v == Apply(w, s) }

  ghost predicate Run(worlds: seq<World>, steps: seq<Step>) {
    && |worlds| == |steps| + 1 && worlds[0] == World(K.EmptyWorld, map[], map[])
    && forall i {:trigger steps[i]} :: 0 <= i < |steps| ==> Follows(worlds[i], steps[i], worlds[i + 1])
  }

  // ---------------------------------------------------------------- what a thread holds

  /** A lock this thread holds in the kernel's own table. */
  predicate Holding(w: World, t: Thread, d: K.Id) { Mine(w, t, d) && w.kernel.descs[d].Holding() }

  /** Nothing is held but what the phase says. */
  ghost predicate NoMore(w: World, t: Thread) {
    forall d :: Holding(w, t, d) ==> d in Has(PhaseOf(w, t))
  }

  /** Everything the phase says is held, as it says, while the process lives. */
  ghost predicate NoLess(w: World, t: Thread) {
    Alive(w, t) ==> forall d :: d in Has(PhaseOf(w, t)) ==> HeldAs(w, t, d, Has(PhaseOf(w, t))[d])
  }

  predicate HeldAs(w: World, t: Thread, d: K.Id, l: Lock) {
    Mine(w, t, d) && w.kernel.descs[d].process == t.process && K.Holds(w.kernel, d, l.file, l.mode)
  }

  /** A thread's descriptions belong to its process, and a dead process has none. */
  ghost predicate OwnProcess(w: World) {
    forall d :: d in w.opener ==> d in w.kernel.descs && w.kernel.descs[d].process == w.opener[d].process
  }

  /** The lock files a phase names are different ones. */
  predicate Apart(k: Phase) {
    match k
    case HasRoot(_, r, kept) => r !in kept
    case Owning(_, r, e) => r != e
    case Fencing(_, r, e, _, f) => r != e && r != f && e != f
    case Routing(_, r, e, q) => r != e && r != q && e != q
    case Sharing(_, r, e, more) => r != e && r !in more && e !in more
    case Checking(_, r, _, f) => r != f
    case Reentering(_, r, s) => r != s
    case Swapping(_, r, s, e) => r != s && r != e && s != e
    case _ => true
  }

  ghost predicate ThreadOk(w: World, t: Thread) {
    Apart(PhaseOf(w, t)) && NoMore(w, t) && NoLess(w, t)
  }

  ghost predicate Inv(w: World) {
    K.Inv(w.kernel) && OwnProcess(w) && forall t: Thread :: ThreadOk(w, t)
  }

  lemma AfterTaking(k: Phase, d: K.Id, l: Lock)
    requires Taken(k, d, l).Some? && d !in Has(k) && Apart(k)
    ensures Has(Taken(k, d, l).value) == Has(k)[d := l] && Apart(Taken(k, d, l).value)
  {
  }

  lemma AfterDropping(k: Phase, d: K.Id)
    requires Dropped(k, d).Some? && Apart(k)
    ensures d in Has(k) && Has(Dropped(k, d).value) == Has(k) - {d} && Apart(Dropped(k, d).value)
  {
  }

  // ---------------------------------------------------------------- one step

  /** Only a try-lock makes a lock file hold, and only a release or a crash ends it. */
  lemma HoldingChanges(w: K.World, a: K.Step, d: K.Id)
    requires K.Enabled(w, a) && d in w.descs
    ensures d in K.Apply(w, a).descs && K.Apply(w, a).descs[d].process == w.descs[d].process
    ensures K.Apply(w, a).descs[d].Holding() && !(a.TryLock? && a.desc == d) ==> w.descs[d].Holding()
    ensures (a.Unlock? || a.CloseTransferred?) && a.desc == d ==> !K.Apply(w, a).descs[d].Holding()
  {
    assert K.Apply(w, a).descs[d] == K.Effect(w, a, d);
  }

  lemma KernelSide(w: World, s: Step)
    requires Inv(w) && Enabled(w, s)
    ensures K.Inv(Apply(w, s).kernel) && OwnProcess(Apply(w, s))
  {
    if s.Kernel? || s.Open? || s.Take? || s.Release? {
      var a := KernelStep(s);
      K.InvKept(w.kernel, a);
      forall d | d in w.opener ensures d in Apply(w, s).kernel.descs && Apply(w, s).kernel.descs[d].process == w.opener[d].process {
        HoldingChanges(w.kernel, a, d);
      }
    }
  }

  /** A lock file about to be taken is not one the thread has. */
  lemma TakeIsNew(w: World, s: Step)
    requires Inv(w) && Enabled(w, s) && s.Take?
    ensures s.d !in Has(PhaseOf(w, s.t))
  {
    assert ThreadOk(w, s.t);
    assert s.d in Has(PhaseOf(w, s.t)) ==> HeldAs(w, s.t, s.d, Has(PhaseOf(w, s.t))[s.d]);
  }

  /** What the thread's phase names after a step, from what it named before. */
  lemma HasChanges(w: World, s: Step, t: Thread)
    requires Inv(w) && Enabled(w, s)
    ensures Apart(PhaseOf(Apply(w, s), t))
    ensures Has(PhaseOf(Apply(w, s), t)) ==
            if s.Take? && s.t == t then Has(PhaseOf(w, t))[s.d := Lock(w.kernel.descs[s.d].file, s.mode)]
            else if s.Release? && s.t == t then Has(PhaseOf(w, t)) - {s.d}
            else Has(PhaseOf(w, t))
  {
    assert ThreadOk(w, t);
    if s.Take? && s.t == t {
      TakeIsNew(w, s);
      AfterTaking(PhaseOf(w, t), s.d, Lock(w.kernel.descs[s.d].file, s.mode));
    } else if s.Release? && s.t == t {
      AfterDropping(PhaseOf(w, t), s.d);
    }
  }

  /** A thread comes to hold a lock file only by taking it. */
  lemma HoldingBefore(w: World, s: Step, t: Thread, d: K.Id)
    requires Inv(w) && Enabled(w, s) && Holding(Apply(w, s), t, d)
    ensures Holding(w, t, d) || (s.Take? && s.t == t && s.d == d)
    ensures s.Release? ==> d != s.d
  {
    if s.Kernel? || s.Open? || s.Take? || s.Release? {
      if d in w.kernel.descs { HoldingChanges(w.kernel, KernelStep(s), d); }
    }
  }

  lemma NoMoreKept(w: World, s: Step, t: Thread)
    requires Inv(w) && Enabled(w, s)
    ensures NoMore(Apply(w, s), t)
  {
    assert ThreadOk(w, t);
    HasChanges(w, s, t);
    forall d | Holding(Apply(w, s), t, d) ensures d in Has(PhaseOf(Apply(w, s), t)) {
      HoldingBefore(w, s, t, d);
    }
  }

  /** A held lock stays held through every step but its own release and the crash of its process. */
  lemma HeldStays(w: World, s: Step, t: Thread, d: K.Id, l: Lock)
    requires Inv(w) && Enabled(w, s) && HeldAs(w, t, d, l) && Alive(Apply(w, s), t) && (s.Release? ==> s.d != d)
    ensures HeldAs(Apply(w, s), t, d, l)
  {
    if s.Kernel? || s.Open? || s.Take? || s.Release? {
      HoldingChanges(w.kernel, KernelStep(s), d);
      K.HandleKept(w.kernel, KernelStep(s), d, l.file, l.mode);
    }
  }

  lemma TakenIsHeld(w: World, s: Step)
    requires Inv(w) && Enabled(w, s) && s.Take?
    ensures HeldAs(Apply(w, s), s.t, s.d, Lock(w.kernel.descs[s.d].file, s.mode))
  {
    assert Apply(w, s).kernel.descs[s.d] == K.Effect(w.kernel, KernelStep(s), s.d);
  }

  /** Nobody releases another thread's lock. */
  lemma ReleaseIsOwn(w: World, s: Step, t: Thread, d: K.Id)
    requires Inv(w) && Enabled(w, s) && s.Release? && s.d == d && Mine(w, t, d)
    ensures s.t == t
  {
  }

  lemma NoLessKept(w: World, s: Step, t: Thread)
    requires Inv(w) && Enabled(w, s)
    ensures NoLess(Apply(w, s), t)
  {
    var v := Apply(w, s);
    assert ThreadOk(w, t);
    HasChanges(w, s, t);
    if Alive(v, t) {
      assert Alive(w, t);
      forall d | d in Has(PhaseOf(v, t)) ensures HeldAs(v, t, d, Has(PhaseOf(v, t))[d]) {
        if s.Take? && s.t == t && s.d == d {
          TakenIsHeld(w, s);
        } else {
          assert HeldAs(w, t, d, Has(PhaseOf(w, t))[d]);
          HeldStays(w, s, t, d, Has(PhaseOf(w, t))[d]);
        }
      }
    }
  }

  lemma InvKept(w: World, s: Step)
    requires Inv(w) && Enabled(w, s)
    ensures Inv(Apply(w, s))
  {
    KernelSide(w, s);
    forall t: Thread ensures ThreadOk(Apply(w, s), t) {
      HasChanges(w, s, t);
      NoMoreKept(w, s, t);
      NoLessKept(w, s, t);
    }
  }

  lemma {:induction false} InvAlways(worlds: seq<World>, steps: seq<Step>, i: nat)
    requires Run(worlds, steps) && i < |worlds|
    ensures Inv(worlds[i])
  {
    if i > 0 {
      InvAlways(worlds, steps, i - 1);
      assert Follows(worlds[i - 1], steps[i - 1], worlds[i]);
      InvKept(worlds[i - 1], steps[i - 1]);
    }
  }

  // ---------------------------------------------------------------- theorems

  /** Over every interleaving a thread holds exactly the locks of its phase, in
      the modes of its phase. In particular a failed acquisition, once it has
      dropped what it took, leaves nothing, whatever ran in between. */
  lemma HoldsExactly(worlds: seq<World>, steps: seq<Step>, i: nat, t: Thread, d: K.Id)
    requires Run(worlds, steps) && i < |worlds| && Alive(worlds[i], t)
    ensures Holding(worlds[i], t, d) <==> d in Has(PhaseOf(worlds[i], t))
    ensures d in Has(PhaseOf(worlds[i], t)) ==> HeldAs(worlds[i], t, d, Has(PhaseOf(worlds[i], t))[d])
  {
    InvAlways(worlds, steps, i);
    assert ThreadOk(worlds[i], t);
    assert d in Has(PhaseOf(worlds[i], t)) ==> HeldAs(worlds[i], t, d, Has(PhaseOf(worlds[i], t))[d]);
  }

  /** From narrowing until the project is regained, nobody has the root exclusively. */
  lemma RootStaysShared(worlds: seq<World>, steps: seq<Step>, i: nat, t: Thread, d: K.Id)
    requires Run(worlds, steps) && i < |worlds| && Alive(worlds[i], t)
    requires var k := PhaseOf(worlds[i], t); k.Checking? || k.Widening? || k.Reentering? || k.Swapping?
    ensures !K.Holds(worlds[i].kernel, d, RootLock(PhaseOf(worlds[i], t).project.root), Exclusive)
  {
    var k := PhaseOf(worlds[i], t);
    InvAlways(worlds, steps, i);
    assert ThreadOk(worlds[i], t) && k.r in Has(k);
    assert HeldAs(worlds[i], t, k.r, Has(k)[k.r]);
    if K.Holds(worlds[i].kernel, d, RootLock(k.project.root), Exclusive) {
      K.TwoHolders(worlds[i].kernel, k.r, d, RootLock(k.project.root), Shared, Exclusive);
    }
  }

  /** What the two retry loops are after. */
  function Wanted(k: Phase): Option<Lock> {
    match k
    case AwaitingRoot(root, _) => Some(Lock(RootLock(root), Exclusive))
    case Widening(p, _) => Some(Lock(EffectLock(p), Exclusive))
    case Reentering(p, _, _) => Some(Lock(EffectLock(p), Exclusive))
    case _ => None
  }

  /** One thread is held up by a lock another one holds in the kernel's table. */
  ghost predicate WaitsFor(w: World, a: Thread, b: Thread) {
    Wanted(PhaseOf(w, a)).Some? && exists d :: Blocks(w, b, d, Wanted(PhaseOf(w, a)).value)
  }

  predicate Blocks(w: World, b: Thread, d: K.Id, l: Lock) {
    Holding(w, b, d) && w.kernel.descs[d].file == l.file && w.kernel.descs[d].lock.Some? && !Compatible(w.kernel.descs[d].lock.value, l.mode)
  }

  /** What the library asks of its callers: never to take an exclusive root guard
      while holding a guard. */
  predicate Disciplined(w: World, s: Step) {
    s.Await? ==> PhaseOf(w, s.t) == Resting
  }

  ghost predicate DisciplinedRun(worlds: seq<World>, steps: seq<Step>) {
    Run(worlds, steps) && forall i {:trigger steps[i]} :: 0 <= i < |steps| ==> Disciplined(worlds[i], steps[i])
  }

  /** Disciplined threads wait for a root with empty hands. */
  lemma {:induction false} RootAwaitedEmptyHanded(worlds: seq<World>, steps: seq<Step>, i: nat, t: Thread)
    requires DisciplinedRun(worlds, steps) && i < |worlds|
    ensures PhaseOf(worlds[i], t).AwaitingRoot? ==> PhaseOf(worlds[i], t).kept == map[]
  {
    if i > 0 {
      RootAwaitedEmptyHanded(worlds, steps, i - 1, t);
      assert Follows(worlds[i - 1], steps[i - 1], worlds[i]) && Disciplined(worlds[i - 1], steps[i - 1]);
    }
  }

  /** Whoever holds up a widening thread is waiting for nothing; whoever holds up
      a thread that wants the root may at most be widening under it. */
  lemma WaitersRest(worlds: seq<World>, steps: seq<Step>, i: nat, a: Thread, b: Thread)
    requires DisciplinedRun(worlds, steps) && i < |worlds| && WaitsFor(worlds[i], a, b)
    ensures a != b
    ensures !PhaseOf(worlds[i], a).AwaitingRoot? ==> Wanted(PhaseOf(worlds[i], b)).None?
    ensures !PhaseOf(worlds[i], b).AwaitingRoot?
  {
    var w := worlds[i];
    InvAlways(worlds, steps, i);
    RootAwaitedEmptyHanded(worlds, steps, i, b);
    var d :| Blocks(w, b, d, Wanted(PhaseOf(w, a)).value);
    assert ThreadOk(w, b);
    assert w.kernel.descs[d].process == b.process;
    assert K.DescriptionOk(w.kernel.descs[d], w.kernel.forks, w.kernel.crashed);
    assert Alive(w, b);
    assert HeldAs(w, b, d, Has(PhaseOf(w, b))[d]);
  }

  ghost predicate WaitingChain(w: World, chain: seq<Thread>) {
    forall i {:trigger chain[i]} :: 0 <= i < |chain| - 1 ==> WaitsFor(w, chain[i], chain[i + 1])
  }

  /** At no moment of any disciplined run do waiting threads form a cycle: a chain
      has at most two waits, and the thread at its end is not the one at its start. */
  lemma NoDeadlock(worlds: seq<World>, steps: seq<Step>, i: nat, chain: seq<Thread>)
    requires DisciplinedRun(worlds, steps) && i < |worlds| && |chain| > 1 && WaitingChain(worlds[i], chain)
    ensures |chain| <= 3 && chain[0] != chain[|chain| - 1]
  {
    var w := worlds[i];
    assert |chain| > 3 ==> WaitsFor(w, chain[2], chain[3]);
    assert WaitsFor(w, chain[0], chain[1]);
    WaitersRest(worlds, steps, i, chain[0], chain[1]);
    if |chain| > 2 {
      assert WaitsFor(w, chain[1], chain[2]);
      WaitersRest(worlds, steps, i, chain[1], chain[2]);
    }
  }

  lemma Then(worlds: seq<World>, steps: seq<Step>, s: Step) returns (ws: seq<World>, ss: seq<Step>)
    requires Run(worlds, steps) && Enabled(worlds[|steps|], s)
    ensures Run(ws, ss) && ss == steps + [s] && ws == worlds + [Apply(worlds[|steps|], s)] && ws[|ss|] == Apply(worlds[|steps|], s)
  {
    ws, ss := worlds + [Apply(worlds[|steps|], s)], steps + [s];
    forall i | 0 <= i < |ss| ensures Follows(ws[i], ss[i], ws[i + 1]) {
      if i < |steps| { assert Follows(worlds[i], steps[i], worlds[i + 1]); }
    }
  }

  /** A caller that breaks the rule: it shares the root, asks for it exclusively
      and waits for itself. */
  lemma DeadlockWithoutDiscipline(root: Path, t: Thread) returns (worlds: seq<World>, steps: seq<Step>)
    ensures Run(worlds, steps) && WaitsFor(worlds[|steps|], t, t)
  {
    worlds, steps := [World(K.EmptyWorld, map[], map[])], [];
    worlds, steps := Then(worlds, steps, Open(t, 1, RootLock(root)));
    worlds, steps := Then(worlds, steps, Take(t, 1, Shared));
    worlds, steps := Then(worlds, steps, Await(t, root));
    var w := worlds[|steps|];
    assert w.kernel.descs[1].lock == Some(Shared) && Blocks(w, t, 1, Lock(RootLock(root), Exclusive));
  }

  // ---------------------------------------------------------------- a whole cycle

  function Opened(t: Thread, file: LockName, mode: Mode): K.Description {
    K.Description(t.process, file, Some(mode), Some(K.LockFile(K.Phase.Holding, false)), {}, map[], {}, {}, {})
  }

  /** A thread opens a lock file and takes it, wherever a run left the library
      asking for it and nobody in the way. */
  lemma Grab(before: seq<World>, done: seq<Step>, t: Thread, d: K.Id, file: LockName, mode: Mode) returns (worlds: seq<World>, steps: seq<Step>)
    requires Run(before, done) && Alive(before[|done|], t) && d !in before[|done|].opener && d !in before[|done|].kernel.descs
    requires Taken(PhaseOf(before[|done|], t), d, Lock(file, mode)).Some?
    requires forall x :: x in before[|done|].kernel.descs && before[|done|].kernel.descs[x].file == file && before[|done|].kernel.descs[x].lock.Some? ==>
               Compatible(before[|done|].kernel.descs[x].lock.value, mode)
    ensures Run(worlds, steps) && steps == done + [Open(t, d, file), Take(t, d, mode)] && before <= worlds
    ensures var w, v := before[|done|], worlds[|steps|];
            && v.kernel == w.kernel.(descs := w.kernel.descs[d := Opened(t, file, mode)]) && v.opener == w.opener[d := t]
            && v.phases == w.phases[t := Taken(PhaseOf(w, t), d, Lock(file, mode)).value]
  {
    var w := before[|done|];
    worlds, steps := Then(before, done, Open(t, d, file));
    var untaken := K.Description(t.process, file, None, Some(K.LockFile(K.Opening, false)), {}, map[], {}, {}, {});
    assert worlds[|steps|].kernel.descs == w.kernel.descs[d := untaken];
    worlds, steps := Then(worlds, steps, Take(t, d, mode));
    assert worlds[|steps|].kernel.descs == w.kernel.descs[d := Opened(t, file, mode)];
  }

  /** It gives one up again. */
  lemma Drop(before: seq<World>, done: seq<Step>, t: Thread, d: K.Id) returns (worlds: seq<World>, steps: seq<Step>)
    requires Run(before, done) && Alive(before[|done|], t) && Mine(before[|done|], t, d) && before[|done|].kernel.guards == map[]
    requires before[|done|].kernel.descs[d].Holding() && !before[|done|].kernel.descs[d].owner.value.transferred
    requires Dropped(PhaseOf(before[|done|], t), d).Some?
    ensures Run(worlds, steps) && steps == done + [Release(t, d, false)] && before <= worlds
    ensures var w, v := before[|done|], worlds[|steps|];
            && d in v.kernel.descs && v.kernel.descs[d].lock.None? && v.kernel == w.kernel.(descs := w.kernel.descs[d := v.kernel.descs[d]])
            && v.opener == w.opener && v.phases == w.phases[t := Dropped(PhaseOf(w, t), d).value]
  {
    var w := before[|done|];
    worlds, steps := Then(before, done, Release(t, d, false));
    assert worlds[|steps|].kernel.descs == w.kernel.descs[d := worlds[|steps|].kernel.descs[d]];
  }

  /** Up to the fence under the project. */
  lemma Fenced(t: Thread, p: Project, x: Resource) returns (worlds: seq<World>, steps: seq<Step>)
    ensures Run(worlds, steps) && worlds[|steps|].phases == map[t := Fencing(p, 1, 2, x, 3)] && worlds[|steps|].opener == map[1 := t, 2 := t, 3 := t]
    ensures worlds[|steps|].kernel == K.EmptyWorld.(descs := map[
              1 := Opened(t, RootLock(p.root), Shared), 2 := Opened(t, EffectLock(p), Exclusive), 3 := Opened(t, FenceLock(p.root, x), Exclusive)])
  {
    worlds, steps := [World(K.EmptyWorld, map[], map[])], [];
    worlds, steps := Grab(worlds, steps, t, 1, RootLock(p.root), Shared);
    worlds, steps := Grab(worlds, steps, t, 2, EffectLock(p), Exclusive);
    worlds, steps := Grab(worlds, steps, t, 3, FenceLock(p.root, x), Exclusive);
  }

  /** The whole cycle of a check: a thread takes the project and a fence, narrows
      to the fence, gives that up too and regains the project. */
  lemma NarrowAndRegain(t: Thread, p: Project, x: Resource) returns (worlds: seq<World>, steps: seq<Step>, narrowed: nat)
    ensures Run(worlds, steps) && PhaseOf(worlds[|steps|], t) == Owning(p, 4, 5)
    ensures narrowed < |worlds| && PhaseOf(worlds[narrowed], t) == Checking(p, 1, x, 3)
  {
    worlds, steps := Fenced(t, p, x);
    worlds, steps := Drop(worlds, steps, t, 2);
    narrowed := |steps|;
    worlds, steps := Regained(worlds, steps, t, p, x);
  }

  lemma Regained(before: seq<World>, done: seq<Step>, t: Thread, p: Project, x: Resource) returns (worlds: seq<World>, steps: seq<Step>)
    requires Run(before, done) && before[|done|].phases == map[t := Checking(p, 1, x, 3)] && before[|done|].opener == map[1 := t, 2 := t, 3 := t]
    requires before[|done|].kernel.guards == map[] && before[|done|].kernel.crashed == {} && before[|done|].kernel.descs.Keys == {1, 2, 3}
    requires before[|done|].kernel.descs[1] == Opened(t, RootLock(p.root), Shared) && before[|done|].kernel.descs[2].lock.None?
    requires before[|done|].kernel.descs[3] == Opened(t, FenceLock(p.root, x), Exclusive)
    ensures Run(worlds, steps) && before <= worlds && PhaseOf(worlds[|steps|], t) == Owning(p, 4, 5)
  {
    worlds, steps := Drop(before, done, t, 3);
    worlds, steps := Grab(worlds, steps, t, 4, RootLock(p.root), Shared);
    worlds, steps := Grab(worlds, steps, t, 5, EffectLock(p), Exclusive);
    worlds, steps := Drop(worlds, steps, t, 1);
  }
}
