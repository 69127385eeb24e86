/** Worker capacity: reservations made optimistically against an event head,
    and given back only on proof that no worker process can exist. */
module Capacity {
  import opened Results
  import RC = ResourceClaims

  type Task = string
  type Id = nat
  type Admitter = nat

  /** How far the launch operation of an attempt got. An adopted worker has none;
      a closed one is over, by an outcome or because an operator retired it. */
  datatype Launch = NoLaunch | Unclaimed | Claimed | Closed

  /** `declared` is what its contract claimed when the attempt began, and
      `claims` what the overlap check reads for it: for an adopted worker nothing.
      `sealedTask` and `sealedBinding` are the revisions its inputs were sealed
      at. `preparing` and `launching` stand for the worktree-creation and
      launch-creation events, `target` for the recorded supervisor. */
  datatype Attempt = Attempt(
    task: Task, adopted: bool, declared: set<RC.Claim>, claims: set<RC.Claim>, sealedTask: nat, sealedBinding: nat,
    cancelled: bool, terminated: bool, launch: Launch, preparing: bool, launching: bool, target: bool)

  /** Every event written raises the head. Each task and its runtime binding has a revision. */
  datatype Store = Store(
    head: nat, limit: nat, active: bool, contracts: map<Task, set<RC.Claim>>,
    tasks: map<Task, nat>, bindings: map<Task, nat>, attempts: map<Id, Attempt>)

  /** Who holds the root exclusively: a launcher between its intent and its
      return, or a reconciler between its observation and its commit. */
  datatype Root =
    | Free
    | Launcher(id: Id)
    | Preparer(id: Id)
    | ExitSeen(id: Id, seenHead: nat)
    | QuietSeen(id: Id, seenHead: nat)

  /** `spawned` and `live` describe the machine, not the store. */
  datatype World = World(store: Store, root: Root, spawned: set<Id>, live: set<Id>, views: map<Admitter, Store>)

  datatype Step =
    | ReadHead(admitter: Admitter)
    | Reserve(admitter: Admitter, id: Id, task: Task)
    | Adopt(id: Id, task: Task)
    | SetLimit(limit: nat)
    | SetActive(active: bool)
    | InstallContract(task: Task, claims: set<RC.Claim>)
    | EditTask(task: Task)
    | Rebind(task: Task)
    | Cancel(id: Id)
    | RetireLaunch(id: Id)
    | Prepare(id: Id)
    | BeginLaunch(id: Id)
    | Spawn
    | RecordTarget
    | ReleaseRoot
    | ProcessExits(id: Id)
    | ObserveExit(id: Id)
    | ObserveQuiet(id: Id)
    | CommitTermination

  function Retained(s: Store): set<Id> { set id <- s.attempts | !s.attempts[id].terminated }

  function ClaimsFor(s: Store, task: Task): set<RC.Claim> {
    if task in s.contracts then s.contracts[task] else {}
  }

  function Revision(m: map<Task, nat>, task: Task): nat { if task in m then m[task] else 0 }

  function Bump(m: map<Task, nat>, task: Task): map<Task, nat> { m[task := Revision(m, task) + 1] }

  predicate Clash(a: set<RC.Claim>, b: set<RC.Claim>) {
    exists x, y :: x in a && y in b && RC.Conflict(x, y)
  }

  predicate TaskRetained(s: Store, task: Task) {
    exists id <- s.attempts :: !s.attempts[id].terminated && s.attempts[id].task == task
  }

  /** Another task's retained attempt clashes with this task's current claims. */
  predicate Overlaps(s: Store, task: Task) {
    exists id <- s.attempts :: !s.attempts[id].terminated && s.attempts[id].task != task && Clash(ClaimsFor(s, task), s.attempts[id].claims)
  }

  /** What the reservation transaction checks again. */
  predicate Admissible(s: Store, task: Task) {
    s.active && |Retained(s)| < s.limit && !TaskRetained(s, task) && !Overlaps(s, task)
  }

  predicate Retains(s: Store, id: Id) { id in s.attempts && !s.attempts[id].terminated }

  /** An attempt's task is still at the revision it was sealed for. */
  predicate Current(s: Store, a: Attempt) { Revision(s.tasks, a.task) == a.sealedTask }

  /** Everything a cancellation asks for before it frees an attempt: it was
      reserved, its launch is untouched, its task and binding have not moved, and
      its task has no other retained attempt and no other open launch. */
  predicate MayFree(s: Store, id: Id)
    requires id in s.attempts
  {
    var a := s.attempts[id];
    && !a.adopted && a.launch == Unclaimed && Current(s, a) && Revision(s.bindings, a.task) == a.sealedBinding
    && (forall other :: other in s.attempts && other != id && s.attempts[other].task == a.task ==>
          s.attempts[other].terminated && (s.attempts[other].launch == Closed || s.attempts[other].launch == NoLaunch))
  }

  predicate Enabled(w: World, step: Step) {
    var s := w.store;
    match step
    case ReadHead(_) => true
    case Reserve(a, id, task) => a in w.views && w.views[a].head == s.head && id !in s.attempts && Admissible(s, task)
    case Adopt(id, task) => w.root.Free? && id !in s.attempts && !TaskRetained(s, task)
    case SetLimit(_) => true
    case SetActive(_) => true
    case InstallContract(_, _) => true
    case EditTask(task) => !TaskRetained(s, task)
    case Rebind(task) => !TaskRetained(s, task)
    case Cancel(id) => Retains(s, id) && !s.attempts[id].cancelled
    case RetireLaunch(id) => w.root.Free? && Retains(s, id) && (s.attempts[id].launch == Unclaimed || s.attempts[id].launch == Claimed)
    case Prepare(id) => w.root.Free? && Retains(s, id) && s.attempts[id].launch == Unclaimed && Current(s, s.attempts[id])
    case BeginLaunch(id) =>
      && w.root.Free? && Retains(s, id) && !s.attempts[id].launching
      && ((s.attempts[id].launch == Unclaimed && Current(s, s.attempts[id])) || (s.attempts[id].launch == Claimed && s.attempts[id].preparing))
    case Spawn => w.root.Launcher? && w.root.id !in w.spawned
    case RecordTarget => w.root.Launcher? && w.root.id in w.spawned && Retains(s, w.root.id)
    case ReleaseRoot => true
    case ProcessExits(id) => id in w.live
    case ObserveExit(id) => w.root.Free? && Retains(s, id) && s.attempts[id].target && id !in w.live
    case ObserveQuiet(id) => w.root.Free? && Retains(s, id) && s.attempts[id].preparing && !s.attempts[id].launching
    case CommitTermination => (w.root.ExitSeen? || w.root.QuietSeen?) && w.root.seenHead == s.head && Retains(s, w.root.id)
  }

  function Put(s: Store, id: Id, a: Attempt): Store {
    s.(head := s.head + 1, attempts := s.attempts[id := a])
  }

  /** The transaction also moves the attempt's task on. */
  function PutMoving(s: Store, id: Id, a: Attempt): Store {
    Put(s, id, a).(tasks := Bump(s.tasks, a.task))
  }

  function Cancelled(s: Store, id: Id): Attempt
    requires id in s.attempts
  {
    if MayFree(s, id) then s.attempts[id].(cancelled := true, terminated := true, launch := Closed)
    else s.attempts[id].(cancelled := true)
  }

  /** A reservation seals its task one revision on, at which it leaves it. */
  function Reserved(s: Store, task: Task): Attempt {
    Attempt(task, false, ClaimsFor(s, task), ClaimsFor(s, task), Revision(s.tasks, task) + 1, Revision(s.bindings, task),
            false, false, Unclaimed, false, false, false)
  }

  /** Adoption compares no limit and no claims. */
  function Adopted(s: Store, task: Task): Attempt {
    Attempt(task, true, ClaimsFor(s, task), {}, Revision(s.tasks, task) + 1, Revision(s.bindings, task),
            false, false, NoLaunch, false, false, false)
  }

  function Apply(w: World, step: Step): World
    requires Enabled(w, step)
  {
    var s := w.store;
    match step
    case ReadHead(a) => w.(views := w.views[a := s])
    case Reserve(a, id, task) => w.(store := PutMoving(s, id, Reserved(s, task)))
    case Adopt(id, task) =>
      w.(store := PutMoving(s, id, Adopted(s, task)).(active := false), spawned := w.spawned + {id}, live := w.live + {id})
    case SetLimit(limit) => w.(store := s.(head := s.head + 1, limit := limit))
    case SetActive(active) => w.(store := s.(head := s.head + 1, active := active))
    case InstallContract(task, claims) => w.(store := s.(head := s.head + 1, contracts := s.contracts[task := claims]))
    case EditTask(task) => w.(store := s.(head := s.head + 1, tasks := Bump(s.tasks, task)))
    case Rebind(task) => w.(store := s.(head := s.head + 1, tasks := Bump(s.tasks, task), bindings := Bump(s.bindings, task)))
    case Cancel(id) => w.(store := PutMoving(s, id, Cancelled(s, id)))
    case RetireLaunch(id) => w.(store := Put(s, id, s.attempts[id].(launch := Closed)))
    case Prepare(id) => w.(store := Put(s, id, s.attempts[id].(launch := Claimed, preparing := true)), root := Preparer(id))
    case BeginLaunch(id) => w.(store := Put(s, id, s.attempts[id].(launch := Claimed, launching := true)), root := Launcher(id))
    case Spawn => w.(spawned := w.spawned + {w.root.id}, live := w.live + {w.root.id})
    case RecordTarget =>
      var a := s.attempts[w.root.id];
      w.(store := Put(s, w.root.id, a.(target := true)).(bindings := Bump(s.bindings, a.task)))
    case ReleaseRoot => w.(root := Free)
    case ProcessExits(id) => w.(live := w.live - {id})
    case ObserveExit(id) => w.(root := ExitSeen(id, s.head))
    case ObserveQuiet(id) => w.(root := QuietSeen(id, s.head))
    case CommitTermination => w.(store := PutMoving(s, w.root.id, s.attempts[w.root.id].(terminated := true, launch := Closed)), root := Free)
  }

  // ---------------------------------------------------------------- invariant

  predicate AttemptOk(w: World, id: Id)
    requires id in w.store.attempts
  {
    var a := w.store.attempts[id];
    && (id in w.live ==> id in w.spawned)
    && (id in w.spawned ==> a.launching || a.adopted)
    && (a.launching || a.preparing ==> a.launch == Claimed || a.launch == Closed)
    && (a.target ==> id in w.spawned && a.launching)
    && (a.terminated ==> id !in w.live && (id in w.spawned || !a.launching) && a.launch == Closed)
    && (a.adopted <==> a.launch == NoLaunch)
    && (a.adopted ==> !a.terminated && !a.launching && !a.preparing && a.claims == {})
    && (!a.adopted ==> a.claims == a.declared)
  }

  /** Nothing moves task or binding of an attempt that is retained, neither
      cancelled nor launched. */
  predicate SealHolds(w: World, id: Id)
    requires id in w.store.attempts
  {
    var a := w.store.attempts[id];
    !a.terminated && !a.cancelled ==>
      Current(w.store, a) && (!a.launching ==> Revision(w.store.bindings, a.task) == a.sealedBinding)
  }

  predicate RootOk(w: World) {
    match w.root
    case Free => true
    case Launcher(id) => id in w.store.attempts && w.store.attempts[id].launching && !w.store.attempts[id].terminated
    case Preparer(id) => id in w.store.attempts
    case ExitSeen(id, head) => Retains(w.store, id) && id in w.spawned && id !in w.live && w.store.attempts[id].target
    case QuietSeen(id, head) =>
      && id in w.store.attempts && head <= w.store.head && w.store.attempts[id].preparing
      && !w.store.attempts[id].launching && !w.store.attempts[id].terminated
  }

  predicate Apart(a: Attempt, b: Attempt) {
    !a.terminated && !b.terminated ==> a.task != b.task && !Clash(a.claims, b.claims)
  }

  predicate Separate(s: Store) {
    forall i, j :: i in s.attempts && j in s.attempts && i != j ==> Apart(s.attempts[i], s.attempts[j])
  }

  predicate ReadsPast(w: World) {
    forall a :: a in w.views ==> w.views[a].head < w.store.head || w.views[a] == w.store
  }

  predicate Inv(w: World) {
    && (forall id :: id in w.spawned ==> id in w.store.attempts)
    && w.live <= w.spawned
    && (forall id :: id in w.store.attempts ==> AttemptOk(w, id))
    && (forall id :: id in w.store.attempts ==> SealHolds(w, id))
    && RootOk(w)
    && Separate(w.store)
    && ReadsPast(w)
  }

  /** The one attempt a step writes. */
  function Subject(w: World, step: Step): Option<Id>
    requires Enabled(w, step)
  {
    match step
    case Reserve(_, id, _) => Some(id)
    case Adopt(id, _) => Some(id)
    case Cancel(id) => Some(id)
    case RetireLaunch(id) => Some(id)
    case Prepare(id) => Some(id)
    case BeginLaunch(id) => Some(id)
    case RecordTarget => Some(w.root.id)
    case CommitTermination => Some(w.root.id)
    case _ => None
  }

  lemma OthersStand(w: World, step: Step, id: Id)
    requires Enabled(w, step) && Subject(w, step) != Some(id)
    ensures id in Apply(w, step).store.attempts <==> id in w.store.attempts
    ensures id in w.store.attempts ==> Apply(w, step).store.attempts[id] == w.store.attempts[id]
  {
  }

  lemma SubjectKept(w: World, step: Step, id: Id)
    requires Inv(w) && Enabled(w, step) && Subject(w, step) == Some(id)
    ensures id in Apply(w, step).store.attempts && AttemptOk(Apply(w, step), id)
  {
    if id in w.store.attempts { assert AttemptOk(w, id); }
    if step.Cancel? { CancelledShape(w.store, id); }
  }

  lemma CancelledShape(s: Store, id: Id)
    requires id in s.attempts
    ensures var a := s.attempts[id];
            || Cancelled(s, id) == a.(cancelled := true)
            || (a.launch == Unclaimed && Cancelled(s, id) == a.(cancelled := true, terminated := true, launch := Closed))
  {
  }

  lemma AttemptKept(w: World, step: Step, id: Id)
    requires Inv(w) && Enabled(w, step) && id in Apply(w, step).store.attempts
    ensures AttemptOk(Apply(w, step), id)
  {
    if Subject(w, step) == Some(id) {
      SubjectKept(w, step, id);
    } else {
      OthersStand(w, step, id);
      assert AttemptOk(w, id);
      ProcessesMove(w, step, id);
    }
  }

  /** Only a launcher's spawn, an adoption or an exit changes what runs. */
  lemma ProcessesMove(w: World, step: Step, id: Id)
    requires Enabled(w, step) && Subject(w, step) != Some(id)
    ensures id in Apply(w, step).spawned ==> id in w.spawned || (step.Spawn? && w.root.id == id)
    ensures id in w.spawned ==> id in Apply(w, step).spawned
    ensures id in Apply(w, step).live ==> id in w.live || (step.Spawn? && w.root.id == id)
    ensures id in Apply(w, step).live && id !in w.live ==> id in Apply(w, step).spawned
  {
  }

  lemma RootKept(w: World, step: Step)
    requires Inv(w) && Enabled(w, step)
    ensures RootOk(Apply(w, step))
  {
    forall id | id in w.store.attempts ensures AttemptOk(w, id) {}
  }

  lemma ProcessesKept(w: World, step: Step)
    requires Inv(w) && Enabled(w, step)
    ensures var v := Apply(w, step);
            && (forall id :: id in v.spawned ==> id in v.store.attempts) && v.live <= v.spawned
            && (forall id :: id in v.store.attempts ==> AttemptOk(v, id))
            && RootOk(v)
  {
    var v := Apply(w, step);
    forall id | id in v.store.attempts ensures AttemptOk(v, id) {
      AttemptKept(w, step, id);
    }
    RootKept(w, step);
  }

  lemma ClashSymmetric(a: set<RC.Claim>, b: set<RC.Claim>)
    ensures Clash(a, b) == Clash(b, a)
  {
    forall x, y ensures RC.Conflict(x, y) == RC.Conflict(y, x) {
      RC.ConflictSymmetric(x, y);
    }
  }

  lemma SealKept(w: World, step: Step, id: Id)
    requires Inv(w) && Enabled(w, step) && id in Apply(w, step).store.attempts
    ensures SealHolds(Apply(w, step), id)
  {
    if id in w.store.attempts {
      assert SealHolds(w, id) && AttemptOk(w, id);
      if Subject(w, step) != Some(id) {
        OthersStand(w, step, id);
        if Retains(w.store, id) && !w.store.attempts[id].cancelled {
          TaskStands(w, step, id);
        }
      }
    }
  }

  /** The task whose revision a step moves on, and the one whose binding. */
  function TaskMoved(w: World, step: Step): Option<Task>
    requires Enabled(w, step)
  {
    match step
    case Reserve(_, _, task) => Some(task)
    case Adopt(_, task) => Some(task)
    case EditTask(task) => Some(task)
    case Rebind(task) => Some(task)
    case Cancel(id) => Some(w.store.attempts[id].task)
    case CommitTermination => Some(w.store.attempts[w.root.id].task)
    case _ => None
  }

  function BindingMoved(w: World, step: Step): Option<Task>
    requires Enabled(w, step)
  {
    match step
    case Rebind(task) => Some(task)
    case RecordTarget => Some(w.store.attempts[w.root.id].task)
    case _ => None
  }

  lemma RevisionsMove(w: World, step: Step, task: Task)
    requires Enabled(w, step)
    ensures Revision(Apply(w, step).store.tasks, task) == Revision(w.store.tasks, task) + if TaskMoved(w, step) == Some(task) then 1 else 0
    ensures Revision(Apply(w, step).store.bindings, task) == Revision(w.store.bindings, task) + if BindingMoved(w, step) == Some(task) then 1 else 0
  {
  }

  /** A step about something else leaves task and binding of a retained attempt alone. */
  lemma TaskStands(w: World, step: Step, id: Id)
    requires Inv(w) && Enabled(w, step) && Retains(w.store, id) && Apply(w, step).store.attempts[id] == w.store.attempts[id]
    requires !w.store.attempts[id].cancelled
    ensures Revision(Apply(w, step).store.tasks, w.store.attempts[id].task) == Revision(w.store.tasks, w.store.attempts[id].task)
    ensures !w.store.attempts[id].launching ==>
              Revision(Apply(w, step).store.bindings, w.store.attempts[id].task) == Revision(w.store.bindings, w.store.attempts[id].task)
  {
    var s := w.store;
    RevisionsMove(w, step, s.attempts[id].task);
    if step.Cancel? && step.id != id {
      assert Apart(s.attempts[id], s.attempts[step.id]);
    } else if (step.CommitTermination? || step.RecordTarget?) && w.root.id != id {
      assert Apart(s.attempts[id], s.attempts[w.root.id]);
    }
  }

  lemma SeparateKept(w: World, step: Step)
    requires Inv(w) && Enabled(w, step)
    ensures Separate(Apply(w, step).store)
  {
    var s, t := w.store, Apply(w, step).store;
    if step.Reserve? || step.Adopt? {
      forall i, j | i in t.attempts && j in t.attempts && i != j ensures Apart(t.attempts[i], t.attempts[j]) {
        ClashSymmetric(t.attempts[i].claims, t.attempts[j].claims);
        if i == step.id || j == step.id {
          assert !TaskRetained(s, step.task) && (step.Reserve? ==> !Overlaps(s, step.task));
        } else {
          assert Apart(s.attempts[i], s.attempts[j]);
        }
      }
    } else {
      forall i, j | i in t.attempts && j in t.attempts && i != j ensures Apart(t.attempts[i], t.attempts[j]) {
        NothingNew(w, step, i);
        NothingNew(w, step, j);
        assert Apart(s.attempts[i], s.attempts[j]);
      }
    }
  }

  /** Without a reservation or adoption no attempt appears or comes back, and none changes its task or claims. */
  lemma NothingNew(w: World, step: Step, id: Id)
    requires Enabled(w, step) && !step.Reserve? && !step.Adopt? && id in Apply(w, step).store.attempts
    ensures id in w.store.attempts
    ensures var a, b := w.store.attempts[id], Apply(w, step).store.attempts[id];
            b.task == a.task && b.claims == a.claims && (a.terminated ==> b.terminated)
  {
    if Subject(w, step) != Some(id) {
      OthersStand(w, step, id);
    }
  }

  lemma ReadsKept(w: World, step: Step)
    requires Inv(w) && Enabled(w, step)
    ensures ReadsPast(Apply(w, step))
  {
  }

  lemma InvKept(w: World, step: Step)
    requires Inv(w) && Enabled(w, step)
    ensures Inv(Apply(w, step))
  {
    ProcessesKept(w, step);
    forall id | id in Apply(w, step).store.attempts ensures SealHolds(Apply(w, step), id) {
      SealKept(w, step, id);
    }
    SeparateKept(w, step);
    ReadsKept(w, step);
  }

  // ---------------------------------------------------------------- runs

  predicate Initial(w: World) {
    w.store.attempts == map[] && w.root == Free && w.spawned == {} && w.live == {} && w.views == map[]
  }

  predicate Follows(w: World, step: Step, v: World) {
    Enabled(w, step) && v == Apply(w, step)
  }

  predicate IsRun(worlds: seq<World>, steps: seq<Step>) {
    && |worlds| == |steps| + 1 && Initial(worlds[0])
    && forall i {:trigger steps[i]} :: 0 <= i < |steps| ==> Follows(worlds[i], steps[i], worlds[i + 1])
  }

  lemma {:induction false} InvAlways(worlds: seq<World>, steps: seq<Step>, n: nat)
    requires IsRun(worlds, steps) && n <= |steps|
    ensures Inv(worlds[n])
    decreases n
  {
    if n > 0 {
      InvAlways(worlds, steps, n - 1);
      assert Follows(worlds[n - 1], steps[n - 1], worlds[n]);
      InvKept(worlds[n - 1], steps[n - 1]);
    }
  }

  // ---------------------------------------------------------------- theorems

  lemma PutRetained(s: Store, id: Id, a: Attempt)
    ensures Retained(Put(s, id, a)) == if a.terminated then Retained(s) - {id} else Retained(s) + {id}
    ensures Retained(PutMoving(s, id, a)) == Retained(Put(s, id, a))
    ensures Retains(s, id) <==> id in Retained(s)
  {
  }

  /** Of all that a cancellation checks, only the launch decides: task and
      binding of an attempt not yet cancelled cannot have moved, and its task has
      no other attempt in the way. */
  lemma CancelFreesIff(w: World, id: Id)
    requires Inv(w) && Enabled(w, Cancel(id))
    ensures MayFree(w.store, id) <==> w.store.attempts[id].launch == Unclaimed
  {
    var s := w.store;
    assert AttemptOk(w, id) && SealHolds(w, id);
    forall other | other in s.attempts && other != id && s.attempts[other].task == s.attempts[id].task
      ensures s.attempts[other].terminated && (s.attempts[other].launch == Closed || s.attempts[other].launch == NoLaunch)
    {
      assert Apart(s.attempts[id], s.attempts[other]) && AttemptOk(w, other);
    }
  }

  /** The retained set grows by the one reserved or adopted attempt and shrinks by
      the one freed; a cancellation frees its attempt exactly when the launch is
      neither claimed nor retired. */
  lemma RetainedChange(w: World, step: Step)
    requires Inv(w) && Enabled(w, step)
    ensures var before, after := Retained(w.store), Retained(Apply(w, step).store);
            match step
            case Reserve(_, id, _) => id !in before && after == before + {id}
            case Adopt(id, _) => id !in before && after == before + {id}
            case Cancel(id) => after == if w.store.attempts[id].launch == Unclaimed then before - {id} else before
            case CommitTermination => after == before - {w.root.id}
            case _ => after == before
  {
    var s := w.store;
    match step
    case Reserve(_, id, task) => PutRetained(s, id, Reserved(s, task));
    case Adopt(id, task) => PutRetained(s, id, Adopted(s, task));
    case Cancel(id) =>
      CancelFreesIff(w, id);
      PutRetained(s, id, Cancelled(s, id));
    case RetireLaunch(id) => PutRetained(s, id, Apply(w, step).store.attempts[id]);
    case Prepare(id) => PutRetained(s, id, Apply(w, step).store.attempts[id]);
    case BeginLaunch(id) => PutRetained(s, id, Apply(w, step).store.attempts[id]);
    case RecordTarget => PutRetained(s, w.root.id, Apply(w, step).store.attempts[w.root.id]);
    case CommitTermination => PutRetained(s, w.root.id, Apply(w, step).store.attempts[w.root.id]);
    case _ => assert Apply(w, step).store.attempts == s.attempts;
  }

  /** The last reservation before a moment of the run, or the moment itself if
      there was none. */
  predicate LastReservation(steps: seq<Step>, m: nat, n: nat) {
    && m <= n <= |steps|
    && (m < n ==> steps[m].Reserve?) && (forall j :: m < j < n ==> !steps[j].Reserve?)
    && (m == n ==> forall j :: 0 <= j < n ==> !steps[j].Reserve?)
  }

  /** How many workers were adopted between two moments. */
  function Adoptions(steps: seq<Step>, m: nat, n: nat): nat
    requires m <= n <= |steps|
    decreases n
  {
    if m == n then 0 else Adoptions(steps, m, n - 1) + if steps[n - 1].Adopt? then 1 else 0
  }

  /** Over every run, retained attempts never exceed the limit in force at the
      last reservation by more than the adoptions since; before the first
      reservation there are only adopted ones. So without adoptions they never
      exceed it, and only an adoption takes them above it. */
  lemma CapacityBound(worlds: seq<World>, steps: seq<Step>, n: nat) returns (m: nat)
    requires IsRun(worlds, steps) && n <= |steps|
    ensures LastReservation(steps, m, n)
    ensures |Retained(worlds[n].store)| <= if m == n then Adoptions(steps, 0, n) else worlds[m].store.limit + Adoptions(steps, m, n)
  {
    var sizes := seq(|worlds|, i requires 0 <= i < |worlds| => |Retained(worlds[i].store)|);
    var limits := seq(|worlds|, i requires 0 <= i < |worlds| => worlds[i].store.limit);
    assert Retained(worlds[0].store) == {};
    forall i | 0 <= i < |steps| ensures Grows(sizes, limits, steps, i) {
      BoundOf(worlds, steps, i);
    }
    m := BoundFrom(sizes, limits, steps, n);
  }

  /** How the number of retained attempts can grow in one step. */
  predicate Grows(sizes: seq<nat>, limits: seq<nat>, steps: seq<Step>, i: nat)
    requires |sizes| == |limits| == |steps| + 1 && i < |steps|
  {
    if steps[i].Reserve? then sizes[i + 1] <= limits[i] else sizes[i + 1] <= sizes[i] + if steps[i].Adopt? then 1 else 0
  }

  lemma {:induction false} BoundFrom(sizes: seq<nat>, limits: seq<nat>, steps: seq<Step>, n: nat) returns (m: nat)
    requires |sizes| == |limits| == |steps| + 1 && n <= |steps| && sizes[0] == 0
    requires forall i :: 0 <= i < |steps| ==> Grows(sizes, limits, steps, i)
    ensures LastReservation(steps, m, n)
    ensures sizes[n] <= if m == n then Adoptions(steps, 0, n) else limits[m] + Adoptions(steps, m, n)
    decreases n
  {
    if n == 0 {
      m := 0;
    } else {
      assert Grows(sizes, limits, steps, n - 1);
      if steps[n - 1].Reserve? {
        m := n - 1;
      } else {
        m := BoundFrom(sizes, limits, steps, n - 1);
        if m == n - 1 {
          m := n;
        }
      }
    }
  }

  lemma BoundStep(w: World, step: Step)
    requires Inv(w) && Enabled(w, step)
    ensures step.Reserve? ==> |Retained(Apply(w, step).store)| <= w.store.limit
    ensures !step.Reserve? ==> |Retained(Apply(w, step).store)| <= |Retained(w.store)| + if step.Adopt? then 1 else 0
  {
    RetainedChange(w, step);
    Subset(Retained(Apply(w, step).store), Retained(w.store));
  }

  lemma BoundOf(worlds: seq<World>, steps: seq<Step>, n: nat)
    requires IsRun(worlds, steps) && n < |steps|
    ensures steps[n].Reserve? ==> |Retained(worlds[n + 1].store)| <= worlds[n].store.limit
    ensures !steps[n].Reserve? ==> |Retained(worlds[n + 1].store)| <= |Retained(worlds[n].store)| + if steps[n].Adopt? then 1 else 0
  {
    InvAlways(worlds, steps, n);
    assert Follows(worlds[n], steps[n], worlds[n + 1]);
    BoundStep(worlds[n], steps[n]);
  }

  lemma Subset(a: set<Id>, b: set<Id>)
    ensures a <= b ==> |a| <= |b|
  {
    if a <= b {
      assert b == a + (b - a);
    }
  }

  /** Over every run, each live worker belongs to a retained attempt, so the
      workers keep to the same bound. */
  lemma WorkersWithinCapacity(worlds: seq<World>, steps: seq<Step>, n: nat) returns (m: nat)
    requires IsRun(worlds, steps) && n <= |steps|
    ensures LastReservation(steps, m, n) && worlds[n].live <= Retained(worlds[n].store)
    ensures |worlds[n].live| <= if m == n then Adoptions(steps, 0, n) else worlds[m].store.limit + Adoptions(steps, m, n)
  {
    InvAlways(worlds, steps, n);
    forall id | id in worlds[n].live ensures id in Retained(worlds[n].store) {
      assert AttemptOk(worlds[n], id);
    }
    m := CapacityBound(worlds, steps, n);
    Subset(worlds[n].live, Retained(worlds[n].store));
  }

  /** Over every run, of two live workers neither of which was adopted, none
      writes a file the other's contract claims. */
  lemma WorkersDoNotCollide(worlds: seq<World>, steps: seq<Step>, n: nat, i: Id, j: Id, x: RC.Claim, y: RC.Claim, file: seq<string>)
    requires IsRun(worlds, steps) && n <= |steps| && i != j && i in worlds[n].live && j in worlds[n].live
    requires i in worlds[n].store.attempts && x in worlds[n].store.attempts[i].declared && x.Files? && !worlds[n].store.attempts[i].adopted
    requires j in worlds[n].store.attempts && y in worlds[n].store.attempts[j].declared && y.Files? && !worlds[n].store.attempts[j].adopted
    requires RC.MayCover(x.scope, file) && RC.MayCover(y.scope, file)
    ensures x.access == RC.Read && y.access == RC.Read
    ensures worlds[n].store.attempts[i].task != worlds[n].store.attempts[j].task
  {
    InvAlways(worlds, steps, n);
    assert AttemptOk(worlds[n], i) && AttemptOk(worlds[n], j);
    assert Apart(worlds[n].store.attempts[i], worlds[n].store.attempts[j]);
    RC.ConflictSound(x, y, file);
  }

  /** Over every run, of two live workers neither of which was adopted, no named
      resource is declared by both with one of them writing it. */
  lemma WorkersShareNoNamedResource(worlds: seq<World>, steps: seq<Step>, n: nat, i: Id, j: Id, name: string, x: RC.Access, y: RC.Access)
    requires IsRun(worlds, steps) && n <= |steps| && i != j && i in worlds[n].live && j in worlds[n].live
    requires i in worlds[n].store.attempts && RC.Named(name, x) in worlds[n].store.attempts[i].declared && !worlds[n].store.attempts[i].adopted
    requires j in worlds[n].store.attempts && RC.Named(name, y) in worlds[n].store.attempts[j].declared && !worlds[n].store.attempts[j].adopted
    ensures x == RC.Read && y == RC.Read
  {
    InvAlways(worlds, steps, n);
    assert AttemptOk(worlds[n], i) && AttemptOk(worlds[n], j);
    assert Apart(worlds[n].store.attempts[i], worlds[n].store.attempts[j]);
    RC.NamedConflictIff(name, name, x, y);
  }

  /** Over every run a reservation is made exactly under the checks of its
      transaction: its admitter's view is the store, the project is active, a
      place is free, and no retained attempt is of this task or holds a claim that
      conflicts with this task's. */
  lemma ReservedOnlyIf(worlds: seq<World>, steps: seq<Step>, n: nat)
    requires IsRun(worlds, steps) && n < |steps| && steps[n].Reserve?
    ensures worlds[n].store.active && |Retained(worlds[n].store)| < worlds[n].store.limit
    ensures steps[n].id !in worlds[n].store.attempts
    ensures forall id :: Retains(worlds[n].store, id) ==> worlds[n].store.attempts[id].task != steps[n].task
    ensures steps[n].task in worlds[n].store.contracts ==>
              forall id, x, y :: Retains(worlds[n].store, id) && x in worlds[n].store.contracts[steps[n].task] && y in worlds[n].store.attempts[id].claims ==>
                !RC.Conflict(x, y)
  {
    assert Follows(worlds[n], steps[n], worlds[n + 1]);
  }

  /** Over every run a worker is adopted only for a task without a retained
      attempt, is live from then on, and pauses the project. */
  lemma AdoptionPauses(worlds: seq<World>, steps: seq<Step>, n: nat)
    requires IsRun(worlds, steps) && n < |steps| && steps[n].Adopt?
    ensures forall id :: Retains(worlds[n].store, id) ==> worlds[n].store.attempts[id].task != steps[n].task
    ensures !worlds[n + 1].store.active && worlds[n + 1].live == worlds[n].live + {steps[n].id}
    ensures steps[n].id in worlds[n + 1].store.attempts && worlds[n + 1].store.attempts[steps[n].id].adopted
  {
    assert Follows(worlds[n], steps[n], worlds[n + 1]);
  }

  /** And from every moment of a run at which those checks hold, an admitter can
      read the store and reserve. */
  lemma ReservedIf(before: seq<World>, done: seq<Step>, admitter: Admitter, id: Id, task: Task) returns (worlds: seq<World>, steps: seq<Step>)
    requires IsRun(before, done) && before[|done|].store.active && id !in before[|done|].store.attempts
    requires |Retained(before[|done|].store)| < before[|done|].store.limit
    requires forall other :: Retains(before[|done|].store, other) ==> before[|done|].store.attempts[other].task != task
    requires task in before[|done|].store.contracts ==>
               forall other, x, y ::
                 (Retains(before[|done|].store, other) && x in before[|done|].store.contracts[task] && y in before[|done|].store.attempts[other].claims) ==>
                   !RC.Conflict(x, y)
    ensures IsRun(worlds, steps) && steps == done + [ReadHead(admitter), Reserve(admitter, id, task)]
    ensures Retained(worlds[|steps|].store) == Retained(before[|done|].store) + {id}
  {
    InvAlways(before, done, |done|);
    worlds, steps := Then(before, done, ReadHead(admitter));
    forall other | Retains(before[|done|].store, other)
      ensures !Clash(ClaimsFor(before[|done|].store, task), before[|done|].store.attempts[other].claims)
    {
    }
    assert Admissible(before[|done|].store, task);
    InvAlways(worlds, steps, |steps|);
    RetainedChange(worlds[|steps|], Reserve(admitter, id, task));
    worlds, steps := Then(worlds, steps, Reserve(admitter, id, task));
  }

  /** A launched worker is recorded, and exits. */
  lemma Exited(before: seq<World>, done: seq<Step>, id: Id) returns (worlds: seq<World>, steps: seq<Step>)
    requires IsRun(before, done) && before[|done|].root == Launcher(id) && id in before[|done|].spawned && id in before[|done|].live
    requires Retains(before[|done|].store, id)
    ensures IsRun(worlds, steps) && done <= steps && worlds[|steps|].root.Free? && worlds[|steps|].live == before[|done|].live - {id}
    ensures worlds[|steps|].store.attempts == before[|done|].store.attempts[id := before[|done|].store.attempts[id].(target := true)]
  {
    worlds, steps := Then(before, done, RecordTarget);
    worlds, steps := Then(worlds, steps, ReleaseRoot);
    worlds, steps := Then(worlds, steps, ProcessExits(id));
  }

  /** An exit that is observed and recorded gives the capacity back. */
  lemma Ended(before: seq<World>, done: seq<Step>, id: Id) returns (worlds: seq<World>, steps: seq<Step>)
    requires IsRun(before, done) && before[|done|].root.Free? && id !in before[|done|].live
    requires Retains(before[|done|].store, id) && before[|done|].store.attempts[id].target
    ensures IsRun(worlds, steps) && done <= steps && worlds[|steps|].live == before[|done|].live
    ensures Retained(worlds[|steps|].store) == Retained(before[|done|].store) - {id}
  {
    var s := before[|done|].store;
    worlds, steps := Then(before, done, ObserveExit(id));
    PutRetained(s, id, s.attempts[id].(terminated := true, launch := Closed));
    worlds, steps := Then(worlds, steps, CommitTermination);
  }

  lemma SameRetained(s: Store, t: Store, id: Id)
    requires Retains(s, id) && Retains(t, id) && t.attempts == s.attempts[id := t.attempts[id]]
    ensures Retained(t) == Retained(s)
  {
  }

  /** A reserved attempt's whole life can follow from any moment of a run:
      launched, recorded, gone, and its capacity back. */
  lemma WholeLife(before: seq<World>, done: seq<Step>, id: Id) returns (worlds: seq<World>, steps: seq<Step>)
    requires IsRun(before, done) && before[|done|].root.Free? && id !in before[|done|].spawned
    requires Retains(before[|done|].store, id) && before[|done|].store.attempts[id].launch == Unclaimed && !before[|done|].store.attempts[id].cancelled
    ensures IsRun(worlds, steps) && done <= steps && BeginLaunch(id) in steps
    ensures worlds[|steps|].live == before[|done|].live && Retained(worlds[|steps|].store) == Retained(before[|done|].store) - {id}
  {
    InvAlways(before, done, |done|);
    assert AttemptOk(before[|done|], id) && SealHolds(before[|done|], id);
    worlds, steps := Launched(before, done, id);
    assert steps[|done|] == BeginLaunch(id);
    SameRetained(before[|done|].store, worlds[|steps|].store, id);
    var s := worlds[|steps|].store;
    worlds, steps := Exited(worlds, steps, id);
    SameRetained(s, worlds[|steps|].store, id);
    assert steps[|done|] == BeginLaunch(id);
    worlds, steps := Ended(worlds, steps, id);
    assert steps[|done|] == BeginLaunch(id);
  }

  /** A reservation acts on exactly the store its admitter read. */
  lemma ReservedAsRead(worlds: seq<World>, steps: seq<Step>, n: nat)
    requires IsRun(worlds, steps) && n < |steps| && steps[n].Reserve?
    ensures steps[n].admitter in worlds[n].views && worlds[n].views[steps[n].admitter] == worlds[n].store
  {
    InvAlways(worlds, steps, n);
    assert Follows(worlds[n], steps[n], worlds[n + 1]);
  }

  /** Capacity comes back only when no worker of the attempt exists, and none
      ever will: nothing later in the run spawns one. */
  lemma {:induction false} FreedForGood(worlds: seq<World>, steps: seq<Step>, m: nat, n: nat, id: Id)
    requires IsRun(worlds, steps) && m <= n <= |steps|
    requires id in worlds[m].store.attempts && worlds[m].store.attempts[id].terminated
    ensures id in worlds[n].store.attempts && worlds[n].store.attempts[id].terminated && id !in worlds[n].live
    decreases n
  {
    if m < n {
      FreedForGood(worlds, steps, m, n - 1, id);
      assert Follows(worlds[n - 1], steps[n - 1], worlds[n]);
      StaysFreed(worlds[n - 1], steps[n - 1], id);
    }
    InvAlways(worlds, steps, n);
    assert AttemptOk(worlds[n], id);
  }

  lemma StaysFreed(w: World, step: Step, id: Id)
    requires Enabled(w, step) && id in w.store.attempts && w.store.attempts[id].terminated
    ensures id in Apply(w, step).store.attempts && Apply(w, step).store.attempts[id].terminated
  {
    if Subject(w, step) != Some(id) {
      OthersStand(w, step, id);
    }
  }

  /** What frees an attempt: a cancellation of an untouched launch, an exit of
      its recorded supervisor, or a stop before any launch intent. An adopted one
      is freed by nothing. */
  lemma FreedByProof(w: World, step: Step, id: Id)
    requires Inv(w) && Enabled(w, step) && id in Retained(w.store) && id !in Retained(Apply(w, step).store)
    ensures !w.store.attempts[id].adopted
    ensures || (step == Cancel(id) && w.store.attempts[id].launch == Unclaimed && id !in w.spawned)
            || (step == CommitTermination && w.root.ExitSeen? && w.root.id == id && id in w.spawned && id !in w.live)
            || (step == CommitTermination && w.root.QuietSeen? && w.root.id == id && !w.store.attempts[id].launching && id !in w.spawned)
  {
    RetainedChange(w, step);
    assert AttemptOk(w, id);
  }

  lemma OriginKept(w: World, step: Step, id: Id)
    requires Enabled(w, step) && id in w.store.attempts
    ensures id in Apply(w, step).store.attempts
    ensures var a, b := w.store.attempts[id], Apply(w, step).store.attempts[id];
            b.task == a.task && b.adopted == a.adopted && b.declared == a.declared && b.claims == a.claims
  {
    if Subject(w, step) != Some(id) {
      OthersStand(w, step, id);
    }
  }

  /** Every attempt was reserved or adopted by some step of the run, and declares
      what its task's contract claimed at that moment; a later contract does not
      move it. The overlap check sees that for a reserved attempt, and nothing
      for an adopted one. */
  lemma {:induction false} ReservedClaims(worlds: seq<World>, steps: seq<Step>, n: nat, id: Id) returns (m: nat)
    requires IsRun(worlds, steps) && n <= |steps| && id in worlds[n].store.attempts
    ensures m < n && (if worlds[n].store.attempts[id].adopted then steps[m].Adopt? else steps[m].Reserve?) && steps[m].id == id
    ensures worlds[n].store.attempts[id].task == steps[m].task
    ensures worlds[n].store.attempts[id].declared == ClaimsFor(worlds[m].store, steps[m].task)
    ensures worlds[n].store.attempts[id].claims == if steps[m].Adopt? then {} else ClaimsFor(worlds[m].store, steps[m].task)
    decreases n
  {
    if n > 0 {
      assert Follows(worlds[n - 1], steps[n - 1], worlds[n]);
      if id in worlds[n - 1].store.attempts {
        m := ReservedClaims(worlds, steps, n - 1, id);
        OriginKept(worlds[n - 1], steps[n - 1], id);
      } else {
        m := n - 1;
      }
    }
  }

  /** An attempt that nothing will ever free: adopted, or with its launch retired
      before anybody claimed it. */
  predicate Stuck(a: Attempt) { !a.terminated && (a.adopted || (a.launch == Closed && !a.preparing && !a.launching)) }

  /** Over every run such an attempt keeps its capacity to the end. */
  lemma {:induction false} StuckForGood(worlds: seq<World>, steps: seq<Step>, m: nat, n: nat, id: Id)
    requires IsRun(worlds, steps) && m <= n <= |steps| && id in worlds[m].store.attempts && Stuck(worlds[m].store.attempts[id])
    ensures id in worlds[n].store.attempts && Stuck(worlds[n].store.attempts[id])
    decreases n
  {
    if m < n {
      StuckForGood(worlds, steps, m, n - 1, id);
      InvAlways(worlds, steps, n - 1);
      assert Follows(worlds[n - 1], steps[n - 1], worlds[n]);
      StuckKept(worlds[n - 1], steps[n - 1], id);
    }
  }

  lemma StuckKept(w: World, step: Step, id: Id)
    requires Inv(w) && Enabled(w, step) && id in w.store.attempts && Stuck(w.store.attempts[id])
    ensures id in Apply(w, step).store.attempts && Stuck(Apply(w, step).store.attempts[id])
  {
    assert AttemptOk(w, id);
    if Subject(w, step) != Some(id) {
      OthersStand(w, step, id);
    }
  }

  // ---------------------------------------------------------------- runs in which it fails

  lemma Then(worlds: seq<World>, steps: seq<Step>, step: Step) returns (ws: seq<World>, ss: seq<Step>)
    requires IsRun(worlds, steps) && Enabled(worlds[|steps|], step)
    ensures IsRun(ws, ss) && ss == steps + [step] && ws == worlds + [Apply(worlds[|steps|], step)]
    ensures ws[|ss|] == Apply(worlds[|steps|], step)
  {
    ws, ss := worlds + [Apply(worlds[|steps|], step)], steps + [step];
    forall i | 0 <= i < |ss| ensures Follows(ws[i], ss[i], ws[i + 1]) {
      if i < |steps| { assert Follows(worlds[i], steps[i], worlds[i + 1]); }
    }
  }

  /** Two tasks that write the same file. */
  const TheFile: RC.Claim := RC.Files(RC.Scope(["f"], false), RC.Write)
  const TwoWriters: Store := Store(0, 1, true, map["a" := {TheFile}, "b" := {TheFile}], map[], map[], map[])

  /** Adopting before anything is reserved: one worker, whatever the limit. */
  lemma AdoptedFirst(limit: nat) returns (worlds: seq<World>, steps: seq<Step>)
    ensures IsRun(worlds, steps) && worlds[|steps|].live == {1} && worlds[|steps|].store.limit == limit
    ensures var s := worlds[|steps|].store;
            s.attempts == map[1 := Adopted(TwoWriters, "a")] && Revision(s.tasks, "b") == 0 && s.contracts == TwoWriters.contracts && s.bindings == map[]
    ensures worlds[|steps|].root == Free && worlds[|steps|].spawned == {1} && worlds[|steps|].views == map[] && Adoptions(steps, 0, |steps|) == 1
  {
    worlds, steps := [World(TwoWriters.(limit := limit), Free, {}, {}, map[])], [];
    worlds, steps := Then(worlds, steps, Adopt(1, "a"));
    assert worlds[|steps|].store.attempts == map[1 := Adopted(TwoWriters, "a")];
    assert Adoptions(steps, 0, 0) == 0;
  }

  /** A worker of an adopted attempt and one reserved afterwards, with limit two:
      the check that would have kept them apart skips the adopted one, and both
      write the same file. */
  lemma AdoptedCollides() returns (worlds: seq<World>, steps: seq<Step>)
    ensures IsRun(worlds, steps) && worlds[|steps|].live == {1, 2}
    ensures var s := worlds[|steps|].store;
            && 1 in s.attempts && s.attempts[1].adopted && TheFile in s.attempts[1].declared
            && 2 in s.attempts && !s.attempts[2].adopted && TheFile in s.attempts[2].declared
  {
    worlds, steps := AdoptedFirst(2);
    worlds, steps := Then(worlds, steps, SetActive(true));
    worlds, steps := Then(worlds, steps, ReadHead(0));
    var w := worlds[|steps|];
    assert Retained(w.store) == {1};
    assert Admissible(w.store, "b");
    worlds, steps := Then(worlds, steps, Reserve(0, 2, "b"));
    worlds, steps := Launched(worlds, steps, 2);
  }

  /** A reserved attempt goes from its reservation to a live worker. */
  lemma Launched(before: seq<World>, done: seq<Step>, id: Id) returns (worlds: seq<World>, steps: seq<Step>)
    requires IsRun(before, done) && before[|done|].root.Free? && id !in before[|done|].spawned
    requires Retains(before[|done|].store, id) && before[|done|].store.attempts[id].launch == Unclaimed
    requires !before[|done|].store.attempts[id].launching && Current(before[|done|].store, before[|done|].store.attempts[id])
    ensures IsRun(worlds, steps) && steps == done + [BeginLaunch(id), Spawn] && worlds[|steps|].live == before[|done|].live + {id}
    ensures worlds[|steps|].root == Launcher(id) && worlds[|steps|].spawned == before[|done|].spawned + {id}
    ensures forall i :: |done| <= i < |steps| ==> !steps[i].Reserve? && !steps[i].Adopt?
    ensures worlds[|steps|].store.attempts == before[|done|].store.attempts[id := before[|done|].store.attempts[id].(launch := Claimed, launching := true)]
    ensures worlds[|steps|].store.limit == before[|done|].store.limit
  {
    worlds, steps := Then(before, done, BeginLaunch(id));
    worlds, steps := Then(worlds, steps, Spawn);
  }

  /** One reservation and one adoption under a limit of one: two live workers. */
  lemma AdoptedAboveLimit() returns (worlds: seq<World>, steps: seq<Step>)
    ensures IsRun(worlds, steps) && worlds[|steps|].store.limit == 1 && worlds[|steps|].live == {1, 2} && Retained(worlds[|steps|].store) == {1, 2}
  {
    worlds, steps := [World(TwoWriters, Free, {}, {}, map[])], [];
    worlds, steps := Then(worlds, steps, ReadHead(0));
    assert Retained(TwoWriters) == {};
    worlds, steps := Then(worlds, steps, Reserve(0, 1, "a"));
    worlds, steps := Launched(worlds, steps, 1);
    worlds, steps := Then(worlds, steps, ReleaseRoot);
    assert worlds[|steps|].live == {1};
    worlds, steps := Then(worlds, steps, Adopt(2, "b"));
    assert Retained(worlds[|steps|].store) == {1, 2};
  }

  /** An operator retires the launch of a reserved attempt and then cancels it:
      nothing is freed, then or ever. */
  lemma RetiredThenCancelled() returns (worlds: seq<World>, steps: seq<Step>)
    ensures IsRun(worlds, steps) && 1 in worlds[|steps|].store.attempts && worlds[|steps|].store.attempts[1].cancelled
    ensures Stuck(worlds[|steps|].store.attempts[1]) && !worlds[|steps|].store.attempts[1].adopted
  {
    worlds, steps := [World(TwoWriters, Free, {}, {}, map[])], [];
    worlds, steps := Then(worlds, steps, ReadHead(0));
    assert Retained(TwoWriters) == {};
    worlds, steps := Then(worlds, steps, Reserve(0, 1, "a"));
    worlds, steps := Then(worlds, steps, RetireLaunch(1));
    worlds, steps := Then(worlds, steps, Cancel(1));
  }
}
