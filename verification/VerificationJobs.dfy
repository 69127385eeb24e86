/** Automatic verification: claim, narrow, check, widen, record.

    Any number of deliveries and observations of one job run in any order, each
    step by step, and may die at any step. Project ownership is the exclusive
    project guard; the isolated check keeps only the job's scratch fence. A run
    is recorded under the job key and is never removed. */
module VerificationJobs {
  import opened Results
  import opened Delivery

  type Tid = nat

  /** How the verifier ended: a verdict was recorded (or replayed), the inputs
      or the claim changed during the check, or it stopped for another reason. */
  datatype Ending = Verdict | FenceChanged | Stopped

  datatype Worker =
    | Loaded(revision: nat)           // owns the project, has read the row
    | Delivering(claim: Claim)        // owns the project since the claim; scratch not yet cleared
    | Prepared(claim: Claim)          // owns the project since the claim; scratch cleared
    | Checking(claim: Claim)          // owns only the scratch fence
    | Widening(claim: Claim)          // owns nothing: the fence is dropped, the project not yet regained
    | Regained(claim: Claim)          // owns the project again, claim validated again
    | Done(claim: Claim, ending: Ending)  // owns the project, verifier returned
    | Observing(revision: nat)        // owns the project, row was ambiguous at this revision
    | Other                           // any other effect that owns the project

  predicate OwnsProject(k: Worker) {
    !k.Checking? && !k.Widening?
  }

  predicate HasClaim(k: Worker) {
    k.Delivering? || k.Prepared? || k.Checking? || k.Widening? || k.Regained? || k.Done?
  }

  /** `run` is the run stored under the job key. `owner` is the holder of the
      project guard and `fence` of the scratch fence. */
  datatype World = World(row: Row, run: Option<nat>, owner: Option<Tid>, fence: Option<Tid>, workers: map<Tid, Worker>, clock: int)

  datatype Step =
    | Tick(ms: nat)
    | StartDelivery(tid: Tid)
    | StartObservation(tid: Tid)
    | StartOther(tid: Tid)
    | TakeClaim(tid: Tid, bindingCurrent: bool)
    | Withdraw(tid: Tid, bindingCurrent: bool)   // cancelled before the verifier is entered
    | ClearScratch(tid: Tid)
    | Release(tid: Tid)
    | BeginWiden(tid: Tid)
    | Reacquire(tid: Tid, bindingCurrent: bool)
    | Record(tid: Tid, run: nat)
    | Return(tid: Tid, ending: Ending)
    | Tidy(tid: Tid)                             // the verifier removes the scratch while it owns the project
    | Finish(tid: Tid, bindingCurrent: bool, cancelled: bool, readFails: bool)
    | ConcludeObservation(tid: Tid)
    | OperatorRecords(tid: Tid, run: nat)        // a manual verification under the job's key
    | Die(tid: Tid)
    | Expire
    | Retire(expected: nat)
    | Reset(expected: nat)

  /** What a delivery reports once the verifier has returned: only a run stored
      under the key is evidence, whatever the verifier said. */
  function Report(run: Option<nat>, ending: Ending, cancelled: bool, readFails: bool): Outcome {
    if readFails then Outcome.Observe
    else if run.Some? then Confirm(run.value)
    else if ending == FenceChanged || cancelled then Retry
    else Fail
  }

  /** What an observation reports: the stored run, or that there is none. */
  function Observed(run: Option<nat>): Outcome {
    if run.Some? then Confirm(run.value) else Retry
  }

  predicate Enabled(w: World, a: Step) {
    match a
    case Tick(_) => true
    case StartDelivery(t) => w.owner.None? && t !in w.workers
    case StartObservation(t) => w.owner.None? && t !in w.workers && w.row.state == Ambiguous
    case StartOther(t) => w.owner.None? && t !in w.workers
    case TakeClaim(t, binding) => t in w.workers && w.workers[t].Loaded?
    case Withdraw(t, _) => t in w.workers && w.workers[t].Delivering?
    case ClearScratch(t) => t in w.workers && w.workers[t].Delivering?
    case Release(t) => t in w.workers && w.workers[t].Prepared? && w.fence.None?
    case BeginWiden(t) => t in w.workers && w.workers[t].Checking?
    case Reacquire(t, _) => t in w.workers && w.workers[t].Widening? && w.owner.None?
    case Record(t, _) => t in w.workers && (w.workers[t].Prepared? || w.workers[t].Regained?)
    case Return(t, ending) =>
      && t in w.workers && (w.workers[t].Delivering? || w.workers[t].Prepared? || w.workers[t].Regained?)
      && ending != Verdict
    case Tidy(t) => t in w.workers && w.workers[t].Done?
    case Finish(t, _, _, _) => t in w.workers && w.workers[t].Done?
    case ConcludeObservation(t) => t in w.workers && w.workers[t].Observing? && (w.run.None? ==> w.fence.None?)
    case OperatorRecords(t, _) => t in w.workers && w.workers[t].Other?
    case Die(t) => t in w.workers
    case Expire => w.owner.None?
    case Retire(_) => w.owner.None?
    case Reset(_) => w.owner.None?
  }

  function RowOr(r: Result<Row>, row: Row): Row {
    if r.Ok? then r.value else row
  }

  function Own(w: World, t: Tid, k: Worker): World {
    w.(owner := Some(t), workers := w.workers[t := k])
  }

  function Become(w: World, t: Tid, k: Worker): World {
    w.(workers := w.workers[t := k])
  }

  function Leave(w: World, t: Tid): World {
    w.(workers := w.workers - {t},
       owner := if w.owner == Some(t) then None else w.owner,
       fence := if w.fence == Some(t) then None else w.fence)
  }

  function Apply(w: World, a: Step): World
    requires Enabled(w, a)
  {
    match a
    case Tick(ms) => w.(clock := w.clock + ms)
    case StartDelivery(t) => Own(w, t, Loaded(w.row.revision))
    case StartObservation(t) => Own(w, t, Observing(w.row.revision))
    case StartOther(t) => Own(w, t, Other)
    case TakeClaim(t, binding) =>
      (match ClaimOperation(w.row, w.workers[t].revision, w.clock, binding)
       case Ok(claimed) => Become(w, t, Delivering(claimed.1)).(row := claimed.0)
       case Err(_) => Leave(w, t))
    case Withdraw(t, binding) =>
      Leave(w.(row := RowOr(FinishOperation(w.row, w.workers[t].claim, Retry, w.clock, binding, w.run), w.row)), t)
    case ClearScratch(t) => Become(w, t, Prepared(w.workers[t].claim))
    case Release(t) => Become(w, t, Checking(w.workers[t].claim)).(owner := None, fence := Some(t))
    case BeginWiden(t) => Become(w, t, Widening(w.workers[t].claim)).(fence := None)
    case Reacquire(t, binding) =>
      var c := w.workers[t].claim;
      Own(w, t, if ValidClaim(w.row, c, w.clock, binding) then Regained(c) else Done(c, FenceChanged))
    case Record(t, run) =>
      Become(w, t, Done(w.workers[t].claim, Verdict)).(run := if w.run.Some? then w.run else Some(run))
    case Return(t, ending) => Become(w, t, Done(w.workers[t].claim, ending))
    case Tidy(t) => w
    case Finish(t, binding, cancelled, readFails) =>
      var outcome := Report(w.run, w.workers[t].ending, cancelled, readFails);
      Leave(w.(row := RowOr(FinishOperation(w.row, w.workers[t].claim, outcome, w.clock, binding, w.run), w.row)), t)
    case ConcludeObservation(t) =>
      Leave(w.(row := RowOr(ObserveOperation(w.row, w.workers[t].revision, Observed(w.run), w.clock, w.run), w.row)), t)
    case OperatorRecords(t, run) => w.(run := if w.run.Some? then w.run else Some(run))
    case Die(t) => Leave(w, t)
    case Expire => w.(row := RowOr(ExpireClaims(w.row, w.clock, w.run), w.row))
    case Retire(expected) => w.(row := RowOr(RetireOperation(w.row, expected, w.clock, w.run), w.row))
    case Reset(expected) => w.(row := RowOr(ResetJob(w.row, expected, w.clock), w.row))
  }

  predicate Init(w: World) {
    && w.row.state == Pending && w.row.epoch == 0 && w.row.attempts == 0
    && w.run.None? && w.owner.None? && w.fence.None? && w.workers == map[]
  }

  ghost predicate Follows(v: World, w: World, a: Step) {
    Enabled(w, a) && v == Apply(w, a)
  }

  ghost predicate Run(worlds: seq<World>, steps: seq<Step>) {
    && |worlds| == |steps| + 1 && Init(worlds[0])
    && forall i {:trigger steps[i]} :: 0 <= i < |steps| ==> Follows(worlds[i + 1], worlds[i], steps[i])
  }

  // ---------------------------------------------------------------- the invariant

  /** Project ownership is exclusive, and so is the scratch fence. */
  ghost predicate Ownership(w: World) {
    OwnerRight(w) && FenceRight(w)
  }

  ghost predicate OwnerRight(w: World) {
    && (forall t :: t in w.workers && OwnsProject(w.workers[t]) ==> w.owner == Some(t))
    && (w.owner.Some? ==> w.owner.value in w.workers && OwnsProject(w.workers[w.owner.value]))
  }

  ghost predicate FenceRight(w: World) {
    && (forall t :: t in w.workers && w.workers[t].Checking? ==> w.fence == Some(t))
    && (w.fence.Some? ==> w.fence.value in w.workers && w.workers[w.fence.value].Checking?)
  }

  /** Whoever may record owns the project under the claim the row still carries. */
  ghost predicate RecorderIsCurrent(w: World) {
    forall t :: t in w.workers && (w.workers[t].Delivering? || w.workers[t].Prepared? || w.workers[t].Regained?)
      ==> Matches(w.row, w.workers[t].claim)
  }

  /** A claim is never from the future, and it is somebody's alone. */
  ghost predicate ClaimsPast(w: World) {
    forall t :: t in w.workers && HasClaim(w.workers[t]) ==> w.workers[t].claim.epoch <= w.row.epoch
  }

  ghost predicate ClaimsDistinct(w: World) {
    forall t, u :: t in w.workers && u in w.workers && t != u && HasClaim(w.workers[t]) && HasClaim(w.workers[u])
      ==> w.workers[t].claim.epoch != w.workers[u].claim.epoch
  }

  /** The promise: a confirmed job has its run, and a job that will be redelivered
      or is given up has none. */
  predicate Honest(row: Row, run: Option<nat>) {
    && (row.state == State.Confirmed ==> run.Some?)
    && (row.state == Pending || row.state == PermanentFailure ==> run.None?)
  }

  ghost predicate Inv(w: World) {
    && Ownership(w) && RecorderIsCurrent(w) && ClaimsPast(w) && ClaimsDistinct(w)
    && (w.row.state == State.Confirmed ==> w.run.Some?)
  }

  /** How a step can change the row: only as the owner of the project or while
      nobody owns it, and never the epoch downwards. */
  lemma RowSteps(w: World, a: Step)
    requires Enabled(w, a)
    ensures Apply(w, a).row.epoch >= w.row.epoch
    ensures Apply(w, a).row != w.row ==>
      w.owner.None? || a.TakeClaim? || a.Withdraw? || a.Finish? || a.ConcludeObservation?
    ensures Apply(w, a).row.state == State.Claimed && w.row.state != State.Claimed ==> a.TakeClaim? && Apply(w, a).row.epoch > w.row.epoch
  {
  }

  lemma OwnerKept(w: World, a: Step)
    requires OwnerRight(w) && Enabled(w, a)
    ensures OwnerRight(Apply(w, a))
  {
  }

  lemma FenceKept(w: World, a: Step)
    requires FenceRight(w) && Enabled(w, a)
    ensures FenceRight(Apply(w, a))
  {
  }

  lemma RecorderKept(w: World, a: Step)
    requires Ownership(w) && RecorderIsCurrent(w) && Enabled(w, a)
    ensures RecorderIsCurrent(Apply(w, a))
  {
    RowSteps(w, a);
    var v := Apply(w, a);
    assert a.TakeClaim? || a.Withdraw? || a.Finish? || a.ConcludeObservation? ==> w.owner == Some(a.tid);
    forall t | t in v.workers && (v.workers[t].Delivering? || v.workers[t].Prepared? || v.workers[t].Regained?)
      ensures Matches(v.row, v.workers[t].claim)
    {
      if t in w.workers && w.workers[t] == v.workers[t] {
        assert w.owner == Some(t);
      }
    }
  }

  /** A worker keeps its claim; only taking one makes a new one, under a new epoch. */
  lemma ClaimKept(w: World, a: Step, t: Tid)
    requires ClaimsPast(w) && Enabled(w, a) && t in Apply(w, a).workers && HasClaim(Apply(w, a).workers[t])
    ensures (t in w.workers && HasClaim(w.workers[t]) && Apply(w, a).workers[t].claim == w.workers[t].claim)
            || (a.TakeClaim? && a.tid == t && Apply(w, a).workers[t].claim.epoch == Apply(w, a).row.epoch > w.row.epoch)
  {
  }

  lemma ClaimsKept(w: World, a: Step)
    requires ClaimsPast(w) && ClaimsDistinct(w) && Enabled(w, a)
    ensures ClaimsPast(Apply(w, a)) && ClaimsDistinct(Apply(w, a))
  {
    RowSteps(w, a);
    forall t | t in Apply(w, a).workers && HasClaim(Apply(w, a).workers[t])
      ensures (t in w.workers && HasClaim(w.workers[t]) && Apply(w, a).workers[t].claim == w.workers[t].claim)
              || (a.TakeClaim? && a.tid == t && Apply(w, a).workers[t].claim.epoch == Apply(w, a).row.epoch > w.row.epoch)
    {
      ClaimKept(w, a, t);
    }
  }

  /** The run, once stored, stays; only a recorder or an operator stores one. */
  lemma RunSteps(w: World, a: Step)
    requires Enabled(w, a)
    ensures w.run.Some? ==> Apply(w, a).run == w.run
    ensures Apply(w, a).run != w.run ==> (a.Record? || a.OperatorRecords?) && Apply(w, a).row == w.row
    ensures Apply(w, a).row.state == State.Confirmed && w.row.state != State.Confirmed ==> Apply(w, a).run.Some?
  {
  }

  lemma InvKept(w: World, a: Step)
    requires Inv(w) && Enabled(w, a)
    ensures Inv(Apply(w, a))
  {
    OwnerKept(w, a);
    FenceKept(w, a);
    RecorderKept(w, a);
    ClaimsKept(w, a);
    RunSteps(w, a);
  }

  lemma {:induction false} InvAlways(worlds: seq<World>, steps: seq<Step>, i: nat)
    requires Run(worlds, steps) && i < |worlds|
    ensures Inv(worlds[i])
  {
    if i > 0 {
      InvAlways(worlds, steps, i - 1);
      assert Follows(worlds[i], worlds[i - 1], steps[i - 1]);
      InvKept(worlds[i - 1], steps[i - 1]);
    }
  }

  // ---------------------------------------------------------------- the promise

  /** What an operator should not do: retire a job that has a run, or record a
      run under the key of a job that is pending or given up. */
  predicate Breaks(w: World, a: Step) {
    || (a.Retire? && RetireOperation(w.row, a.expected, w.clock, w.run).Ok? && w.run.Some?)
    || (a.OperatorRecords? && w.run.None? && (w.row.state == Pending || w.row.state == PermanentFailure))
  }

  /** A delivery that has not entered the verifier has no run behind it. */
  ghost predicate FreshClaims(w: World) {
    forall t :: t in w.workers && w.workers[t].Delivering? ==> w.run.None?
  }

  lemma FreshKept(w: World, a: Step)
    requires Inv(w) && Honest(w.row, w.run) && FreshClaims(w) && Enabled(w, a)
    ensures FreshClaims(Apply(w, a))
  {
    RunSteps(w, a);
    forall t | t in Apply(w, a).workers && Apply(w, a).workers[t].Delivering? ensures Apply(w, a).run.None? {
      if t in w.workers && w.workers[t].Delivering? {
        assert w.owner == Some(t);
      }
    }
  }

  /** No step but those two kinds breaks the promise, and each of them does. */
  lemma HonestStep(w: World, a: Step)
    requires Inv(w) && Honest(w.row, w.run) && FreshClaims(w) && Enabled(w, a)
    ensures Honest(Apply(w, a).row, Apply(w, a).run) <==> !Breaks(w, a)
  {
    RunSteps(w, a);
    assert a.Record? ==> Matches(w.row, w.workers[a.tid].claim);
    assert a.Withdraw? ==> w.run.None?;
  }

  lemma {:induction false} HonestSoFar(worlds: seq<World>, steps: seq<Step>, n: nat)
    requires Run(worlds, steps) && n < |worlds| && forall i :: 0 <= i < n ==> !Breaks(worlds[i], steps[i])
    ensures Honest(worlds[n].row, worlds[n].run) && FreshClaims(worlds[n])
  {
    if n > 0 {
      HonestSoFar(worlds, steps, n - 1);
      InvAlways(worlds, steps, n - 1);
      assert Follows(worlds[n], worlds[n - 1], steps[n - 1]);
      assert !Breaks(worlds[n - 1], steps[n - 1]);
      HonestStep(worlds[n - 1], steps[n - 1]);
      FreshKept(worlds[n - 1], steps[n - 1]);
    }
  }

  /** Over every run with deaths, expiry, observation and redelivery a confirmed
      job has a run under its key; and the job was honest all the way, a pending
      or permanently failed one having none, exactly if the operator neither
      retired it over a stored run nor recorded one under its key while it was
      pending or given up. */
  lemma HonestAlways(worlds: seq<World>, steps: seq<Step>, n: nat)
    requires Run(worlds, steps) && n < |worlds|
    ensures worlds[n].row.state == State.Confirmed ==> worlds[n].run.Some?
    ensures (forall k :: 0 <= k <= n ==> Honest(worlds[k].row, worlds[k].run)) <==> (forall i :: 0 <= i < n ==> !Breaks(worlds[i], steps[i]))
  {
    InvAlways(worlds, steps, n);
    if forall i :: 0 <= i < n ==> !Breaks(worlds[i], steps[i]) {
      forall k | 0 <= k <= n ensures Honest(worlds[k].row, worlds[k].run) {
        HonestSoFar(worlds, steps, k);
      }
    } else {
      var i := FirstBreak(worlds, steps, n);
      HonestSoFar(worlds, steps, i);
      InvAlways(worlds, steps, i);
      assert Follows(worlds[i + 1], worlds[i], steps[i]);
      HonestStep(worlds[i], steps[i]);
    }
  }

  lemma {:induction false} FirstBreak(worlds: seq<World>, steps: seq<Step>, n: nat) returns (i: nat)
    requires Run(worlds, steps) && n < |worlds| && exists j :: 0 <= j < n && Breaks(worlds[j], steps[j])
    ensures i < n && Breaks(worlds[i], steps[i]) && forall j :: 0 <= j < i ==> !Breaks(worlds[j], steps[j])
  {
    if j :| 0 <= j < n - 1 && Breaks(worlds[j], steps[j]) {
      i := FirstBreak(worlds, steps, n - 1);
    } else {
      i := n - 1;
    }
  }

  /** Retiring an honest job keeps the promise exactly when no run is stored. */
  lemma RetireIsHonestIff(worlds: seq<World>, steps: seq<Step>, i: nat)
    requires Run(worlds, steps) && i < |steps| && steps[i].Retire? && Honest(worlds[i].row, worlds[i].run)
    requires RetireOperation(worlds[i].row, steps[i].expected, worlds[i].clock, worlds[i].run).Ok?
    ensures Honest(worlds[i + 1].row, worlds[i + 1].run) <==> worlds[i].run.None?
  {
    assert Follows(worlds[i + 1], worlds[i], steps[i]);
  }

  /** A manual verification under the key of an honest job keeps the promise
      exactly when the job is claimed, ambiguous or confirmed. */
  lemma OperatorIsHonestIff(worlds: seq<World>, steps: seq<Step>, i: nat)
    requires Run(worlds, steps) && i < |steps| && steps[i].OperatorRecords? && Honest(worlds[i].row, worlds[i].run)
    ensures Honest(worlds[i + 1].row, worlds[i + 1].run) <==> worlds[i].row.state != Pending && worlds[i].row.state != PermanentFailure
  {
    InvAlways(worlds, steps, i);
    assert Follows(worlds[i + 1], worlds[i], steps[i]);
  }

  lemma ExtendRun(worlds: seq<World>, steps: seq<Step>, a: Step)
    requires Run(worlds, steps) && Enabled(worlds[|steps|], a)
    ensures Run(worlds + [Apply(worlds[|steps|], a)], steps + [a])
  {
    var ws, ss := worlds + [Apply(worlds[|steps|], a)], steps + [a];
    forall i | 0 <= i < |ss| ensures Follows(ws[i + 1], ws[i], ss[i]) {
      if i < |steps| { assert Follows(worlds[i + 1], worlds[i], steps[i]); }
    }
  }

  /** A run followed by one more step. */
  lemma Then(worlds: seq<World>, steps: seq<Step>, a: Step) returns (ws: seq<World>, ss: seq<Step>)
    requires Run(worlds, steps) && Enabled(worlds[|steps|], a)
    ensures Run(ws, ss) && ss == steps + [a] && ws == worlds + [Apply(worlds[|steps|], a)]
    ensures ws[|ss|] == Apply(worlds[|steps|], a)
  {
    ExtendRun(worlds, steps, a);
    ws, ss := worlds + [Apply(worlds[|steps|], a)], steps + [a];
  }

  const FirstRow: Row := Row(Pending, 1, 0, 0, None, 0)
  const FirstClaim: Claim := Claim(2, 1, 300_000)

  /** A first delivery that has claimed the job at time zero and cleared its scratch. */
  const FirstDelivery: World :=
    World(Row(State.Claimed, 2, 1, 1, Some(300_000), 0), None, Some(0), None, map[0 := Prepared(FirstClaim)], 0)

  lemma FirstDeliveryRuns() returns (worlds: seq<World>, steps: seq<Step>)
    ensures Run(worlds, steps) && worlds[|steps|] == FirstDelivery && forall i :: 0 <= i < |steps| ==> !steps[i].Retire?
  {
    worlds, steps := [World(FirstRow, None, None, None, map[], 0)], [];
    worlds, steps := Then(worlds, steps, StartDelivery(0));
    assert worlds[|steps|] == World(FirstRow, None, Some(0), None, map[0 := Loaded(1)], 0);
    worlds, steps := Then(worlds, steps, TakeClaim(0, true));
    assert worlds[|steps|].workers == map[0 := Delivering(FirstClaim)];
    worlds, steps := Then(worlds, steps, ClearScratch(0));
    assert worlds[|steps|].workers == map[0 := Prepared(FirstClaim)];
  }

  /** A delivery records its run and dies; its claim expires and the operator
      retires the job: it is permanently failed although its run is stored. */
  lemma RetiredOverItsRun() returns (worlds: seq<World>, steps: seq<Step>)
    ensures Run(worlds, steps)
    ensures worlds[|steps|].row.state == PermanentFailure && worlds[|steps|].run == Some(7)
  {
    worlds, steps := FirstDeliveryRuns();
    worlds, steps := Then(worlds, steps, Record(0, 7));
    worlds, steps := Then(worlds, steps, Die(0));
    worlds, steps := Then(worlds, steps, Tick(300_000));
    worlds, steps := Then(worlds, steps, Expire);
    var w := worlds[|steps|];
    assert w.row.state == Ambiguous && w.row.revision == 3 && w.run == Some(7);
    worlds, steps := Then(worlds, steps, Retire(3));
  }

  /** An operator verifies by hand under the key of a job not yet delivered: it is
      pending although a run is stored. */
  lemma OperatorRecordsEarly() returns (worlds: seq<World>, steps: seq<Step>)
    ensures Run(worlds, steps) && worlds[|steps|].row.state == Pending && worlds[|steps|].run == Some(7)
  {
    worlds, steps := [World(FirstRow, None, None, None, map[], 0)], [];
    worlds, steps := Then(worlds, steps, StartOther(0));
    worlds, steps := Then(worlds, steps, OperatorRecords(0, 7));
  }

  /** A stored run is never lost: concluding an observation of an ambiguous job
      confirms it with that run. */
  lemma ObservationConfirms(worlds: seq<World>, steps: seq<Step>, i: nat)
    requires Run(worlds, steps) && i < |steps| && steps[i].ConcludeObservation? && worlds[i].run.Some?
    requires ObserveOperation(worlds[i].row, worlds[i].workers[steps[i].tid].revision, Observed(worlds[i].run), worlds[i].clock, worlds[i].run).Ok?
    ensures worlds[i + 1].row.state == State.Confirmed && worlds[i + 1].run == worlds[i].run
  {
    assert Follows(worlds[i + 1], worlds[i], steps[i]);
  }

  // ---------------------------------------------------------------- outcomes

  /** The state a job is in once an outcome that promises no effect is recorded. */
  function Again(row: Row): State { if row.attempts >= 32 then PermanentFailure else Pending }

  /** Over every run, what a delivery whose claim still holds makes of its job: the
      stored run confirms it; without one an unreadable store leaves it ambiguous,
      a changed fence or a cancellation brings it back while attempts are left,
      and any other end gives it up. A claim that no longer holds changes nothing. */
  lemma FinishDecides(worlds: seq<World>, steps: seq<Step>, i: nat)
    requires Run(worlds, steps) && i < |steps| && steps[i].Finish?
    ensures steps[i].tid in worlds[i].workers && worlds[i].workers[steps[i].tid].Done?
    ensures var w, v, a, k := worlds[i], worlds[i + 1], steps[i], worlds[i].workers[steps[i].tid];
            var holds := Matches(w.row, k.claim) && w.clock < k.claim.lease && a.bindingCurrent && w.row.revision < MAX_COUNTER;
            && (!holds ==> v.row == w.row)
            && (holds && w.run.Some? && !a.readFails ==> v.row.state == State.Confirmed)
            && (holds && a.readFails ==> v.row.state == Ambiguous)
            && (holds && w.run.None? && !a.readFails ==>
                  v.row.state == if k.ending == FenceChanged || a.cancelled then Again(w.row) else PermanentFailure)
            && v.run == w.run && a.tid !in v.workers
  {
    assert Follows(worlds[i + 1], worlds[i], steps[i]);
  }

  /** Over every run, a delivery withdrawn before its verifier is entered brings the
      job back while attempts are left, if its claim still holds. */
  lemma WithdrawnComesBack(worlds: seq<World>, steps: seq<Step>, i: nat)
    requires Run(worlds, steps) && i < |steps| && steps[i].Withdraw?
    ensures steps[i].tid in worlds[i].workers && worlds[i].workers[steps[i].tid].Delivering?
    ensures var w, v, c := worlds[i], worlds[i + 1], worlds[i].workers[steps[i].tid].claim;
            && Matches(w.row, c) && steps[i].tid !in v.workers
            && (if w.clock < c.lease && steps[i].bindingCurrent && w.row.revision < MAX_COUNTER
                then v.row.state == Again(w.row) && v.row.attempts == w.row.attempts && v.row.lease.None?
                else v.row == w.row)
  {
    InvAlways(worlds, steps, i);
    assert Follows(worlds[i + 1], worlds[i], steps[i]);
  }

  /** Nothing happens to a job while somebody observes it. */
  lemma {:induction false} ObserverIsCurrent(worlds: seq<World>, steps: seq<Step>, n: nat, t: Tid)
    requires Run(worlds, steps) && n < |worlds| && t in worlds[n].workers && worlds[n].workers[t].Observing?
    ensures worlds[n].row.state == Ambiguous && worlds[n].row.revision == worlds[n].workers[t].revision
  {
    if n > 0 {
      var w, a := worlds[n - 1], steps[n - 1];
      InvAlways(worlds, steps, n - 1);
      assert Follows(worlds[n], w, a);
      if t in w.workers && w.workers[t].Observing? {
        ObserverIsCurrent(worlds, steps, n - 1, t);
        UndisturbedObserver(w, a, t);
      }
    }
  }

  lemma UndisturbedObserver(w: World, a: Step, t: Tid)
    requires Inv(w) && Enabled(w, a) && t in w.workers && w.workers[t].Observing?
    requires t in Apply(w, a).workers && Apply(w, a).workers[t].Observing?
    ensures Apply(w, a).row == w.row && Apply(w, a).workers[t] == w.workers[t]
  {
    assert w.owner == Some(t);
    RowSteps(w, a);
  }

  /** Over every run, an observation confirms the job with the run it finds, and
      finding none brings the job back while attempts are left. */
  lemma ObservationDecides(worlds: seq<World>, steps: seq<Step>, i: nat)
    requires Run(worlds, steps) && i < |steps| && steps[i].ConcludeObservation? && worlds[i].row.revision < MAX_COUNTER
    ensures worlds[i].row.state == Ambiguous
    ensures worlds[i + 1].row.state == if worlds[i].run.Some? then State.Confirmed else Again(worlds[i].row)
    ensures worlds[i + 1].run == worlds[i].run && worlds[i + 1].row.attempts == worlds[i].row.attempts && steps[i].tid !in worlds[i + 1].workers
  {
    assert Follows(worlds[i + 1], worlds[i], steps[i]);
    ObserverIsCurrent(worlds, steps, i, steps[i].tid);
  }

  /** A verifier's ending reaches its delivery as it was, and a verdict comes with
      a stored run: the first one ever stored. */
  lemma EndingsAreKept(worlds: seq<World>, steps: seq<Step>, i: nat)
    requires Run(worlds, steps) && i < |steps| && (steps[i].Return? || steps[i].Record?)
    ensures var w, v, a := worlds[i], worlds[i + 1], steps[i];
            && a.tid in w.workers && HasClaim(w.workers[a.tid]) && a.tid in v.workers
            && v.workers[a.tid] == Done(w.workers[a.tid].claim, if a.Return? then a.ending else Verdict)
            && (a.Return? ==> v.run == w.run) && (a.Record? ==> v.run == if w.run.Some? then w.run else Some(a.run))
  {
    assert Follows(worlds[i + 1], worlds[i], steps[i]);
  }

  /** Over every run, a verifier enters its check, and records, only under a claim
      that the row carries; regaining the project under any other ends it without
      a verdict. */
  lemma RegainedJudgesTheClaim(worlds: seq<World>, steps: seq<Step>, i: nat)
    requires Run(worlds, steps) && i < |steps| && steps[i].Reacquire?
    ensures steps[i].tid in worlds[i].workers && worlds[i].workers[steps[i].tid].Widening? && steps[i].tid in worlds[i + 1].workers
    ensures var w, c, k := worlds[i], worlds[i].workers[steps[i].tid].claim, worlds[i + 1].workers[steps[i].tid];
            if Matches(w.row, c) && w.clock < c.lease && steps[i].bindingCurrent then k == Regained(c) else k == Done(c, FenceChanged)
  {
    assert Follows(worlds[i + 1], worlds[i], steps[i]);
  }

  // ---------------------------------------------------------------- late verifiers

  /** A row claimed later than `w` was claimed under a later epoch. */
  lemma {:induction false} LaterClaimsAreNewer(worlds: seq<World>, steps: seq<Step>, i: nat, j: nat)
    requires Run(worlds, steps) && i <= j < |worlds| && worlds[i].row.state != State.Claimed
    ensures worlds[j].row.epoch >= worlds[i].row.epoch
    ensures worlds[j].row.state == State.Claimed ==> worlds[j].row.epoch > worlds[i].row.epoch
  {
    if j > i {
      LaterClaimsAreNewer(worlds, steps, i, j - 1);
      assert Follows(worlds[j], worlds[j - 1], steps[j - 1]);
      RowSteps(worlds[j - 1], steps[j - 1]);
    }
  }

  /** Once an observation is concluded, no verifier that was claimed before it
      ever records: a later recording is made under a later claim. */
  lemma LateVerifierNeverRecords(worlds: seq<World>, steps: seq<Step>, i: nat, j: nat)
    requires Run(worlds, steps) && i < j < |steps|
    requires steps[i].ConcludeObservation? && worlds[i + 1].row != worlds[i].row
    requires steps[j].Record?
    ensures worlds[j].workers[steps[j].tid].claim.epoch > worlds[i].row.epoch
    ensures forall t :: t in worlds[i].workers && HasClaim(worlds[i].workers[t]) ==>
      worlds[i].workers[t].claim != worlds[j].workers[steps[j].tid].claim
  {
    InvAlways(worlds, steps, i);
    InvAlways(worlds, steps, j);
    assert Follows(worlds[i + 1], worlds[i], steps[i]);
    assert Follows(worlds[j + 1], worlds[j], steps[j]);
    LaterClaimsAreNewer(worlds, steps, i + 1, j);
    assert Matches(worlds[j].row, worlds[j].workers[steps[j].tid].claim);
  }

  // ---------------------------------------------------------------- scratch

  /** Retiring a job while somebody holds its scratch fence. */
  predicate Exposes(w: World, a: Step) {
    a.Retire? && RetireOperation(w.row, a.expected, w.clock, w.run).Ok? && w.fence.Some?
  }

  predicate Checks(w: World, t: Tid) { t in w.workers && w.workers[t].Checking? }

  /** A running check pins the row: it is claimed by that check, ambiguous or
      confirmed, so nobody can claim it. */
  predicate Pinned(row: Row, claim: Claim) {
    Matches(row, claim) || row.state == Ambiguous || row.state == State.Confirmed
  }

  ghost predicate ChecksPin(w: World) {
    forall t :: Checks(w, t) ==> Pinned(w.row, w.workers[t].claim)
  }

  /** Nobody else can finish the job while a check pins it. */
  lemma OnlyTheCheckFinishes(w: World, t: Tid, u: Tid)
    requires Inv(w) && Checks(w, t) && Pinned(w.row, w.workers[t].claim)
    requires u in w.workers && HasClaim(w.workers[u]) && t != u
    ensures !Matches(w.row, w.workers[u].claim)
  {
    assert w.workers[t].claim.epoch != w.workers[u].claim.epoch;
  }

  lemma PinnedThroughRow(w: World, a: Step, t: Tid)
    requires Inv(w) && Checks(w, t) && Pinned(w.row, w.workers[t].claim) && Enabled(w, a) && !Exposes(w, a)
    requires Checks(Apply(w, a), t)
    ensures Pinned(Apply(w, a).row, w.workers[t].claim)
  {
    if a.Withdraw? || a.Finish? {
      OnlyTheCheckFinishes(w, t, a.tid);
    }
    assert w.fence == Some(t);
  }

  lemma PinnedKept(w: World, a: Step, t: Tid)
    requires Inv(w) && ChecksPin(w) && Enabled(w, a) && !Exposes(w, a) && Checks(Apply(w, a), t)
    ensures Pinned(Apply(w, a).row, Apply(w, a).workers[t].claim)
  {
    if Checks(w, t) {
      PinnedThroughRow(w, a, t);
    }
  }

  lemma {:induction false} ChecksPinAlways(worlds: seq<World>, steps: seq<Step>, n: nat)
    requires Run(worlds, steps) && n < |worlds| && forall i :: 0 <= i < n ==> !Exposes(worlds[i], steps[i])
    ensures ChecksPin(worlds[n])
  {
    if n > 0 {
      ChecksPinAlways(worlds, steps, n - 1);
      InvAlways(worlds, steps, n - 1);
      assert Follows(worlds[n], worlds[n - 1], steps[n - 1]);
      forall t | Checks(worlds[n], t) ensures Pinned(worlds[n].row, worlds[n].workers[t].claim) {
        PinnedKept(worlds[n - 1], steps[n - 1], t);
      }
    }
  }

  /** The steps that remove the scratch directory: a delivery's start, a returned
      verifier that owns the project, an observation that found no run. */
  predicate Clears(w: World, a: Step) {
    a.ClearScratch? || a.Tidy? || (a.ConcludeObservation? && w.run.None?)
  }

  /** Over every run in which no job was retired while its fence was held, the
      scratch is removed under a running check exactly when a verifier returns
      late: its claim is no longer the row's and another check has the fence. */
  lemma ScratchIsNotPulledAway(worlds: seq<World>, steps: seq<Step>, n: nat)
    requires Run(worlds, steps) && n < |steps| && Clears(worlds[n], steps[n])
    requires forall i :: 0 <= i < n ==> !Exposes(worlds[i], steps[i])
    ensures (exists t: Tid :: Checks(worlds[n], t)) <==>
            steps[n].Tidy? && !Matches(worlds[n].row, worlds[n].workers[steps[n].tid].claim) && worlds[n].fence.Some?
  {
    var w, a := worlds[n], steps[n];
    InvAlways(worlds, steps, n);
    ChecksPinAlways(worlds, steps, n);
    assert Follows(worlds[n + 1], w, a);
    if t: Tid :| Checks(w, t) {
      assert w.fence == Some(t);
      if a.ClearScratch? || a.Tidy? { OnlyTheCheckFinishes(w, t, a.tid); }
    }
    if w.fence.Some? { assert Checks(w, w.fence.value); }
  }

  /** A late return does that without any retirement: the fence is dropped before
      the project is regained, and in between the job is observed, delivered
      again and checked again. */
  lemma LateReturnPullsScratchAway() returns (worlds: seq<World>, steps: seq<Step>)
    ensures Run(worlds, steps) && (forall i :: 0 <= i < |steps| ==> !steps[i].Retire?)
    ensures Enabled(worlds[|steps|], Tidy(0)) && Checks(worlds[|steps|], 2)
  {
    worlds, steps := FirstDeliveryRuns();
    worlds, steps := Then(worlds, steps, Release(0));
    worlds, steps := Then(worlds, steps, Tick(300_000));
    worlds, steps := Then(worlds, steps, Expire);
    worlds, steps := Then(worlds, steps, BeginWiden(0));
    assert worlds[|steps|] == World(Row(Ambiguous, 3, 2, 1, None, 301_000), None, None, None, map[0 := Widening(FirstClaim)], 300_000);
    worlds, steps := ObservedWhileWidening(worlds, steps);
    worlds, steps := CheckedAgain(worlds, steps);
    worlds, steps := Then(worlds, steps, Reacquire(0, true));
  }

  lemma ObservedWhileWidening(before: seq<World>, done: seq<Step>) returns (worlds: seq<World>, steps: seq<Step>)
    requires Run(before, done) && forall i :: 0 <= i < |done| ==> !done[i].Retire?
    requires before[|done|] == World(Row(Ambiguous, 3, 2, 1, None, 301_000), None, None, None, map[0 := Widening(FirstClaim)], 300_000)
    ensures Run(worlds, steps) && forall i :: 0 <= i < |steps| ==> !steps[i].Retire?
    ensures worlds[|steps|] == World(Row(Pending, 4, 2, 1, None, 301_000), None, None, None, map[0 := Widening(FirstClaim)], 301_000)
  {
    worlds, steps := Then(before, done, StartObservation(1));
    worlds, steps := Then(worlds, steps, ConcludeObservation(1));
    assert worlds[|steps|].workers == map[0 := Widening(FirstClaim)];
    worlds, steps := Then(worlds, steps, Tick(1_000));
  }

  lemma CheckedAgain(before: seq<World>, done: seq<Step>) returns (worlds: seq<World>, steps: seq<Step>)
    requires Run(before, done) && forall i :: 0 <= i < |done| ==> !done[i].Retire?
    requires before[|done|] == World(Row(Pending, 4, 2, 1, None, 301_000), None, None, None, map[0 := Widening(FirstClaim)], 301_000)
    ensures Run(worlds, steps) && forall i :: 0 <= i < |steps| ==> !steps[i].Retire?
    ensures var w := worlds[|steps|];
            w.workers == map[0 := Widening(FirstClaim), 2 := Checking(Claim(5, 3, 601_000))] && w.owner.None? && w.row.epoch == 3
  {
    worlds, steps := Then(before, done, StartDelivery(2));
    worlds, steps := Then(worlds, steps, TakeClaim(2, true));
    assert worlds[|steps|].workers == map[0 := Widening(FirstClaim), 2 := Delivering(Claim(5, 3, 601_000))];
    worlds, steps := Then(worlds, steps, ClearScratch(2));
    worlds, steps := Then(worlds, steps, Release(2));
  }

  /** Why retirement must wait for the fence: from any moment of any run at which
      it did not, as long as claims and counters are not used up, resetting and
      delivering the job again comes to clear the scratch under that very check. */
  lemma RetirementPullsScratchAway(before: seq<World>, done: seq<Step>, a: Step, u: Tid) returns (worlds: seq<World>, steps: seq<Step>)
    requires Run(before, done) && Enabled(before[|done|], a) && Exposes(before[|done|], a) && u !in before[|done|].workers
    requires var row := before[|done|].row; row.attempts < MAX_ATTEMPTS && row.revision + 3 <= MAX_COUNTER && row.epoch < MAX_COUNTER
    ensures Run(worlds, steps) && before <= worlds && done <= steps && Enabled(worlds[|steps|], ClearScratch(u))
    ensures Checks(worlds[|steps|], before[|done|].fence.value)
  {
    var w := before[|done|];
    InvAlways(before, done, |done|);
    var t := w.fence.value;
    assert Checks(w, t);
    worlds, steps := Then(before, done, a);
    worlds, steps := Then(worlds, steps, Reset(w.row.revision + 1));
    worlds, steps := Then(worlds, steps, StartDelivery(u));
    worlds, steps := Then(worlds, steps, TakeClaim(u, true));
  }

  /** Such a moment exists: a check whose claim expired while it ran. */
  lemma FenceHeldWhenRetired() returns (worlds: seq<World>, steps: seq<Step>)
    ensures Run(worlds, steps) && Enabled(worlds[|steps|], Retire(3)) && Exposes(worlds[|steps|], Retire(3))
  {
    worlds, steps := FirstDeliveryRuns();
    worlds, steps := Then(worlds, steps, Release(0));
    worlds, steps := Then(worlds, steps, Tick(300_000));
    worlds, steps := Then(worlds, steps, Expire);
  }

  // ---------------------------------------------------------------- one lane

  /** A delivery or an observation, as opposed to any other effect. */
  predicate IsJob(k: Worker) { !k.Other? }

  /** The lane starts a job only when none is in flight. */
  predicate LaneStarts(w: World, a: Step) {
    a.StartDelivery? || a.StartObservation? ==> forall t :: t in w.workers ==> !IsJob(w.workers[t])
  }

  ghost predicate Solo(w: World) {
    forall t, u :: t in w.workers && u in w.workers && IsJob(w.workers[t]) && IsJob(w.workers[u]) ==> t == u
  }

  /** A step changes no job into another effect or back, and starts at most one. */
  lemma JobBefore(w: World, a: Step, t: Tid)
    requires Enabled(w, a) && t in Apply(w, a).workers && IsJob(Apply(w, a).workers[t])
    ensures (t in w.workers && IsJob(w.workers[t])) || ((a.StartDelivery? || a.StartObservation?) && a.tid == t)
  {
  }

  lemma SoloKept(w: World, a: Step)
    requires Solo(w) && Enabled(w, a) && LaneStarts(w, a)
    ensures Solo(Apply(w, a))
  {
    var v := Apply(w, a);
    forall t, u | t in v.workers && u in v.workers && IsJob(v.workers[t]) && IsJob(v.workers[u]) ensures t == u {
      JobBefore(w, a, t);
      JobBefore(w, a, u);
    }
  }

  lemma {:induction false} SoloAlways(worlds: seq<World>, steps: seq<Step>, n: nat)
    requires Run(worlds, steps) && n < |worlds| && forall i :: 0 <= i < n ==> LaneStarts(worlds[i], steps[i])
    ensures Solo(worlds[n])
  {
    if n > 0 {
      SoloAlways(worlds, steps, n - 1);
      assert Follows(worlds[n], worlds[n - 1], steps[n - 1]);
      assert LaneStarts(worlds[n - 1], steps[n - 1]);
      SoloKept(worlds[n - 1], steps[n - 1]);
    }
  }

  /** Over every run of one lane, with deaths, expiry, retirement and manual
      verification, nobody ever removes the scratch under a running check. */
  lemma LaneKeepsScratch(worlds: seq<World>, steps: seq<Step>, n: nat, t: Tid)
    requires Run(worlds, steps) && n < |steps| && Clears(worlds[n], steps[n])
    requires forall i :: 0 <= i < n ==> LaneStarts(worlds[i], steps[i])
    ensures !Checks(worlds[n], t)
  {
    SoloAlways(worlds, steps, n);
    assert Follows(worlds[n + 1], worlds[n], steps[n]);
  }

  /** So a run in which that happens started a job beside another one. */
  lemma PulledAwayOffTheLane(worlds: seq<World>, steps: seq<Step>, n: nat, t: Tid)
    requires Run(worlds, steps) && n < |steps| && Clears(worlds[n], steps[n]) && Checks(worlds[n], t)
    ensures exists i :: 0 <= i < n && !LaneStarts(worlds[i], steps[i])
  {
    if forall i :: 0 <= i < n ==> LaneStarts(worlds[i], steps[i]) {
      LaneKeepsScratch(worlds, steps, n, t);
    }
  }
}
