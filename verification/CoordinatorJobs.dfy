/** Coordinator startup and priming: durable claims around two external
    commands, `agent.start` and `agent.prompt`, each submitted at most once per
    request although any process may die at any point. */
module CoordinatorJobs {
  import opened Results

  datatype Phase = Pending | Confirmed | Uncertain
  datatype Kind = Start | Prime

  /** What a command was aimed at: the recorded session and pane, and the
      request. The source keeps an injective digest of it. */
  datatype Execution = Execution(route: string, request: nat)

  /** A start claim calls its request the generation. */
  datatype Claim = Claim(request: nat, sequence: nat, execution: Execution, phase: Phase, error: string, notified: bool)

  /** The durable record. `route` stands for session, workspace, tab, pane,
      agent name and working directory. */
  datatype Coordinator = Coordinator(
    route: string, hasPane: bool, primePending: bool, primeRequest: nat,
    primeSequence: nat, primeClaim: Option<Claim>,
    launchSequence: nat, launchClaim: Option<Claim>, launchAttempts: nat)

  const MAX_COUNTER: nat := 0x7fff_ffff_ffff_ffff
  const MAX_LAUNCH_ATTEMPTS: nat := 3

  function ExecutionOf(c: Coordinator): Execution { Execution(c.route, c.primeRequest) }

  function ClaimOf(c: Coordinator, kind: Kind): Option<Claim> {
    if kind == Prime then c.primeClaim else c.launchClaim
  }

  function SequenceOf(c: Coordinator, kind: Kind): nat {
    if kind == Prime then c.primeSequence else c.launchSequence
  }

  function WithClaim(c: Coordinator, kind: Kind, claim: Claim): Coordinator {
    if kind == Prime then c.(primeClaim := Some(claim)) else c.(launchClaim := Some(claim))
  }

  predicate ValidClaim(claim: Claim, sequence: nat, request: nat) {
    && claim.request <= request
    && claim.sequence == sequence && 0 < sequence
    && match claim.phase
       case Pending => claim.error == "" && !claim.notified
       case Confirmed => claim.error == "" && claim.notified
       case Uncertain => claim.error != ""
  }

  predicate IsPending(claim: Option<Claim>) { claim.Some? && claim.value.phase == Pending }

  predicate Settled(claim: Option<Claim>) {
    claim.Some? ==> claim.value.phase != Pending && claim.value.notified
  }

  predicate Validate(c: Coordinator) {
    && c.primeRequest <= MAX_COUNTER && c.primeSequence <= MAX_COUNTER && c.launchSequence <= MAX_COUNTER
    && (c.primeClaim.Some? ==> ValidClaim(c.primeClaim.value, c.primeSequence, c.primeRequest))
    && (c.launchClaim.Some? ==> ValidClaim(c.launchClaim.value, c.launchSequence, c.primeRequest))
    && !(IsPending(c.launchClaim) && IsPending(c.primeClaim))
  }

  /** No start is in doubt for this request. */
  predicate StartKnown(c: Coordinator, request: nat) {
    c.launchClaim.Some? ==>
      c.launchClaim.value.phase != Pending && (c.launchClaim.value.phase == Uncertain ==> c.launchClaim.value.request != request)
  }

  predicate ReadyToPrime(c: Coordinator) {
    && Validate(c)
    && Settled(c.launchClaim) && StartKnown(c, c.primeRequest)
    && c.primePending && c.hasPane
    && Settled(c.primeClaim) && (c.primeClaim.Some? ==> c.primeClaim.value.request != c.primeRequest)
  }

  predicate ReadyToStart(c: Coordinator) {
    && ReadyToPrime(c) && c.launchAttempts < MAX_LAUNCH_ATTEMPTS
    && (c.launchClaim.Some? ==> c.launchClaim.value.request != c.primeRequest)
  }

  predicate Ready(c: Coordinator, kind: Kind) {
    if kind == Prime then ReadyToPrime(c) else ReadyToStart(c)
  }

  function NewClaim(c: Coordinator, kind: Kind): Claim {
    Claim(c.primeRequest, SequenceOf(c, kind) + 1, ExecutionOf(c), Pending, "", false)
  }

  /** The record once the claim is durable. */
  function Claimed(c: Coordinator, kind: Kind): Coordinator {
    var claim := NewClaim(c, kind);
    if kind == Prime then c.(primeSequence := claim.sequence, primeClaim := Some(claim))
    else c.(launchSequence := claim.sequence, launchClaim := Some(claim), launchAttempts := c.launchAttempts + 1)
  }

  /** The record once the command's acknowledgement is durable. */
  function Acknowledged(c: Coordinator, kind: Kind, claim: Claim): Coordinator {
    var confirmed := claim.(phase := Confirmed, notified := true);
    if kind == Prime then c.(primeClaim := Some(confirmed), primePending := false)
    else c.(launchClaim := Some(confirmed))
  }

  // ---------------------------------------------------------------- recovery

  /** A notice names the one claim it is about. */
  datatype Notice = Notice(kind: Kind, request: nat, sequence: nat)

  /** Everything recovery reads or writes. */
  datatype Durable = Durable(record: Option<Coordinator>, inbox: set<Notice>)

  function NoticeOf(kind: Kind, claim: Claim): Notice { Notice(kind, claim.request, claim.sequence) }

  /** Stands for the operator-facing sentence the source stores. */
  function Interrupted(kind: Kind): (r: string)
    ensures r != ""
  {
    if kind == Prime then "prime" else "start"
  }

  /** Durable writes that settling one claim still takes. */
  function ClaimWork(claim: Option<Claim>, kind: Kind, inbox: set<Notice>): nat {
    if claim.None? then 0
    else
      match claim.value.phase
      case Pending => if NoticeOf(kind, claim.value) in inbox then 2 else 3
      case Uncertain =>
        if claim.value.notified then 0
        else if NoticeOf(kind, claim.value) in inbox then 1
        else 2
      case Confirmed => 0
  }

  /** One durable write towards settling the claim of one kind. */
  function SettleStep(c: Coordinator, inbox: set<Notice>, kind: Kind): Durable
    requires ClaimOf(c, kind).Some?
  {
    var claim := ClaimOf(c, kind).value;
    if claim.phase == Pending then
      Durable(Some(WithClaim(c, kind, claim.(phase := Uncertain, error := Interrupted(kind)))), inbox)
    else if NoticeOf(kind, claim) !in inbox then
      Durable(Some(c), inbox + {NoticeOf(kind, claim)})
    else
      Durable(Some(WithClaim(c, kind, claim.(notified := true))), inbox)
  }

  function KindWork(d: Durable, kind: Kind): nat {
    if d.record.None? || !Validate(d.record.value) then 0 else ClaimWork(ClaimOf(d.record.value, kind), kind, d.inbox)
  }

  function Work(d: Durable): nat { KindWork(d, Start) + KindWork(d, Prime) }

  /** One durable write of recovery, or nothing left to write: the start claim
      is settled before the priming claim. */
  function RecoverStep(d: Durable): Durable {
    if KindWork(d, Start) > 0 then SettleStep(d.record.value, d.inbox, Start)
    else if KindWork(d, Prime) > 0 then SettleStep(d.record.value, d.inbox, Prime)
    else d
  }

  function Other(kind: Kind): Kind { if kind == Prime then Start else Prime }

  /** A changed outcome keeps the record valid, and what the other claim needs. */
  lemma OutcomeKeeps(c: Coordinator, kind: Kind, claim: Claim)
    requires Validate(c) && ClaimOf(c, kind).Some? && claim.phase == Uncertain && claim.error != ""
    requires claim.request == ClaimOf(c, kind).value.request && claim.sequence == ClaimOf(c, kind).value.sequence
    ensures Validate(WithClaim(c, kind, claim))
    ensures ClaimOf(WithClaim(c, kind, claim), kind) == Some(claim)
    ensures ClaimOf(WithClaim(c, kind, claim), Other(kind)) == ClaimOf(c, Other(kind))
  {
  }

  lemma SettleWorks(c: Coordinator, inbox: set<Notice>, kind: Kind)
    requires Validate(c) && ClaimWork(ClaimOf(c, kind), kind, inbox) > 0
    ensures var e := SettleStep(c, inbox, kind);
            && e.record.Some? && Validate(e.record.value)
            && ClaimWork(ClaimOf(e.record.value, kind), kind, e.inbox) == ClaimWork(ClaimOf(c, kind), kind, inbox) - 1
            && ClaimWork(ClaimOf(e.record.value, Other(kind)), Other(kind), e.inbox) == ClaimWork(ClaimOf(c, Other(kind)), Other(kind), inbox)
  {
    var claim := ClaimOf(c, kind).value;
    if claim.phase == Pending {
      OutcomeKeeps(c, kind, claim.(phase := Uncertain, error := Interrupted(kind)));
    } else if NoticeOf(kind, claim) in inbox {
      assert ValidClaim(claim, SequenceOf(c, kind), c.primeRequest);
      OutcomeKeeps(c, kind, claim.(notified := true));
    }
  }

  lemma StepWorks(d: Durable)
    ensures Work(d) > 0 ==> Work(RecoverStep(d)) == Work(d) - 1
    ensures Work(d) == 0 ==> RecoverStep(d) == d
  {
    if KindWork(d, Start) > 0 {
      SettleWorks(d.record.value, d.inbox, Start);
    } else if KindWork(d, Prime) > 0 {
      SettleWorks(d.record.value, d.inbox, Prime);
    }
  }

  /** Recovery, uninterrupted. */
  function Recover(d: Durable): Durable
    decreases Work(d)
  {
    StepWorks(d);
    if Work(d) == 0 then d else Recover(RecoverStep(d))
  }

  /** Recovery that dies after some durable writes. */
  function RecoverPartly(d: Durable, writes: nat): Durable
    decreases writes
  {
    if writes == 0 then d else RecoverPartly(RecoverStep(d), writes - 1)
  }

  /** Any number of interrupted recoveries, one after the other. */
  function RecoverRepeatedly(d: Durable, deaths: seq<nat>): Durable
    decreases |deaths|
  {
    if deaths == [] then d else RecoverRepeatedly(RecoverPartly(d, deaths[0]), deaths[1..])
  }

  lemma {:induction false} RecoverConverges(d: Durable, writes: nat)
    ensures Recover(RecoverPartly(d, writes)) == Recover(d)
    decreases writes
  {
    StepWorks(d);
    if writes > 0 {
      RecoverConverges(RecoverStep(d), writes - 1);
    }
  }

  /** Wherever recovery died, and however often, running it again ends in the
      state an uninterrupted recovery reaches. */
  lemma {:induction false} RecoverAfterAnyDeaths(d: Durable, deaths: seq<nat>)
    ensures Recover(RecoverRepeatedly(d, deaths)) == Recover(d)
    decreases |deaths|
  {
    if deaths != [] {
      RecoverAfterAnyDeaths(RecoverPartly(d, deaths[0]), deaths[1..]);
      RecoverConverges(d, deaths[0]);
    }
  }

  /** How recovery may change a claim: a confirmed one never, any other only in
      its outcome, and it is marked notified only once its own notice is filed. */
  predicate ClaimRecovered(kind: Kind, before: Option<Claim>, after: Option<Claim>, inbox: set<Notice>) {
    && before.Some? == after.Some?
    && (before.Some? ==>
          var b, a := before.value, after.value;
          && a == b.(phase := a.phase, error := a.error, notified := a.notified)
          && (b.phase == Confirmed || a.phase == Confirmed || a.phase == Pending ==> a == b)
          && (b.phase == Uncertain ==> a.error == b.error && (b.notified ==> a == b))
          && (a.notified && !b.notified ==> NoticeOf(kind, b) in inbox))
  }

  predicate OnlyClaimsChanged(d: Durable, e: Durable) {
    && d.inbox <= e.inbox && d.record.Some? == e.record.Some?
    && (d.record.Some? ==>
          var c, r := d.record.value, e.record.value;
          && r == c.(primeClaim := r.primeClaim, launchClaim := r.launchClaim)
          && (Validate(c) ==> Validate(r)))
  }

  predicate Recovered(d: Durable, e: Durable, kind: Kind) {
    d.record.Some? && e.record.Some? ==> ClaimRecovered(kind, ClaimOf(d.record.value, kind), ClaimOf(e.record.value, kind), e.inbox)
  }

  lemma StepKeeps(d: Durable)
    ensures OnlyClaimsChanged(d, RecoverStep(d))
  {
    if KindWork(d, Start) > 0 {
      SettleWorks(d.record.value, d.inbox, Start);
    } else if KindWork(d, Prime) > 0 {
      SettleWorks(d.record.value, d.inbox, Prime);
    }
  }

  lemma StepRecovers(d: Durable, kind: Kind)
    ensures Recovered(d, RecoverStep(d), kind)
  {
  }

  lemma {:induction false} RecoverKeeps(d: Durable)
    ensures OnlyClaimsChanged(d, Recover(d))
    ensures Work(Recover(d)) == 0
    decreases Work(d)
  {
    StepWorks(d);
    if Work(d) > 0 {
      StepKeeps(d);
      RecoverKeeps(RecoverStep(d));
    }
  }

  lemma {:induction false} RecoverClaims(d: Durable, kind: Kind)
    ensures Recovered(d, Recover(d), kind)
    decreases Work(d)
  {
    StepWorks(d);
    if Work(d) > 0 {
      StepKeeps(d);
      StepRecovers(d, kind);
      RecoverKeeps(RecoverStep(d));
      RecoverClaims(RecoverStep(d), kind);
    }
  }

  /** Recovery of a valid record ends with no pending claim and every uncertain
      claim notified, each newly notified one under a notice of its own;
      confirmed claims, counters and the pending flag are untouched, the record
      is still valid, and recovering again changes nothing. */
  lemma RecoverySettles(d: Durable)
    requires d.record.Some? && Validate(d.record.value)
    ensures Recover(d).record.Some? && Validate(Recover(d).record.value)
    ensures OnlyClaimsChanged(d, Recover(d)) && Recovered(d, Recover(d), Start) && Recovered(d, Recover(d), Prime)
    ensures Settled(Recover(d).record.value.launchClaim) && Settled(Recover(d).record.value.primeClaim)
    ensures Recover(Recover(d)) == Recover(d)
  {
    RecoverKeeps(d);
    RecoverClaims(d, Start);
    RecoverClaims(d, Prime);
  }

  lemma SettleIsStep(d: Durable, kind: Kind)
    requires KindWork(d, kind) > 0 && (kind == Prime ==> KindWork(d, Start) == 0)
    ensures var e := SettleStep(d.record.value, d.inbox, kind);
            && e == RecoverStep(d) && Recover(e) == Recover(d)
            && e.record.Some? && Validate(e.record.value)
            && KindWork(e, kind) == KindWork(d, kind) - 1 && (kind == Prime ==> KindWork(e, Start) == 0)
  {
    StepWorks(d);
    SettleWorks(d.record.value, d.inbox, kind);
  }

  /** The two durable files recovery works on. */
  class ProjectFiles {
    var record: Option<Coordinator>
    var inbox: set<Notice>

    function Contents(): Durable
      reads this
    {
      Durable(record, inbox)
    }

    /** Settles the claim of one kind: marks a pending one uncertain, files its
        notice, then marks it notified. The start claim goes first. */
    method Settle(kind: Kind) returns (ok: bool)
      requires kind == Prime ==> KindWork(Contents(), Start) == 0
      modifies this
      ensures ok == (old(record).None? || Validate(old(record).value))
      ensures !ok ==> Contents() == old(Contents())
      ensures KindWork(Contents(), kind) == 0 && (kind == Prime ==> KindWork(Contents(), Start) == 0)
      ensures Recover(Contents()) == Recover(old(Contents()))
    {
      if record.None? { return true; }
      if !Validate(record.value) { return false; }
      if ClaimOf(record.value, kind).None? { return true; }
      var claim := ClaimOf(record.value, kind).value;
      if claim.phase == Pending {
        SettleIsStep(Contents(), kind);
        claim := claim.(phase := Uncertain, error := Interrupted(kind));
        record := Some(WithClaim(record.value, kind, claim));
      }
      if claim.phase == Uncertain && !claim.notified {
        if NoticeOf(kind, claim) !in inbox {
          SettleIsStep(Contents(), kind);
          inbox := inbox + {NoticeOf(kind, claim)};
        }
        SettleIsStep(Contents(), kind);
        record := Some(WithClaim(record.value, kind, claim.(notified := true)));
      }
      return true;
    }

    /** Refuses an invalid record untouched; otherwise ends as `Recover` says. */
    method RecoverClaims() returns (ok: bool)
      modifies this
      ensures ok == (old(record).None? || Validate(old(record).value))
      ensures Contents() == Recover(old(Contents()))
    {
      RecoverKeeps(Contents());
      ok := Settle(Start);
      if ok {
        RecoverKeeps(Contents());
        ok := Settle(Prime);
      }
    }
  }

  // ---------------------------------------------------------------- runs

  /** A worker's frozen input, possibly long out of date. */
  datatype Input = Input(execution: Execution, sequence: nat)

  datatype Stage =
    | Entered
    | Checked
    | Observed(seen: Coordinator)
    | Holding(claim: Claim)
    | Sending(claim: Claim, delivered: bool)
    | Replied(claim: Claim)

  /** Who holds the project, or the whole root, exclusively. A supervisor keeps
      its copy of the lock when the worker that started it dies. */
  datatype Holder =
    | Free
    | Worker(kind: Kind, input: Input, stage: Stage)
    | Supervisor(kind: Kind, claim: Claim, delivered: bool)
    | Recoverer
    | Opener(history: Option<Coordinator>, alive: bool, reprime: bool)

  /** A command that reached the terminal manager. */
  datatype Message = Message(kind: Kind, request: nat)

  datatype World = World(durable: Durable, holder: Holder, log: seq<Message>)

  datatype Step =
    | Enter(kind: Kind, input: Input)
    | Check
    | Observe
    | MakeClaim
    | Submit
    | Deliver
    | Reply
    | Confirm
    | Leave
    | Die
    | SupervisorEnds
    | BeginRecovery
    | RecoveryWrite
    | BeginOpen(alive: bool, reprime: bool)
    | OpenReprimes
    | OpenWrites(route: string, hasPane: bool)
    | EditRoute(route: string, hasPane: bool)

  predicate Matches(c: Option<Coordinator>, input: Input) {
    c.Some? && ExecutionOf(c.value) == input.execution
  }

  predicate Unchanged(c: Option<Coordinator>, w: Holder, claim: Claim)
    requires w.Worker?
  {
    Matches(c, w.input) && c.value.primePending && ClaimOf(c.value, w.kind) == Some(claim)
  }

  /** Whether `open` refuses because the current request is already claimed. */
  predicate AlreadyClaimed(c: Coordinator) {
    || (c.launchClaim.Some? && (c.launchClaim.value.request == c.primeRequest || c.launchClaim.value.phase == Pending))
    || (c.primeClaim.Some? && (c.primeClaim.value.request == c.primeRequest || c.primeClaim.value.phase == Pending))
  }

  function Reopened(history: Option<Coordinator>, route: string, hasPane: bool): Coordinator {
    if history.None? then Coordinator(route, hasPane, true, 1, 0, None, 0, None, 0)
    else
      var c := history.value;
      Coordinator(route, hasPane, true, c.primeRequest + 1, c.primeSequence, c.primeClaim, c.launchSequence, c.launchClaim, 0)
  }

  predicate Enabled(w: World, s: Step) {
    var record := w.durable.record;
    var h := w.holder;
    match s
    case Enter(_, _) => h.Free?
    case Check => h.Worker? && h.stage.Entered? && Matches(record, h.input) && Ready(record.value, h.kind) && SequenceOf(record.value, h.kind) == h.input.sequence
    case Observe => h.Worker? && h.stage.Checked? && Matches(record, h.input) && Ready(record.value, h.kind)
    case MakeClaim => h.Worker? && h.stage.Observed? && record == Some(h.stage.seen) && SequenceOf(h.stage.seen, h.kind) < MAX_COUNTER
    case Submit => h.Worker? && h.stage.Holding? && Unchanged(record, h, h.stage.claim)
    case Deliver => (h.Worker? && h.stage.Sending? && !h.stage.delivered) || (h.Supervisor? && !h.delivered)
    case Reply => h.Worker? && h.stage.Sending? && h.stage.delivered
    case Confirm => h.Worker? && h.stage.Replied? && Unchanged(record, h, h.stage.claim)
    case Leave => h.Worker? || h.Recoverer? || h.Opener?
    case Die => h.Worker? || h.Recoverer? || h.Opener?
    case SupervisorEnds => h.Supervisor?
    case BeginRecovery => h.Free?
    case RecoveryWrite => h.Recoverer?
    case BeginOpen(alive, _) => h.Free? && (record.Some? ==> Validate(record.value)) && (alive ==> record.Some?)
    case OpenReprimes => h.Opener? && h.alive && h.reprime && record.Some? && record.value.primeRequest < MAX_COUNTER
    case OpenWrites(_, _) =>
      && h.Opener? && !h.alive
      && (h.history.Some? ==> (h.reprime || !AlreadyClaimed(h.history.value)) && h.history.value.primeRequest < MAX_COUNTER)
    case EditRoute(_, _) => record.Some?
  }

  function WithRecord(w: World, c: Coordinator): World { w.(durable := w.durable.(record := Some(c))) }

  function At(w: World, stage: Stage): World
    requires w.holder.Worker?
  {
    w.(holder := w.holder.(stage := stage))
  }

  function Apply(w: World, s: Step): World
    requires Enabled(w, s)
  {
    var record := w.durable.record;
    var h := w.holder;
    match s
    case Enter(kind, input) => w.(holder := Worker(kind, input, Entered))
    case Check => At(w, Checked)
    case Observe => At(w, Observed(record.value))
    case MakeClaim => At(WithRecord(w, Claimed(record.value, h.kind)), Holding(NewClaim(record.value, h.kind)))
    case Submit => At(w, Sending(h.stage.claim, false))
    case Deliver =>
      if h.Worker? then At(w, Sending(h.stage.claim, true)).(log := w.log + [Message(h.kind, h.stage.claim.request)])
      else w.(holder := h.(delivered := true), log := w.log + [Message(h.kind, h.claim.request)])
    case Reply => At(w, Replied(h.stage.claim))
    case Confirm => WithRecord(w, Acknowledged(record.value, h.kind, h.stage.claim)).(holder := Free)
    case Leave => w.(holder := Free)
    case Die =>
      if h.Worker? && h.stage.Sending? then w.(holder := Supervisor(h.kind, h.stage.claim, h.stage.delivered))
      else w.(holder := Free)
    case SupervisorEnds => w.(holder := Free)
    case BeginRecovery => w.(holder := Recoverer)
    case RecoveryWrite => w.(durable := RecoverStep(w.durable))
    case BeginOpen(alive, reprime) => w.(holder := Opener(record, alive, reprime))
    case OpenReprimes => WithRecord(w, record.value.(primeRequest := record.value.primeRequest + 1, primePending := true)).(holder := Free)
    case OpenWrites(route, hasPane) => WithRecord(w, Reopened(h.history, route, hasPane)).(holder := Free)
    case EditRoute(route, hasPane) => WithRecord(w, record.value.(route := route, hasPane := hasPane))
  }

  predicate Follows(before: World, s: Step, after: World) {
    Enabled(before, s) && after == Apply(before, s)
  }

  const Start0: World := World(Durable(None, {}), Free, [])

  /** A run from a project that was never opened. */
  predicate IsRun(worlds: seq<World>, steps: seq<Step>) {
    && |worlds| == |steps| + 1 && worlds[0] == Start0
    && forall i {:trigger steps[i]} :: 0 <= i < |steps| ==> Follows(worlds[i], steps[i], worlds[i + 1])
  }

  // ---------------------------------------------------------------- invariant

  /** Requests in order; within one, the start comes before the prime. */
  function Rank(m: Message): nat { 2 * m.request + if m.kind == Prime then 1 else 0 }

  predicate Increasing(log: seq<Message>) {
    forall i, j :: 0 <= i < j < |log| ==> Rank(log[i]) < Rank(log[j])
  }

  predicate AllBelow(log: seq<Message>, m: Message) {
    forall i :: 0 <= i < |log| ==> Rank(log[i]) < Rank(m)
  }

  /** Whatever was sent had been claimed, for this request or an earlier one. */
  predicate LogClaimed(d: Durable, log: seq<Message>, kind: Kind) {
    forall i :: 0 <= i < |log| && log[i].kind == kind ==>
      d.record.Some? && ClaimOf(d.record.value, kind).Some? && log[i].request <= ClaimOf(d.record.value, kind).value.request
  }

  predicate ConfirmedSent(d: Durable, log: seq<Message>, kind: Kind) {
    d.record.Some? && ClaimOf(d.record.value, kind).Some? && ClaimOf(d.record.value, kind).value.phase == Confirmed ==>
      Message(kind, ClaimOf(d.record.value, kind).value.request) in log
  }

  /** A worker, or the supervisor it left behind, that has claimed. */
  predicate InFlight(d: Durable, log: seq<Message>, kind: Kind, claim: Claim, delivered: bool) {
    && d.record.Some? && ClaimOf(d.record.value, kind) == Some(claim) && claim.phase == Pending
    && (if delivered then Message(kind, claim.request) in log else AllBelow(log, Message(kind, claim.request)))
    && claim.request == d.record.value.primeRequest
    && (kind == Prime ==> StartKnown(d.record.value, claim.request))
    && (kind == Start ==> Unprimed(d.record.value))
  }

  /** No prime is under way, and none was claimed for this request. */
  predicate Unprimed(c: Coordinator) {
    Settled(c.primeClaim) && (c.primeClaim.Some? ==> c.primeClaim.value.request != c.primeRequest)
  }

  predicate SameButRoute(a: Coordinator, b: Coordinator) {
    a == b.(route := a.route, hasPane := a.hasPane)
  }

  predicate HolderOk(w: World) {
    match w.holder
    case Worker(kind, input, Checked) => w.durable.record.Some? && SequenceOf(w.durable.record.value, kind) == input.sequence
    case Worker(kind, input, Observed(c)) => Ready(c, kind) && Matches(Some(c), input) && SequenceOf(c, kind) == input.sequence
    case Worker(kind, _, Holding(claim)) => InFlight(w.durable, w.log, kind, claim, false)
    case Worker(kind, _, Sending(claim, delivered)) => InFlight(w.durable, w.log, kind, claim, delivered)
    case Worker(kind, _, Replied(claim)) => InFlight(w.durable, w.log, kind, claim, true)
    case Supervisor(kind, claim, delivered) => InFlight(w.durable, w.log, kind, claim, delivered)
    case Opener(history, _, _) =>
      && history.Some? == w.durable.record.Some?
      && (history.Some? ==> SameButRoute(w.durable.record.value, history.value))
    case _ => true
  }

  /** A request whose prime was confirmed is no longer waiting for one. */
  predicate ConfirmedIsDone(c: Coordinator) {
    c.primeClaim.Some? && c.primeClaim.value.phase == Confirmed && c.primeClaim.value.request == c.primeRequest ==> !c.primePending
  }

  predicate Inv(w: World) {
    && (w.durable.record.Some? ==> Validate(w.durable.record.value) && ConfirmedIsDone(w.durable.record.value))
    && Increasing(w.log)
    && LogClaimed(w.durable, w.log, Start) && LogClaimed(w.durable, w.log, Prime)
    && ConfirmedSent(w.durable, w.log, Start) && ConfirmedSent(w.durable, w.log, Prime)
    && HolderOk(w)
  }

  /** Everything claimed so far ranks below a message for a ready request. */
  lemma ReadyAboveLog(d: Durable, log: seq<Message>, kind: Kind)
    requires d.record.Some? && Ready(d.record.value, kind)
    requires LogClaimed(d, log, Start) && LogClaimed(d, log, Prime)
    ensures AllBelow(log, Message(kind, d.record.value.primeRequest))
  {
    forall i | 0 <= i < |log| ensures Rank(log[i]) < Rank(Message(kind, d.record.value.primeRequest)) {
      assert log[i].kind == Start || log[i].kind == Prime;
    }
  }

  lemma ClaimKeeps(w: World)
    requires Inv(w) && Enabled(w, MakeClaim)
    ensures Inv(Apply(w, MakeClaim))
  {
    var v := Apply(w, MakeClaim);
    ReadyAboveLog(w.durable, w.log, w.holder.kind);
    assert Validate(v.durable.record.value);
    LogClaimedLater(w.durable, v.durable, w.log, Start);
    LogClaimedLater(w.durable, v.durable, w.log, Prime);
  }

  predicate ClaimNotOlder(d: Durable, e: Durable, kind: Kind) {
    d.record.Some? && ClaimOf(d.record.value, kind).Some? ==>
      && e.record.Some? && ClaimOf(e.record.value, kind).Some?
      && ClaimOf(d.record.value, kind).value.request <= ClaimOf(e.record.value, kind).value.request
  }

  lemma LogClaimedLater(d: Durable, e: Durable, log: seq<Message>, kind: Kind)
    requires LogClaimed(d, log, kind) && ClaimNotOlder(d, e, kind)
    ensures LogClaimed(e, log, kind)
  {
  }

  lemma DeliverKeeps(w: World)
    requires Inv(w) && Enabled(w, Deliver)
    ensures Inv(Apply(w, Deliver))
  {
    var v := Apply(w, Deliver);
    var m := v.log[|w.log|];
    assert AllBelow(w.log, m);
    assert v.log == w.log + [m];
    assert m in v.log;
  }

  lemma RecoveryKeeps(w: World)
    requires Inv(w) && Enabled(w, RecoveryWrite)
    ensures Inv(Apply(w, RecoveryWrite))
  {
    StepKeeps(w.durable);
    StepRecovers(w.durable, Start);
    StepRecovers(w.durable, Prime);
    LogClaimedLater(w.durable, RecoverStep(w.durable), w.log, Start);
    LogClaimedLater(w.durable, RecoverStep(w.durable), w.log, Prime);
  }

  /** The claims and their sequences, as an opening must leave them. */
  predicate SameHistory(d: Durable, c: Coordinator) {
    if d.record.None? then c.primeClaim.None? && c.launchClaim.None? && c.primeSequence == 0 && c.launchSequence == 0
    else
      && c.primeClaim == d.record.value.primeClaim && c.launchClaim == d.record.value.launchClaim
      && c.primeSequence == d.record.value.primeSequence && c.launchSequence == d.record.value.launchSequence
  }

  /** Reprime, reopen and rebind carry the claim history over as it is and move to
      the next request; a route edit leaves even that. */
  lemma OpenKeeps(w: World, s: Step)
    requires Inv(w) && Enabled(w, s) && (s.OpenReprimes? || s.OpenWrites? || s.EditRoute?)
    ensures Inv(Apply(w, s))
    ensures var c := Apply(w, s).durable.record;
            && c.Some? && SameHistory(w.durable, c.value)
            && c.value.primeRequest == (if w.durable.record.Some? then w.durable.record.value.primeRequest else 0) + (if s.EditRoute? then 0 else 1)
            && (!s.EditRoute? ==> c.value.primePending)
            && (!s.OpenWrites? ==> c == Some(w.durable.record.value.(
                  route := c.value.route, hasPane := c.value.hasPane, primeRequest := c.value.primeRequest, primePending := c.value.primePending)))
            && (s.OpenReprimes? ==> c.value.route == w.durable.record.value.route && c.value.hasPane == w.durable.record.value.hasPane)
            && (s.EditRoute? ==> c.value.primePending == w.durable.record.value.primePending)
  {
    var v := Apply(w, s);
    LogClaimedLater(w.durable, v.durable, w.log, Start);
    LogClaimedLater(w.durable, v.durable, w.log, Prime);
  }

  /** Over every run the request number never goes back, and only opening moves it. */
  lemma {:induction false} RequestsAdvance(worlds: seq<World>, steps: seq<Step>, m: nat, n: nat)
    requires IsRun(worlds, steps) && m <= n <= |steps| && worlds[m].durable.record.Some?
    ensures worlds[n].durable.record.Some?
    ensures worlds[m].durable.record.value.primeRequest <= worlds[n].durable.record.value.primeRequest
    ensures (forall i :: m <= i < n ==> !steps[i].OpenReprimes? && !steps[i].OpenWrites?) ==>
              worlds[m].durable.record.value.primeRequest == worlds[n].durable.record.value.primeRequest
    decreases n
  {
    if m < n {
      RequestsAdvance(worlds, steps, m, n - 1);
      InvAlways(worlds, steps, n - 1);
      assert Follows(worlds[n - 1], steps[n - 1], worlds[n]);
      if steps[n - 1].RecoveryWrite? {
        StepKeeps(worlds[n - 1].durable);
      } else if steps[n - 1].OpenWrites? {
        OpenKeeps(worlds[n - 1], steps[n - 1]);
      }
    }
  }

  lemma ConfirmKeeps(w: World)
    requires Inv(w) && Enabled(w, Confirm)
    ensures Inv(Apply(w, Confirm))
  {
    var v := Apply(w, Confirm);
    LogClaimedLater(w.durable, v.durable, w.log, Start);
    LogClaimedLater(w.durable, v.durable, w.log, Prime);
  }

  /** Steps that only move the lock holder on. */
  predicate OnlyMoves(s: Step) {
    !s.MakeClaim? && !s.Deliver? && !s.RecoveryWrite? && !s.OpenReprimes? && !s.OpenWrites? && !s.EditRoute? && !s.Confirm?
  }

  lemma MoveKeepsRest(w: World, s: Step)
    requires Enabled(w, s) && OnlyMoves(s)
    ensures Apply(w, s).durable == w.durable && Apply(w, s).log == w.log
  {
  }

  lemma MoveKeeps(w: World, s: Step)
    requires Inv(w) && Enabled(w, s) && OnlyMoves(s)
    ensures HolderOk(Apply(w, s))
  {
    MoveKeepsRest(w, s);
  }

  lemma InvKept(w: World, s: Step)
    requires Inv(w) && Enabled(w, s)
    ensures Inv(Apply(w, s))
  {
    if OnlyMoves(s) {
      MoveKeepsRest(w, s);
      MoveKeeps(w, s);
    } else if s.MakeClaim? {
      ClaimKeeps(w);
    } else if s.Deliver? {
      DeliverKeeps(w);
    } else if s.RecoveryWrite? {
      RecoveryKeeps(w);
    } else if s.Confirm? {
      ConfirmKeeps(w);
    } else {
      OpenKeeps(w, s);
    }
  }

  lemma {:induction false} InvAlways(worlds: seq<World>, steps: seq<Step>, n: nat)
    requires IsRun(worlds, steps) && n <= |steps|
    ensures Inv(worlds[n])
    decreases n
  {
    if n > 0 {
      InvAlways(worlds, steps, n - 1);
      assert Follows(worlds[n - 1], steps[n - 1], worlds[n]);
      InvKept(worlds[n - 1], steps[n - 1]);
    }
  }

  // ---------------------------------------------------------------- theorems

  /** Over every run, each request is started at most once and primed at most
      once, never started again once primed, and requests are served in order. */
  lemma AtMostOnce(worlds: seq<World>, steps: seq<Step>, n: nat, i: nat, j: nat)
    requires IsRun(worlds, steps) && n <= |steps| && i < j < |worlds[n].log|
    ensures var a, b := worlds[n].log[i], worlds[n].log[j];
            a.request < b.request || (a.request == b.request && a.kind == Start && b.kind == Prime)
  {
    InvAlways(worlds, steps, n);
    assert Rank(worlds[n].log[i]) < Rank(worlds[n].log[j]);
  }

  /** The two claims are never both pending; a confirmed claim was delivered. */
  lemma ClaimsConsistent(worlds: seq<World>, steps: seq<Step>, n: nat, kind: Kind)
    requires IsRun(worlds, steps) && n <= |steps| && worlds[n].durable.record.Some?
    ensures var c := worlds[n].durable.record.value;
            && Validate(c) && ConfirmedIsDone(c)
            && !(IsPending(c.launchClaim) && IsPending(c.primeClaim))
            && (ClaimOf(c, kind).Some? && ClaimOf(c, kind).value.phase == Confirmed ==>
                  Message(kind, ClaimOf(c, kind).value.request) in worlds[n].log)
  {
    InvAlways(worlds, steps, n);
  }

  /** A prime leaves only while its claim is pending, no start is pending, and
      the start of its own request is not in doubt. */
  lemma PrimeNeverRacesStart(worlds: seq<World>, steps: seq<Step>, n: nat)
    requires IsRun(worlds, steps) && n < |steps| && steps[n].Deliver?
    requires worlds[n].holder.kind == Prime
    ensures |worlds[n + 1].log| == |worlds[n].log| + 1
    ensures var c, m := worlds[n].durable.record, worlds[n + 1].log[|worlds[n].log|];
            && m.kind == Prime && c.Some? && StartKnown(c.value, m.request)
            && IsPending(c.value.primeClaim) && c.value.primeClaim.value.request == m.request
  {
    InvAlways(worlds, steps, n);
    assert Follows(worlds[n], steps[n], worlds[n + 1]);
  }

  /** Over every run a claim is made only for a request that waits for its prime
      and has a pane, while no claim is pending or unnotified, none was primed for
      this request and no start of it is in doubt; a start also only if this
      request was not started and fewer than three starts were claimed. The claim
      names the request, the next sequence and the execution its worker was sent
      for, and only the sequence and the attempts change beside it. */
  lemma ClaimedWhenReady(worlds: seq<World>, steps: seq<Step>, n: nat)
    requires IsRun(worlds, steps) && n < |steps| && steps[n].MakeClaim?
    ensures worlds[n].holder.Worker? && worlds[n].durable.record.Some? && worlds[n + 1].durable.record.Some?
    ensures var c, kind := worlds[n].durable.record.value, worlds[n].holder.kind;
            && c.primePending && c.hasPane
            && (c.primeClaim.Some? ==> c.primeClaim.value.phase != Pending && c.primeClaim.value.notified && c.primeClaim.value.request < c.primeRequest)
            && (c.launchClaim.Some? ==>
                  var l := c.launchClaim.value;
                  l.phase != Pending && l.notified && (l.phase == Uncertain || kind == Start ==> l.request < c.primeRequest))
            && (kind == Start ==> c.launchAttempts < 3)
    ensures var c, e, input := worlds[n].durable.record.value, worlds[n + 1].durable.record.value, worlds[n].holder.input;
            var claim := Some(Claim(c.primeRequest, input.sequence + 1, input.execution, Pending, "", false));
            && input.execution == Execution(c.route, c.primeRequest)
            && (worlds[n].holder.kind == Prime ==> c.primeSequence == input.sequence && e == c.(primeSequence := input.sequence + 1, primeClaim := claim))
            && (worlds[n].holder.kind == Start ==>
                  && c.launchSequence == input.sequence
                  && e == c.(launchSequence := input.sequence + 1, launchClaim := claim, launchAttempts := c.launchAttempts + 1))
  {
    InvAlways(worlds, steps, n);
    assert Follows(worlds[n], steps[n], worlds[n + 1]);
  }

  /** Over every run an acknowledged start settles its own claim and touches
      nothing else, so the request still waits for its prime and can be primed as
      soon as there is a pane; an acknowledged prime settles its claim and ends
      the wait. */
  lemma ConfirmChanges(worlds: seq<World>, steps: seq<Step>, n: nat)
    requires IsRun(worlds, steps) && n < |steps| && steps[n].Confirm?
    ensures worlds[n].holder.Worker? && worlds[n].durable.record.Some? && worlds[n + 1].durable.record.Some?
    ensures worlds[n + 1].durable.inbox == worlds[n].durable.inbox && worlds[n + 1].log == worlds[n].log
    ensures var c, e, kind := worlds[n].durable.record.value, worlds[n + 1].durable.record.value, worlds[n].holder.kind;
            && c.primePending && ClaimOf(c, kind).Some? && ClaimOf(c, kind).value.request == c.primeRequest
            && Message(kind, c.primeRequest) in worlds[n].log
            && var done := Some(ClaimOf(c, kind).value.(phase := Confirmed, notified := true));
               && (kind == Start ==> e == c.(launchClaim := done) && e.primePending && (c.hasPane ==> ReadyToPrime(e)))
               && (kind == Prime ==> e == c.(primeClaim := done, primePending := false))
  {
    InvAlways(worlds, steps, n);
    assert Follows(worlds[n], steps[n], worlds[n + 1]);
  }

  /** Over every run an opening without `--reprime` writes a record only if no
      claim is pending and none was made for the request it finds; what it writes
      has the pane it created, waits for a prime and starts its attempts anew. */
  lemma OpenRefusesClaimed(worlds: seq<World>, steps: seq<Step>, n: nat)
    requires IsRun(worlds, steps) && n < |steps| && steps[n].OpenWrites?
    ensures worlds[n].holder.Opener? && worlds[n + 1].durable.record.Some?
    ensures worlds[n].durable.record.Some? && !worlds[n].holder.reprime ==>
              var c := worlds[n].durable.record.value;
              && (c.launchClaim.Some? ==> c.launchClaim.value.phase != Pending && c.launchClaim.value.request < c.primeRequest)
              && (c.primeClaim.Some? ==> c.primeClaim.value.phase != Pending && c.primeClaim.value.request < c.primeRequest)
    ensures var e := worlds[n + 1].durable.record.value;
            e.route == steps[n].route && e.hasPane == steps[n].hasPane && e.primePending && e.launchAttempts == 0
  {
    InvAlways(worlds, steps, n);
    assert Follows(worlds[n], steps[n], worlds[n + 1]);
  }

  lemma Then(worlds: seq<World>, steps: seq<Step>, s: Step) returns (ws: seq<World>, ss: seq<Step>)
    requires IsRun(worlds, steps) && Enabled(worlds[|steps|], s)
    ensures IsRun(ws, ss) && ss == steps + [s] && ws[|ss|] == Apply(worlds[|steps|], s)
  {
    ws, ss := worlds + [Apply(worlds[|steps|], s)], steps + [s];
    forall i | 0 <= i < |ss| ensures Follows(ws[i], ss[i], ws[i + 1]) {
      if i < |steps| { assert Follows(worlds[i], steps[i], worlds[i + 1]); }
    }
  }

  /** Wherever a run left the project free with a record ready for a command, the
      run can go on to send and confirm it. */
  lemma ReadyIsServed(before: seq<World>, done: seq<Step>, kind: Kind) returns (worlds: seq<World>, steps: seq<Step>)
    requires IsRun(before, done) && before[|done|].holder.Free? && before[|done|].durable.record.Some?
    requires Ready(before[|done|].durable.record.value, kind) && SequenceOf(before[|done|].durable.record.value, kind) < MAX_COUNTER
    ensures IsRun(worlds, steps) && done <= steps && worlds[|steps|].holder.Free? && worlds[|steps|].durable.record.Some?
    ensures var c, e := before[|done|].durable.record.value, worlds[|steps|].durable.record.value;
            && worlds[|steps|].log == before[|done|].log + [Message(kind, c.primeRequest)]
            && e.primeRequest == c.primeRequest && e.hasPane && ClaimOf(e, Other(kind)) == ClaimOf(c, Other(kind))
            && SequenceOf(e, Other(kind)) == SequenceOf(c, Other(kind))
            && (kind == Start ==> ReadyToPrime(e)) && (kind == Prime ==> !e.primePending)
  {
    var c := before[|done|].durable.record.value;
    worlds, steps := Then(before, done, Enter(kind, Input(ExecutionOf(c), SequenceOf(c, kind))));
    worlds, steps := Then(worlds, steps, Check);
    worlds, steps := Then(worlds, steps, Observe);
    worlds, steps := Then(worlds, steps, MakeClaim);
    worlds, steps := Then(worlds, steps, Submit);
    worlds, steps := Then(worlds, steps, Deliver);
    worlds, steps := Then(worlds, steps, Reply);
    worlds, steps := Then(worlds, steps, Confirm);
  }

  /** The ordinary first opening: one start, then one prime, and nothing waits. */
  lemma FirstOpening(route: string) returns (worlds: seq<World>, steps: seq<Step>)
    ensures IsRun(worlds, steps) && worlds[|steps|].durable.record.Some? && !worlds[|steps|].durable.record.value.primePending
    ensures worlds[|steps|].log == [Message(Start, 1), Message(Prime, 1)]
  {
    worlds, steps := [Start0], [];
    worlds, steps := Then(worlds, steps, BeginOpen(false, false));
    worlds, steps := Then(worlds, steps, OpenWrites(route, true));
    worlds, steps := ReadyIsServed(worlds, steps, Start);
    worlds, steps := ReadyIsServed(worlds, steps, Prime);
  }

  /** Starts claimed since the record was last written anew. */
  ghost function StartsSinceOpen(worlds: seq<World>, steps: seq<Step>, n: nat): nat
    requires IsRun(worlds, steps) && n <= |steps|
    decreases n
  {
    if n == 0 || steps[n - 1].OpenWrites? then 0
    else StartsSinceOpen(worlds, steps, n - 1) + if steps[n - 1].MakeClaim? && worlds[n - 1].holder.Worker? && worlds[n - 1].holder.kind == Start then 1 else 0
  }

  /** The attempt counter counts them, and there are never more than three. */
  lemma {:induction false} StartsAreBounded(worlds: seq<World>, steps: seq<Step>, n: nat)
    requires IsRun(worlds, steps) && n <= |steps|
    ensures worlds[n].durable.record.Some? ==> worlds[n].durable.record.value.launchAttempts == StartsSinceOpen(worlds, steps, n)
    ensures worlds[n].durable.record.None? ==> StartsSinceOpen(worlds, steps, n) == 0
    ensures StartsSinceOpen(worlds, steps, n) <= MAX_LAUNCH_ATTEMPTS
    decreases n
  {
    if n > 0 {
      StartsAreBounded(worlds, steps, n - 1);
      InvAlways(worlds, steps, n - 1);
      assert Follows(worlds[n - 1], steps[n - 1], worlds[n]);
      if steps[n - 1].RecoveryWrite? {
        StepKeeps(worlds[n - 1].durable);
      }
    }
  }

  // ---------------------------------------------------------------- notices

  /** A claim may change its outcome; otherwise a later claim has a higher sequence. */
  predicate Later(d: Durable, e: Durable, kind: Kind) {
    d.record.Some? && ClaimOf(d.record.value, kind).Some? ==>
      && e.record.Some? && ClaimOf(e.record.value, kind).Some?
      && var a, b := ClaimOf(d.record.value, kind).value, ClaimOf(e.record.value, kind).value;
         a.sequence < b.sequence || (a.sequence == b.sequence && a.request == b.request && a.execution == b.execution)
  }

  lemma StepLater(w: World, s: Step, kind: Kind)
    requires Inv(w) && Enabled(w, s)
    ensures Later(w.durable, Apply(w, s).durable, kind)
  {
    if s.RecoveryWrite? {
      StepRecovers(w.durable, kind);
      StepKeeps(w.durable);
    }
  }

  lemma {:induction false} ClaimsAdvance(worlds: seq<World>, steps: seq<Step>, m: nat, n: nat, kind: Kind)
    requires IsRun(worlds, steps) && m <= n <= |steps|
    ensures Later(worlds[m].durable, worlds[n].durable, kind)
    decreases n
  {
    if m < n {
      ClaimsAdvance(worlds, steps, m, n - 1, kind);
      InvAlways(worlds, steps, n - 1);
      assert Follows(worlds[n - 1], steps[n - 1], worlds[n]);
      StepLater(worlds[n - 1], steps[n - 1], kind);
    }
  }

  function Digit(n: nat): (c: char)
    requires n < 10
    ensures c != '-'
  {
    "0123456789"[n]
  }

  function Decimal(n: nat): (s: string)
    ensures '-' !in s && |s| > 0
  {
    if n < 10 then [Digit(n)] else Decimal(n / 10) + [Digit(n % 10)]
  }

  lemma {:induction false} DecimalInjective(m: nat, n: nat)
    requires Decimal(m) == Decimal(n)
    ensures m == n
    decreases m
  {
    var s := Decimal(m);
    assert s[|s| - 1] == Digit(m % 10) && s[|s| - 1] == Digit(n % 10);
    assert m % 10 == n % 10;
    if m >= 10 && n >= 10 {
      assert Decimal(m / 10) == s[..|s| - 1] == Decimal(n / 10);
      DecimalInjective(m / 10, n / 10);
    }
  }

  function Prefix(kind: Kind): (r: string)
    ensures |r| == 18 && r[12] == if kind == Prime then 'p' else 's'
  {
    if kind == Prime then "coordinator-prime-" else "coordinator-start-"
  }

  /** The inbox identity of a claim's notice. */
  function NoticeId(notice: Notice): string {
    Prefix(notice.kind) + Decimal(notice.request) + "-" + Decimal(notice.sequence)
  }

  lemma SplitAtDash(a: string, b: string, c: string, d: string)
    requires '-' !in a && '-' !in c && a + "-" + b == c + "-" + d
    ensures a == c && b == d
  {
    var s := a + "-" + b;
    var t := c + "-" + d;
    assert s[|a|] == '-' && t[|c|] == '-';
    assert forall i :: 0 <= i < |a| ==> s[i] != '-';
    assert forall i :: 0 <= i < |c| ==> t[i] != '-';
    assert |a| == |c|;
    assert a == s[..|a|] == t[..|c|] == c;
    assert b == s[|a| + 1..] && d == t[|c| + 1..];
  }

  lemma NoticeIdParts(x: Notice)
    ensures |NoticeId(x)| > 18
    ensures NoticeId(x)[12] == if x.kind == Prime then 'p' else 's'
    ensures NoticeId(x)[18..] == Decimal(x.request) + "-" + Decimal(x.sequence)
  {
    var rest := Decimal(x.request) + "-" + Decimal(x.sequence);
    assert NoticeId(x) == Prefix(x.kind) + rest;
  }

  lemma NoticeIdInjective(x: Notice, y: Notice)
    requires NoticeId(x) == NoticeId(y)
    ensures x == y
  {
    NoticeIdParts(x);
    NoticeIdParts(y);
    SplitAtDash(Decimal(x.request), Decimal(x.sequence), Decimal(y.request), Decimal(y.sequence));
    DecimalInjective(x.request, y.request);
    DecimalInjective(x.sequence, y.sequence);
  }

  /** Over every run, two claims whose notices carry one id are one claim. */
  lemma NoticesAreUnique(worlds: seq<World>, steps: seq<Step>, m: nat, n: nat, kind: Kind, other: Kind)
    requires IsRun(worlds, steps) && m <= n <= |steps|
    requires worlds[m].durable.record.Some? && ClaimOf(worlds[m].durable.record.value, kind).Some?
    requires worlds[n].durable.record.Some? && ClaimOf(worlds[n].durable.record.value, other).Some?
    requires NoticeId(NoticeOf(kind, ClaimOf(worlds[m].durable.record.value, kind).value))
          == NoticeId(NoticeOf(other, ClaimOf(worlds[n].durable.record.value, other).value))
    ensures kind == other
    ensures var a, b := ClaimOf(worlds[m].durable.record.value, kind).value, ClaimOf(worlds[n].durable.record.value, other).value;
            a.request == b.request && a.sequence == b.sequence && a.execution == b.execution
  {
    NoticeIdInjective(NoticeOf(kind, ClaimOf(worlds[m].durable.record.value, kind).value),
                      NoticeOf(other, ClaimOf(worlds[n].durable.record.value, other).value));
    ClaimsAdvance(worlds, steps, m, n, kind);
  }
}
