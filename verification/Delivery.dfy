/** The durable delivery row of one operation, and the store transactions on it. */
module Delivery {
  import opened Results

  datatype State = Pending | Claimed | Ambiguous | Confirmed | PermanentFailure

  datatype Row = Row(state: State, revision: nat, epoch: nat, attempts: nat, lease: Option<int>, due: int)

  datatype Claim = Claim(revision: nat, epoch: nat, lease: int)

  datatype Outcome = Confirm(run: nat) | Retry | Observe | Fail

  const MAX_COUNTER: nat := 0x7fff_ffff_ffff_ffff
  const MAX_ATTEMPTS: nat := 32
  const LEASE_MS: nat := 300_000

  function Backoff(attempts: nat): int {
    var n := if attempts == 0 then 0 else attempts - 1;
    var ms := 1000 * Power2(if n < 8 then n else 8);
    if ms < 300_000 then ms else 300_000
  }

  function Power2(n: nat): nat {
    if n == 0 then 1 else 2 * Power2(n - 1)
  }

  /** Claim a pending row: the claim commits before any external work. */
  function ClaimOperation(row: Row, expected: nat, now: int, bindingCurrent: bool): Result<(Row, Claim)> {
    if row.revision != expected || row.state != Pending || row.due > now || row.attempts >= MAX_ATTEMPTS || !bindingCurrent then Err("conflict")
    else if row.revision >= MAX_COUNTER || row.epoch >= MAX_COUNTER then Err("delivery counter exhausted")
    else
      var claim := Claim(row.revision + 1, row.epoch + 1, now + LEASE_MS);
      Ok((Row(State.Claimed, claim.revision, claim.epoch, row.attempts + 1, Some(claim.lease), row.due), claim))
  }

  predicate Matches(row: Row, claim: Claim) {
    row.state == State.Claimed && row.revision == claim.revision && row.epoch == claim.epoch && row.lease == Some(claim.lease)
  }

  /** The last fence before an effect: the claim is still the row's, and its lease runs. */
  predicate ValidClaim(row: Row, claim: Claim, now: int, bindingCurrent: bool) {
    Matches(row, claim) && now < claim.lease && bindingCurrent
  }

  /** Record an outcome. A confirmation must name the run stored under the job
      key; a retry after the last attempt becomes a permanent failure. */
  function UpdateOutcome(row: Row, outcome: Outcome, now: int, run: Option<nat>): Result<Row> {
    if outcome.Confirm? && run != Some(outcome.run) then Err("confirmation requires a recorded run under the job key")
    else if row.revision >= MAX_COUNTER then Err("delivery counter exhausted")
    else
      var state := match outcome
        case Confirm(_) => State.Confirmed
        case Retry => if row.attempts >= MAX_ATTEMPTS then PermanentFailure else Pending
        case Observe => Ambiguous
        case Fail => PermanentFailure;
      Ok(row.(state := state, revision := row.revision + 1, lease := None, due := now + Backoff(row.attempts)))
  }

  function FinishOperation(row: Row, claim: Claim, outcome: Outcome, now: int, bindingCurrent: bool, run: Option<nat>): Result<Row> {
    if !ValidClaim(row, claim, now, bindingCurrent) then Err("conflict") else UpdateOutcome(row, outcome, now, run)
  }

  /** An expired claim is never retried: it becomes ambiguous under a new epoch. */
  function ExpireClaims(row: Row, now: int, run: Option<nat>): Result<Row> {
    if row.state != State.Claimed || row.lease.None? || row.lease.value > now then Ok(row)
    else if row.epoch >= MAX_COUNTER then Err("delivery counter exhausted")
    else UpdateOutcome(row.(epoch := row.epoch + 1), Observe, now, run)
  }

  function ObserveOperation(row: Row, expected: nat, outcome: Outcome, now: int, run: Option<nat>): Result<Row> {
    if row.state != Ambiguous || row.revision != expected then Err("conflict") else UpdateOutcome(row, outcome, now, run)
  }

  /** The operator withdraws the intent, without claiming its effect is absent. */
  function RetireOperation(row: Row, expected: nat, now: int, run: Option<nat>): Result<Row> {
    if row.revision != expected || (row.state != Pending && row.state != Ambiguous) then Err("conflict")
    else UpdateOutcome(row, Fail, now, run)
  }

  /** The operator retries a permanently failed job under the same key. */
  function ResetJob(row: Row, expected: nat, now: int): Result<Row> {
    if row.state != PermanentFailure || row.revision != expected then Err("conflict")
    else if row.attempts >= MAX_ATTEMPTS then Err("claim history is exhausted")
    else if row.revision >= MAX_COUNTER then Err("conflict")
    else Ok(row.(state := Pending, revision := row.revision + 1, lease := None, due := now))
  }

  // ---------------------------------------------------------------- what the transactions mean together

  /** A claim holds from the moment it is taken until its lease of 300 seconds is
      over, for the row it was taken on, and meanwhile nobody else can claim. */
  lemma ClaimLivesForItsLease(row: Row, expected: nat, now: int, later: int, other: nat, run: Option<nat>)
    requires ClaimOperation(row, expected, now, true).Ok?
    ensures var (taken, claim) := ClaimOperation(row, expected, now, true).value;
            && (ValidClaim(taken, claim, later, true) <==> later < now + 300_000)
            && ClaimOperation(taken, other, later, true).Err?
            && taken.attempts == row.attempts + 1
  {
  }

  /** Expiring touches nothing before the lease is over; afterwards it leaves the
      row ambiguous and the claim void for good, whatever the row becomes later
      under that epoch or a higher one. */
  lemma ExpiryVoidsTheClaim(row: Row, claim: Claim, now: int, run: Option<nat>, later: Row)
    requires Matches(row, claim) && row.revision < MAX_COUNTER && row.epoch < MAX_COUNTER
    ensures now < claim.lease ==> ExpireClaims(row, now, run) == Ok(row)
    ensures now >= claim.lease ==> ExpireClaims(row, now, run).Ok? && ExpireClaims(row, now, run).value.state == Ambiguous
    ensures now >= claim.lease && later.epoch >= ExpireClaims(row, now, run).value.epoch ==> !Matches(later, claim)
  {
  }

  lemma {:induction false} PowerGrows(m: nat, n: nat)
    requires m <= n
    ensures 1 <= Power2(m) <= Power2(n)
    decreases n
  {
    if m < n {
      PowerGrows(m, n - 1);
    } else if n > 0 {
      PowerGrows(n - 1, n - 1);
    }
  }

  /** A retry waits at least a second and at most 300, twice as long each time up
      to that, and cannot be claimed before. */
  lemma RetryWaits(row: Row, now: int, run: Option<nat>, expected: nat, later: int)
    requires UpdateOutcome(row, Retry, now, run).Ok? && 0 < row.attempts < MAX_ATTEMPTS
    ensures var next := UpdateOutcome(row, Retry, now, run).value;
            && now + 1000 <= next.due <= now + 300_000
            && (later < next.due ==> ClaimOperation(next, expected, later, true).Err?)
            && (later >= next.due && next.revision < MAX_COUNTER && next.epoch < MAX_COUNTER ==> ClaimOperation(next, next.revision, later, true).Ok?)
    ensures row.attempts < 9 ==> Backoff(row.attempts + 1) == if 2 * Backoff(row.attempts) < 300_000 then 2 * Backoff(row.attempts) else 300_000
    ensures row.attempts >= 9 ==> Backoff(row.attempts) == 256_000
  {
    PowerGrows(0, if row.attempts - 1 < 8 then row.attempts - 1 else 8);
    PowerGrows(if row.attempts - 1 < 8 then row.attempts - 1 else 8, 8);
    assert Power2(8) == 256 by {
      assert Power2(4) == 16;
    }
  }
}
