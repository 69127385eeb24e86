/** The result lane: one offer, one job in flight, and a pause after a failure.
    It is the only way the ticker, of which a root has one, starts verification
    and integration jobs. */
module VerifierLane {
  import opened Results

  datatype Request = Request(project: string, operation: string)

  /** What a ticket says when it is asked: not done, or done well or badly. */
  datatype Answer = Running | Succeeded | Failed

  const PAUSE: nat := 30_000

  class Lane {
    var offer: Option<Request>
    var pending: Option<Request>
    var cooldown: map<string, nat>
    /** The jobs handed to the executor that have not reported back. */
    ghost var inFlight: set<Request>

    ghost predicate Valid()
      reads this
    {
      inFlight == if pending.Some? then {pending.value} else {}
    }

    constructor ()
      ensures Valid() && pending.None? && offer.None? && cooldown == map[] && inFlight == {}
    {
      offer, pending, cooldown, inFlight := None, None, map[], {};
    }

    /** A job is taken up unless it is the one in flight or still paused; a later
        offer replaces an earlier one. */
    method Offer(work: Request, now: nat)
      requires Valid()
      modifies this`offer
      ensures Valid()
      ensures offer == if (pending.Some? && pending.value.operation == work.operation) || (work.operation in cooldown && now < cooldown[work.operation])
                       then old(offer) else Some(work)
    {
      var held := pending.Some? && pending.value.operation == work.operation;
      if !held && (work.operation !in cooldown || now >= cooldown[work.operation]) {
        offer := Some(work);
      }
    }

    /** Starts the offer only when nothing is in flight; what the executor refuses
        is dropped. */
    method Admit(refused: bool) returns (started: Option<Request>)
      requires Valid()
      modifies this`offer, this`pending, this`inFlight
      ensures Valid()
      ensures started == if old(pending).Some? || refused then None else old(offer)
      ensures started.Some? ==> old(inFlight) == {} && inFlight == {started.value}
      ensures started.None? ==> inFlight == old(inFlight) && pending == old(pending)
      ensures offer == if old(pending).Some? then old(offer) else None
    {
      started := None;
      if pending.Some? || offer.None? {
        return;
      }
      var work := offer.value;
      offer := None;
      if !refused {
        pending, started := Some(work), Some(work);
        inFlight := {work};
      }
    }

    /** Lets the lane go on once the job in flight has reported back; a failed one
        is paused. */
    method Drain(answer: Answer, now: nat)
      requires Valid()
      modifies this`pending, this`cooldown, this`inFlight
      ensures Valid()
      ensures old(pending).None? || answer == Running ==> pending == old(pending) && inFlight == old(inFlight) && cooldown == old(cooldown)
      ensures old(pending).Some? && answer != Running ==>
        && pending.None? && inFlight == {}
        && (answer == Failed ==> old(pending).value.operation in cooldown && cooldown[old(pending).value.operation] == now + PAUSE)
        && (forall o :: o in cooldown && !(answer == Failed && o == old(pending).value.operation) ==>
              o in old(cooldown) && cooldown[o] == old(cooldown)[o] && now < cooldown[o])
        && (forall o :: o in old(cooldown) && now < old(cooldown)[o] ==> o in cooldown)
    {
      if pending.None? || answer == Running {
        return;
      }
      var done := pending.value;
      pending, inFlight := None, {};
      cooldown := map o <- cooldown | now < cooldown[o] :: cooldown[o];
      if answer == Failed {
        cooldown := cooldown[done.operation := now + PAUSE];
      }
    }
  }
}
