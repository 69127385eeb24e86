/** The observation scheduler: a bounded, volatile cache of what projects were
    last seen doing, consulted before the ticker may go idle. */
module Observations {
  import opened Results

  /** A project, by the rank of its path; every key has the same second part. */
  type Key = nat

  const OFFER_LIMIT: nat := 128
  const PENDING_LIMIT: nat := 16
  const ROTATION_LIMIT: nat := 1024
  const BUDGET: nat := 15_000
  const SAMPLE_AGE: nat := 60_000

  datatype Sample = Sample(reachable: Option<bool>, scheduledWork: Option<bool>, head: Option<nat>, selectedName: Option<string>, diagnostic: Option<string>)

  /** What a ticket yields once it is done. */
  datatype Completion = Completion(sameIdentity: bool, runnerEntered: bool, result: Result<Sample>)

  datatype Arrival = Arrival(key: Key, completion: Result<Completion>)

  datatype Pending = Pending(fingerprint: string, deadline: nat)
  datatype Candidate = Candidate(fingerprint: string, deadline: nat)
  datatype Ready = Ready(fingerprint: string, deadline: nat, result: Result<Sample>)
  datatype Classification = Classification(fingerprint: string, head: nat, knownNegative: bool, expires: nat, touched: bool)
  datatype Rotation = Rotation(identity: nat, last: Option<string>)

  datatype Poll = StillPending | Observed(sample: Sample) | Failed(error: string)

  /** A sample that arrived for an offer of this fingerprint; it may be used
      until its deadline, `SAMPLE_AGE` after the offer was made. */
  datatype Taken = Taken(key: Key, fingerprint: string, deadline: nat, sample: Sample)

  /** A successful poll: what the project looked like then, and when. */
  datatype Polled = Polled(fingerprint: string, head: nat, at: nat)

  predicate Negative(sample: Sample) { sample.reachable == Some(false) && sample.scheduledWork == Some(false) }

  /** A poll that may be counted as idle: an unexpired sample of exactly this
      fingerprint and head saw nothing running and nothing scheduled. */
  ghost predicate Vouched(key: Key, p: Polled, taken: set<Taken>) {
    exists t :: t in taken && t.key == key && t.fingerprint == p.fingerprint && t.sample.head == Some(p.head)
                && t.sample.reachable == Some(false) && t.sample.scheduledWork == Some(false) && p.at < t.deadline
  }

  /** Rotation order: keys after the last serviced one come first. */
  predicate Before(last: Option<Key>, a: Key, b: Key) {
    var wa := last.Some? && a <= last.value;
    var wb := last.Some? && b <= last.value;
    if wa == wb then a < b else wb
  }

  method Least(keys: set<Key>, last: Option<Key>) returns (k: Key)
    requires keys != {}
    ensures k in keys && forall j <- keys :: j != k ==> Before(last, k, j)
  {
    var rest := keys;
    k :| k in rest;
    rest := rest - {k};
    while rest != {}
      invariant k in keys && rest <= keys
      invariant forall j <- keys :: j in rest || j == k || Before(last, k, j)
      decreases |rest|
    {
      var j :| j in rest;
      if Before(last, j, k) {
        k := j;
      }
      rest := rest - {j};
    }
  }

  method Greatest(keys: set<Key>, last: Option<Key>) returns (k: Key)
    requires keys != {}
    ensures k in keys && forall j <- keys :: j != k ==> Before(last, j, k)
  {
    var rest := keys;
    k :| k in rest;
    rest := rest - {k};
    while rest != {}
      invariant k in keys && rest <= keys
      invariant forall j <- keys :: j in rest || j == k || Before(last, j, k)
      decreases |rest|
    {
      var j :| j in rest;
      if Before(last, k, j) {
        k := j;
      }
      rest := rest - {j};
    }
  }

  /** What an arrival proves: only the assigned runner's own reply counts. */
  function SampleOf(r: Result<Completion>): Result<Sample> {
    if r.Err? then Err(r.error)
    else if !r.value.sameIdentity || !r.value.runnerEntered then Err("foreign")
    else r.value.result
  }

  class Reads {
    var pending: map<Key, Pending>
    var offers: map<Key, Candidate>
    var ready: map<Key, Ready>
    var classified: map<Key, Classification>
    var rotation: map<Key, Rotation>
    var cursor: Option<Key>
    var unknown: bool
    /** Every sample that ever arrived in time, and this pass's successful polls. */
    ghost var taken: set<Taken>
    ghost var polled: map<Key, Polled>

    ghost predicate Bounded()
      reads this
    {
      && |offers| <= OFFER_LIMIT && |classified| <= OFFER_LIMIT && |pending| <= PENDING_LIMIT && |rotation| <= ROTATION_LIMIT
      && offers.Keys !! pending.Keys
    }

    /** Nothing is classified but by a sample that was taken for it. */
    ghost predicate Founded()
      reads this
    {
      ReadyFounded(ready, taken) && ClassFounded(classified, taken)
    }

    ghost predicate Sound()
      reads this
    {
      !unknown ==> forall k {:trigger Vouched(k, polled[k], taken)} :: k in polled ==> Vouched(k, polled[k], taken)
    }

    ghost predicate Valid()
      reads this
    {
      Bounded() && Founded() && Sound()
    }

    constructor ()
      ensures Valid() && !unknown && pending == map[] && offers == map[] && classified == map[] && taken == {} && polled == map[]
    {
      pending, offers, ready, classified, rotation := map[], map[], map[], map[], map[];
      cursor := None;
      unknown := false;
      taken, polled := {}, map[];
    }

    /** The idle veto. Unless it stands, every project polled successfully in this
        pass was vouched for when it was polled. */
    method Unknown() returns (veto: bool)
      requires Valid()
      ensures veto == unknown
      ensures !veto ==> forall k :: k in polled ==> Vouched(k, polled[k], taken)
    {
      assert forall k :: k in polled && !unknown ==> Vouched(k, polled[k], taken);
      veto := unknown;
    }

    /** Starts a pass: collects what arrived, forgets offers and the verdict.
        An arrival counts only before its deadline. */
    method BeginPass(arrived: seq<Arrival>, now: nat)
      requires Valid()
      requires forall i :: 0 <= i < |arrived| ==> arrived[i].key in pending
      requires forall i, j :: 0 <= i < j < |arrived| ==> arrived[i].key != arrived[j].key
      modifies this
      ensures Valid() && !unknown && offers == map[] && polled == map[]
      ensures pending == old(pending) - ArrivedKeys(arrived, |arrived|)
      ensures forall k :: k in ready ==> k in ArrivedKeys(arrived, |arrived|)
      ensures forall i :: 0 <= i < |arrived| ==> Kept(ready, arrived[i], old(pending)[arrived[i].key], now)
      ensures MovedOn(arrived, |arrived|, old(cursor), cursor) && rotation == old(rotation)
      ensures classified == map k <- old(classified) :: old(classified)[k].(touched := false)
    {
      polled, unknown, offers := map[], false, map[];
      Untouch();
      var waiting, arrivals, last;
      ghost var known;
      waiting, arrivals, last, known := Collect(pending, arrived, now, cursor, taken);
      Settle(waiting, arrivals, last, known);
    }

    method Settle(waiting: map<Key, Pending>, arrivals: map<Key, Ready>, last: Option<Key>, ghost known: set<Taken>)
      requires Valid() && offers == map[] && polled == map[] && !unknown
      requires |waiting| <= PENDING_LIMIT && taken <= known && ReadyFounded(arrivals, known)
      modifies this`pending, this`ready, this`cursor, this`taken
      ensures Valid() && pending == waiting && ready == arrivals && cursor == last && taken == known
    {
      Grows(classified, taken, known);
      pending, ready, cursor, taken := waiting, arrivals, last, known;
    }

    method Untouch()
      requires Valid()
      modifies this`classified
      ensures Valid() && classified == map k <- old(classified) :: old(classified)[k].(touched := false)
    {
      ghost var before := classified;
      classified := map k <- classified :: classified[k].(touched := false);
      forall k | k in classified ensures ClassifiedBy(k, classified[k], taken) {
        assert ClassifiedBy(k, before[k], taken);
      }
      assert classified.Keys == before.Keys;
      SameSize(classified, before);
    }

    /** Uses up the reply waiting for this project. It classifies the project
        only if it is for the same fingerprint, in time, and saw the current head. */
    method Classify(key: Key, fingerprint: string, head: nat, now: nat) returns (r: Poll)
      requires Valid() && key in rotation
      modifies this`ready, this`classified, this`unknown, this`rotation
      ensures Valid() && (old(unknown) ==> unknown) && rotation.Keys == old(rotation).Keys
      ensures ready == old(ready) - {key}
      ensures forall k :: k != key ==> (k in classified <==> k in old(classified)) && (k in classified ==> classified[k] == old(classified)[k])
      ensures key in classified ==> (key in old(classified) && classified[key] == old(classified)[key]) || Fresh(old(ready), key, fingerprint, head, now, classified[key])
      ensures r.Observed? ==> key in old(ready) && old(ready)[key].result == Ok(r.sample) && r.sample.head == Some(head)
      ensures unknown && !old(unknown) ==> key !in classified
      ensures !Usable(old(ready), key, fingerprint, now) ==> r == StillPending && classified == old(classified) && unknown == old(unknown) && rotation == old(rotation)
      ensures Usable(old(ready), key, fingerprint, now) ==>
                UsedUp(old(ready)[key], key, head, old(classified), old(unknown), classified, unknown, r) && Noted(old(ready)[key], key, old(rotation), rotation)
    {
      r := StillPending;
      if key in ready {
        var got := ready[key];
        ready := ready - {key};
        if got.fingerprint == fingerprint && now < got.deadline {
          if got.result.Err? {
            Forget(key);
            return Failed(got.result.error);
          }
          var sample := got.result.value;
          Remember(key, sample.selectedName);
          if sample.head == Some(head) {
            Record(key, Classification(fingerprint, head, Negative(sample), got.deadline, true), sample);
            return Observed(sample);
          }
          Forget(key);
          if sample.diagnostic.Some? {
            return Failed(sample.diagnostic.value);
          }
        }
      }
    }

    /** The routine a completed sample selected. */
    method Remember(key: Key, name: Option<string>)
      requires Valid() && key in rotation
      modifies this`rotation
      ensures Valid() && rotation.Keys == old(rotation).Keys
      ensures rotation == if name.Some? then old(rotation)[key := Rotation(old(rotation)[key].identity, name)] else old(rotation)
    {
      if name.Some? {
        AddedSize(rotation, key, rotation[key].(last := name));
        rotation := rotation[key := rotation[key].(last := name)];
      }
    }

    method Forget(key: Key)
      requires Valid()
      modifies this`classified, this`unknown
      ensures Valid() && unknown && classified == old(classified) - {key}
    {
      Smaller(classified, {key});
      classified := classified - {key};
      unknown := true;
    }

    /** A full cache refuses new projects and leaves the verdict open. */
    method Record(key: Key, c: Classification, ghost sample: Sample)
      requires Valid() && Taken(key, c.fingerprint, c.expires, sample) in taken
      requires sample.head == Some(c.head) && (c.knownNegative <==> Negative(sample))
      modifies this`classified, this`unknown
      ensures Valid() && (old(unknown) ==> unknown)
      ensures if HasRoom(old(classified), key) then classified == old(classified)[key := c] && unknown == old(unknown) else classified == old(classified) && unknown
    {
      if key in classified || |classified| < OFFER_LIMIT {
        assert ClassifiedBy(key, c, taken);
        AddedSize(classified, key, c);
        ghost var before := classified;
        classified := classified[key := c];
        forall k | k in classified ensures ClassifiedBy(k, classified[k], taken) {
          assert k != key ==> ClassifiedBy(k, before[k], taken);
        }
      } else {
        unknown := true;
      }
    }

    /** Puts the project up for observation. When offers are full, the one whose
        turn comes last gives way; a project that comes even later is left out
        and leaves the verdict open. */
    method Offer(key: Key, fingerprint: string, now: nat)
      requires Valid() && key !in pending
      modifies this`offers, this`unknown
      ensures Valid() && (unknown <==> old(unknown) || key !in offers)
      ensures Offered(old(offers), key, Candidate(fingerprint, now + BUDGET), cursor, offers)
    {
      if key !in offers && |offers| >= OFFER_LIMIT {
        assert offers.Keys != {};
        var last := Greatest(offers.Keys, cursor);
        if !Before(cursor, key, last) {
          unknown := true;
          return;
        }
        Dropped(offers, last);
        assert Before(cursor, key, last) && last in offers;
        offers := offers - {last};
      }
      AddedSize(offers, key, Candidate(fingerprint, now + BUDGET));
      offers := offers[key := Candidate(fingerprint, now + BUDGET)];
    }

    /** The registry of project paths; a path that now names another directory
        starts over. */
    method Register(key: Key, identity: nat)
      requires Valid() && (key in rotation || |rotation| < ROTATION_LIMIT)
      modifies this`rotation
      ensures Valid() && key in rotation
      ensures rotation == if key in old(rotation) && old(rotation)[key].identity == identity then old(rotation) else old(rotation)[key := Rotation(identity, None)]
    {
      if key !in rotation || rotation[key].identity != identity {
        AddedSize(rotation, key, Rotation(identity, None));
        rotation := rotation[key := Rotation(identity, None)];
      }
    }

    method Touch(key: Key)
      requires Valid()
      modifies this`classified
      ensures Valid() && classified.Keys == old(classified).Keys
      ensures forall k :: k in classified ==> classified[k] == if k == key then old(classified)[k].(touched := true) else old(classified)[k]
    {
      if key in classified {
        var c := classified[key];
        ghost var before := classified;
        assert ClassifiedBy(key, c, taken);
        AddedSize(classified, key, c.(touched := true));
        classified := classified[key := c.(touched := true)];
        forall k | k in classified ensures ClassifiedBy(k, classified[k], taken) {
          assert k != key ==> ClassifiedBy(k, before[k], taken);
        }
      }
    }

    /** Notes a successful poll. The verdict stays settled only if the project is
        classified as idle right now, under this fingerprint and head. */
    method Judge(key: Key, fingerprint: string, head: nat, now: nat)
      requires Valid()
      modifies this`unknown, this`polled
      ensures Valid() && polled == old(polled)[key := Polled(fingerprint, head, now)]
      ensures unknown <==> old(unknown) || !KnownIdle(classified, key, fingerprint, head, now)
    {
      if !KnownIdle(classified, key, fingerprint, head, now) {
        unknown := true;
      }
      ghost var p := Polled(fingerprint, head, now);
      if !unknown {
        assert ClassifiedBy(key, classified[key], taken);
        assert Vouched(key, p, taken);
        assert forall k :: k in polled ==> Vouched(k, polled[k], taken);
      }
      polled := polled[key := p];
    }

    /** Registers the project, marks it seen and uses up its reply. */
    method Refresh(key: Key, fingerprint: string, identity: nat, head: nat, now: nat) returns (r: Poll)
      requires Valid() && (key in rotation || |rotation| < ROTATION_LIMIT)
      modifies this`rotation, this`classified, this`ready, this`unknown
      ensures Valid() && (old(unknown) ==> unknown)
      ensures forall k :: k != key ==> (k in classified <==> k in old(classified)) && (k in classified ==> classified[k] == old(classified)[k])
      ensures unknown && !old(unknown) ==> key !in classified
      ensures key in classified ==>
                (key in old(classified) && classified[key] == old(classified)[key].(touched := true)) || Fresh(old(ready), key, fingerprint, head, now, classified[key])
      ensures ready == old(ready) - {key} && key in rotation && rotation[key].identity == identity
      ensures forall later :: now <= later ==>
                ((!unknown || old(unknown)) && KnownIdle(classified, key, fingerprint, head, later) <==> SeenIdle(old(ready), old(classified), key, fingerprint, head, now, later))
      ensures r == Reported(old(ready), key, fingerprint, head, now)
    {
      Register(key, identity);
      Touch(key);
      r := Classify(key, fingerprint, head, now);
    }

    method JudgeAndOffer(key: Key, fingerprint: string, head: nat, judged: nat, offered: nat)
      requires Valid()
      modifies this`unknown, this`polled, this`offers
      ensures Valid() && (old(unknown) ==> unknown) && polled == old(polled)[key := Polled(fingerprint, head, judged)]
      ensures unknown <==> old(unknown) || !KnownIdle(classified, key, fingerprint, head, judged) || !(key in pending || key in offers)
      ensures if key in pending then offers == old(offers) else Offered(old(offers), key, Candidate(fingerprint, offered + BUDGET), cursor, offers)
    {
      Judge(key, fingerprint, head, judged);
      if key !in pending {
        Offer(key, fingerprint, offered);
      }
    }

    /** The part of a poll that follows once the project could be read. */
    method Serve(key: Key, fingerprint: string, identity: nat, head: nat, fits: bool, now: (nat, nat, nat)) returns (r: Poll)
      requires Valid() && (key in rotation || |rotation| < ROTATION_LIMIT) && now.0 <= now.1 <= now.2
      modifies this
      ensures Valid() && pending == old(pending) && taken == old(taken) && cursor == old(cursor) && ready == old(ready) - {key}
      ensures r == Reported(old(ready), key, fingerprint, head, now.0)
      ensures unknown <==>
                || old(unknown) || !SeenIdle(old(ready), old(classified), key, fingerprint, head, now.0, now.1)
                || !(key in pending || key in offers || !fits)
      ensures unknown <==> old(unknown) || !KnownIdle(classified, key, fingerprint, head, now.1) || !(key in pending || key in offers || !fits)
      ensures if key in pending || fits then polled == old(polled)[key := Polled(fingerprint, head, now.1)] else polled == old(polled)
      ensures if key in pending || !fits then offers == old(offers) else Offered(old(offers), key, Candidate(fingerprint, now.2 + BUDGET), cursor, offers)
      ensures forall k :: k != key ==> (k in classified <==> k in old(classified)) && (k in classified ==> classified[k] == old(classified)[k])
      ensures key in classified ==>
                (key in old(classified) && classified[key] == old(classified)[key].(touched := true)) || Fresh(old(ready), key, fingerprint, head, now.0, classified[key])
    {
      r := Refresh(key, fingerprint, identity, head, now.0);
      if key !in pending && !fits {
        unknown := unknown || !KnownIdle(classified, key, fingerprint, head, now.1);
      } else {
        JudgeAndOffer(key, fingerprint, head, now.1, now.2);
      }
    }

    /** One project's turn in a pass. `input` and `head` are what reading the
        project gave, `fits` says whether the two requests stay within bounds,
        and the times are successive readings of the clock. */
    method PollProject(key: Key, input: Result<(string, nat)>, head: Result<nat>, fits: (bool, bool), now: (nat, nat, nat)) returns (r: Result<Poll>)
      requires Valid() && now.0 <= now.1 <= now.2
      modifies this
      ensures Valid() && (old(unknown) ==> unknown) && pending == old(pending) && taken == old(taken) && cursor == old(cursor)
      ensures r.Ok? ==>
        && input.Ok? && head.Ok?
        && polled == old(polled)[key := Polled(input.value.0, head.value, now.1)]
        && (unknown <==> old(unknown) || !KnownIdle(classified, key, input.value.0, head.value, now.1) || !(key in pending || key in offers))
      ensures r.Ok? <==>
        && input.Ok? && head.Ok? && fits.0 && (key in old(rotation) || |old(rotation)| < ROTATION_LIMIT)
        && (key in pending || fits.1)
      ensures r.Err? && fits == (true, true) ==> unknown
      ensures r.Ok? ==>
        && r.value == Reported(old(ready), key, input.value.0, head.value, now.0)
        && (unknown <==>
              old(unknown) || !(key in pending || key in offers)
              || !SeenIdle(old(ready), old(classified), key, input.value.0, head.value, now.0, now.1))
        && ready == old(ready) - {key}
        && (if key in pending then offers == old(offers) else Offered(old(offers), key, Candidate(input.value.0, now.2 + BUDGET), cursor, offers))
      ensures input.Ok? && head.Ok? && key in classified ==>
        || (key in old(classified) && SameVerdict(classified[key], old(classified)[key]))
        || Fresh(old(ready), key, input.value.0, head.value, now.0, classified[key])
    {
      if input.Err? || head.Err? {
        unknown := true;
        return Err("unreadable");
      }
      if !fits.0 {
        return Err("bounds");
      }
      if key !in rotation && |rotation| >= ROTATION_LIMIT {
        unknown := true;
        return Err("registry");
      }
      var result := Serve(key, input.value.0, input.value.1, head.value, fits.1, now);
      r := if key in pending || fits.1 then Ok(result) else Err("bounds");
    }

    /** Forgets expired and unpolled projects, then, if nothing is in flight,
        admits offers in rotation order. `refused` are those the executor turns down. */
    method AdmitWhere(allowed: Key -> bool, refused: set<Key>, now: nat)
      requires Valid()
      modifies this`classified, this`offers, this`pending, this`unknown
      ensures Valid() && (old(unknown) ==> unknown)
      ensures classified == map k <- old(classified) | old(classified)[k].touched && now < old(classified)[k].expires :: old(classified)[k]
      ensures old(pending) != map[] ==> pending == old(pending) && offers == old(offers)
      ensures old(pending) == map[] ==> BatchAdmitted(old(offers), allowed, refused, cursor, pending, offers)
      ensures unknown <==> old(unknown) || (old(pending) == map[] && exists k :: k in old(offers) && k !in offers && k in refused)
    {
      Expire(now);
      if pending != map[] {
        return;
      }
      AdmitOffers(allowed, refused);
    }

    method AdmitOffers(allowed: Key -> bool, refused: set<Key>)
      requires Valid()
      modifies this`offers, this`pending, this`unknown
      ensures Valid() && BatchAdmitted(old(offers), allowed, refused, cursor, pending, offers)
      ensures unknown <==> old(unknown) || exists k :: k in old(offers) && k !in offers && k in refused
    {
      var batch, left, refusal := AdmitBatch(offers, allowed, refused, cursor);
      Install(batch, left, refusal);
    }

    method Install(batch: map<Key, Pending>, left: map<Key, Candidate>, refusal: bool)
      requires Valid() && |batch| <= PENDING_LIMIT && |left| <= OFFER_LIMIT && left.Keys !! batch.Keys
      modifies this`offers, this`pending, this`unknown
      ensures Valid() && pending == batch && offers == left && (unknown <==> old(unknown) || refusal)
    {
      pending, offers := batch, left;
      if refusal {
        unknown := true;
      }
    }

    method Expire(now: nat)
      requires Valid()
      modifies this`classified
      ensures Valid()
      ensures classified == map k <- old(classified) | old(classified)[k].touched && now < old(classified)[k].expires :: old(classified)[k]
    {
      ghost var before := classified;
      classified := map k <- classified | classified[k].touched && now < classified[k].expires :: classified[k];
      forall k | k in classified ensures ClassifiedBy(k, classified[k], taken) {
        assert ClassifiedBy(k, before[k], taken);
      }
      SubmapSize(classified, before);
    }
  }

  /** What putting a project up does to the offers: it is among them unless they
      are full of projects whose turn comes earlier, and takes the place only of
      the one whose turn comes last. */
  ghost predicate Offered(before: map<Key, Candidate>, key: Key, offer: Candidate, cursor: Option<Key>, after: map<Key, Candidate>) {
    && (key in after <==> key in before || |before| < OFFER_LIMIT || exists k :: k in before && Before(cursor, key, k))
    && (if key in after then after[key] == offer else after == before)
    && |before| <= |after|
    && (forall k :: k in after && k != key ==> k in before && after[k] == before[k])
    && (forall k :: k in before && k !in after ==>
          |before| >= OFFER_LIMIT && key !in before && Before(cursor, key, k) && forall j :: j in after ==> j == key || Before(cursor, j, k))
  }

  function ArrivedKeys(arrived: seq<Arrival>, n: nat): set<Key>
    requires n <= |arrived|
  {
    set i | 0 <= i < n :: arrived[i].key
  }

  function AfterArrival(ready: map<Key, Ready>, a: Arrival, p: Pending, now: nat): map<Key, Ready> {
    if now < p.deadline then ready[a.key := Ready(p.fingerprint, p.deadline, SampleOf(a.completion))] else ready
  }

  /** An arrival is kept for its poll exactly while its deadline lies ahead. */
  predicate Kept(ready: map<Key, Ready>, a: Arrival, p: Pending, now: nat) {
    if now < p.deadline then a.key in ready && ready[a.key] == Ready(p.fingerprint, p.deadline, SampleOf(a.completion))
    else a.key !in ready
  }

  lemma KeptLater(before: map<Key, Ready>, arrived: seq<Arrival>, i: nat, pending: map<Key, Pending>, now: nat)
    requires i < |arrived| && (forall j :: 0 <= j < |arrived| ==> arrived[j].key in pending)
    requires forall j, k :: 0 <= j < k < |arrived| ==> arrived[j].key != arrived[k].key
    requires forall k :: k in before ==> k in ArrivedKeys(arrived, i)
    requires forall j :: 0 <= j < i ==> Kept(before, arrived[j], pending[arrived[j].key], now)
    ensures var after := AfterArrival(before, arrived[i], pending[arrived[i].key], now);
            && (forall k :: k in after ==> k in ArrivedKeys(arrived, i + 1))
            && (forall j :: 0 <= j < i + 1 ==> Kept(after, arrived[j], pending[arrived[j].key], now))
    ensures arrived[i].key !in ArrivedKeys(arrived, i)
    ensures ArrivedKeys(arrived, i + 1) == ArrivedKeys(arrived, i) + {arrived[i].key}
  {
    assert arrived[i].key !in ArrivedKeys(arrived, i);
  }

  predicate Entered(a: Arrival) { a.completion.Ok? && a.completion.value.runnerEntered }

  /** The rotation moves to the last arrival that a runner served, if any. */
  predicate MovedOn(arrived: seq<Arrival>, n: nat, last: Option<Key>, cursor: Option<Key>)
    requires n <= |arrived|
  {
    || (cursor == last && forall i :: 0 <= i < n ==> !Entered(arrived[i]))
    || exists i :: 0 <= i < n && Entered(arrived[i]) && cursor == Some(arrived[i].key) && forall j :: i < j < n ==> !Entered(arrived[j])
  }

  lemma MovedOnNext(arrived: seq<Arrival>, i: nat, last: Option<Key>, cursor: Option<Key>)
    requires i < |arrived| && MovedOn(arrived, i, last, cursor)
    ensures MovedOn(arrived, i + 1, last, if Entered(arrived[i]) then Some(arrived[i].key) else cursor)
  {
  }

  /** The arrivals of one pass, in the order their runners started. */
  method Collect(waiting: map<Key, Pending>, arrived: seq<Arrival>, now: nat, last: Option<Key>, ghost known: set<Taken>)
    returns (pending: map<Key, Pending>, ready: map<Key, Ready>, cursor: Option<Key>, ghost taken: set<Taken>)
    requires forall i :: 0 <= i < |arrived| ==> arrived[i].key in waiting
    requires forall i, j :: 0 <= i < j < |arrived| ==> arrived[i].key != arrived[j].key
    ensures pending == waiting - ArrivedKeys(arrived, |arrived|) && |pending| <= |waiting|
    ensures forall k :: k in ready ==> k in ArrivedKeys(arrived, |arrived|)
    ensures forall i :: 0 <= i < |arrived| ==> Kept(ready, arrived[i], waiting[arrived[i].key], now)
    ensures known <= taken && ReadyFounded(ready, taken)
    ensures MovedOn(arrived, |arrived|, last, cursor)
  {
    pending, ready, cursor, taken := waiting, map[], last, known;
    for i := 0 to |arrived|
      invariant pending == waiting - ArrivedKeys(arrived, i)
      invariant forall k :: k in ready ==> k in ArrivedKeys(arrived, i)
      invariant forall j :: 0 <= j < i ==> Kept(ready, arrived[j], waiting[arrived[j].key], now)
      invariant known <= taken && ReadyFounded(ready, taken)
      invariant MovedOn(arrived, i, last, cursor)
    {
      var a := arrived[i];
      KeptLater(ready, arrived, i, waiting, now);
      var p := pending[a.key];
      MinusOneMore(waiting, ArrivedKeys(arrived, i), a.key);
      pending := pending - {a.key};
      MovedOnNext(arrived, i, last, cursor);
      if a.completion.Ok? && a.completion.value.runnerEntered {
        cursor := Some(a.key);
      }
      if now < p.deadline {
        var result := SampleOf(a.completion);
        ready := ready[a.key := Ready(p.fingerprint, p.deadline, result)];
        if result.Ok? {
          taken := taken + {Taken(a.key, p.fingerprint, p.deadline, result.value)};
        }
      }
    }
    Smaller(waiting, ArrivedKeys(arrived, |arrived|));
  }

  lemma Smaller<T>(m: map<Key, T>, gone: set<Key>)
    ensures |m - gone| <= |m|
  {
    assert (m - gone).Keys == m.Keys - gone;
    assert |(m - gone).Keys| <= |m.Keys|;
  }

  lemma AddedSize<T>(m: map<Key, T>, k: Key, v: T)
    ensures |m[k := v]| == if k in m then |m| else |m| + 1
  {
    assert m[k := v].Keys == m.Keys + {k};
    assert |m.Keys + {k}| == if k in m then |m.Keys| else |m.Keys| + 1;
  }

  lemma Dropped<T>(m: map<Key, T>, k: Key)
    requires k in m
    ensures |m - {k}| == |m| - 1
  {
    assert (m - {k}).Keys == m.Keys - {k};
    assert |m.Keys - {k}| == |m.Keys| - 1;
  }

  /** A reply this poll can use: for this fingerprint, and in time. */
  predicate Usable(ready: map<Key, Ready>, key: Key, fingerprint: string, now: nat) {
    key in ready && ready[key].fingerprint == fingerprint && now < ready[key].deadline
  }

  predicate HasRoom(classified: map<Key, Classification>, key: Key) { key in classified || |classified| < OFFER_LIMIT }

  /** What using up a reply does: one that saw the current head classifies its
      project if there is room, any other makes the verdict open and the project
      forgotten. */
  predicate UsedUp(got: Ready, key: Key, head: nat, before: map<Key, Classification>, wasUnknown: bool, after: map<Key, Classification>, unknown: bool, r: Poll) {
    if got.result.Ok? && got.result.value.head == Some(head) then
      var sample := got.result.value;
      && r == Observed(sample)
      && (if HasRoom(before, key)
          then after == before[key := Classification(got.fingerprint, head, sample.reachable == Some(false) && sample.scheduledWork == Some(false), got.deadline, true)]
               && unknown == wasUnknown
          else after == before && unknown)
    else
      && after == before - {key} && unknown
      && r == (if got.result.Err? then Failed(got.result.error)
               else if got.result.value.diagnostic.Some? then Failed(got.result.value.diagnostic.value)
               else StillPending)
  }

  /** The planner's choice is kept even when the rest of the sample is not. */
  predicate Noted(got: Ready, key: Key, before: map<Key, Rotation>, after: map<Key, Rotation>) {
    key in before && after == if got.result.Ok? && got.result.value.selectedName.Some?
                              then before[key := Rotation(before[key].identity, got.result.value.selectedName)] else before
  }

  /** What a poll reports. */
  function Reported(ready: map<Key, Ready>, key: Key, fingerprint: string, head: nat, now: nat): Poll {
    if key !in ready || ready[key].fingerprint != fingerprint || ready[key].deadline <= now then StillPending
    else
      match ready[key].result
      case Err(error) => Failed(error)
      case Ok(sample) =>
        if sample.head == Some(head) then Observed(sample)
        else if sample.diagnostic.Some? then Failed(sample.diagnostic.value)
        else StillPending
  }

  /** Whether a poll finds the project idle: the waiting reply says so if it can
      be used, and otherwise the classification that stands. */
  predicate SeenIdle(ready: map<Key, Ready>, classified: map<Key, Classification>, key: Key, fingerprint: string, head: nat, now: nat, later: nat) {
    if key in ready && ready[key].fingerprint == fingerprint && now < ready[key].deadline then
      && ready[key].result.Ok? && later < ready[key].deadline
      && ready[key].result.value.head == Some(head)
      && ready[key].result.value.reachable == Some(false) && ready[key].result.value.scheduledWork == Some(false)
      && (key in classified || |classified| < OFFER_LIMIT)
    else
      && key in classified && classified[key].fingerprint == fingerprint && classified[key].head == head
      && classified[key].knownNegative && later < classified[key].expires
  }

  /** A classification that this very poll made. */
  predicate Fresh(ready: map<Key, Ready>, key: Key, fingerprint: string, head: nat, now: nat, c: Classification) {
    && key in ready && ready[key].fingerprint == fingerprint && now < ready[key].deadline
    && ready[key].result.Ok? && ready[key].result.value.head == Some(head)
    && c == Classification(fingerprint, head, Negative(ready[key].result.value), ready[key].deadline, true)
  }

  lemma SubmapSize<T>(a: map<Key, T>, b: map<Key, T>)
    requires a.Keys <= b.Keys
    ensures |a| <= |b|
  {
    assert b.Keys == a.Keys + (b.Keys - a.Keys);
    assert |a.Keys| <= |b.Keys|;
  }

  predicate KnownIdle(classified: map<Key, Classification>, key: Key, fingerprint: string, head: nat, now: nat) {
    && key in classified && classified[key].fingerprint == fingerprint && classified[key].head == head
    && classified[key].knownNegative && now < classified[key].expires
  }

  predicate SameVerdict(c: Classification, d: Classification) { c == d.(touched := c.touched) }

  /** An offer in flight; its reply may be used until its sample is too old. */
  ghost predicate Admitted(offers: map<Key, Candidate>, allowed: Key -> bool, refused: set<Key>, k: Key, p: Pending) {
    k in offers && allowed(k) && k !in refused && p == Pending(offers[k].fingerprint, offers[k].deadline + (SAMPLE_AGE - BUDGET))
  }

  /** A batch: each admitted offer was allowed and not refused, an offer leaves
      only by admission or refusal, those admitted come before every allowed one
      left, and some are left only when the batch is full. */
  ghost predicate BatchAdmitted(offered: map<Key, Candidate>, allowed: Key -> bool, refused: set<Key>, cursor: Option<Key>, pending: map<Key, Pending>, offers: map<Key, Candidate>) {
    && Admitting(offered, allowed, refused, cursor, pending, offers)
    && ((exists k :: k in offers && allowed(k)) ==> |pending| == PENDING_LIMIT)
  }

  ghost predicate Admitting(offered: map<Key, Candidate>, allowed: Key -> bool, refused: set<Key>, cursor: Option<Key>, pending: map<Key, Pending>, offers: map<Key, Candidate>) {
    && offers.Keys <= offered.Keys && (forall k :: k in offers ==> offers[k] == offered[k]) && offers.Keys !! pending.Keys
    && (forall k :: k in pending ==> Admitted(offered, allowed, refused, k, pending[k]))
    && (forall k :: k in offered && k !in offers ==> k in pending || k in refused)
    && (forall k, j :: k in pending && j in offers && allowed(j) ==> Before(cursor, k, j))
  }

  lemma AdmitNext(offered: map<Key, Candidate>, allowed: Key -> bool, refused: set<Key>, cursor: Option<Key>, pending: map<Key, Pending>, offers: map<Key, Candidate>, key: Key, flight: Pending)
    requires Admitting(offered, allowed, refused, cursor, pending, offers) && key in offers && allowed(key)
    requires forall j :: j in offers && allowed(j) && j != key ==> Before(cursor, key, j)
    requires flight == Pending(offers[key].fingerprint, offers[key].deadline + (SAMPLE_AGE - BUDGET))
    ensures Admitting(offered, allowed, refused, cursor, if key in refused then pending else pending[key := flight], offers - {key})
  {
    var next := if key in refused then pending else pending[key := flight];
    assert next.Keys <= pending.Keys + {key};
  }

  /** Moving on from a key keeps the order of everything that comes after it. */
  lemma OrderKept(last: Option<Key>, p: Key, j: Key, k: Key)
    requires Before(last, p, j) && Before(last, p, k)
    ensures Before(Some(p), j, k) <==> Before(last, j, k)
  {
  }

  /** The order is strict and total; after the last serviced project come the
      later ones, then the earlier ones, each in the order of their paths. */
  lemma RotationOrder(last: Option<Key>, a: Key, b: Key, c: Key)
    ensures !Before(last, a, a) && (a != b ==> (Before(last, a, b) <==> !Before(last, b, a)))
    ensures Before(last, a, b) && Before(last, b, c) ==> Before(last, a, c)
    ensures last.None? ==> (Before(last, a, b) <==> a < b)
    ensures last.Some? && a <= last.value < b ==> Before(last, b, a)
    ensures last.Some? && (a < b <= last.value || last.value < a < b) ==> Before(last, a, b)
    ensures last.Some? && a != last.value ==> Before(last, a, last.value)
  {
  }

  /** The projects of a set that come before this one. */
  ghost function Ahead(keys: set<Key>, last: Option<Key>, key: Key): set<Key> { set j <- keys | Before(last, j, key) }

  /** When the rotation moves on to a project ahead of this one, fewer are ahead. */
  lemma FewerAhead(keys: set<Key>, last: Option<Key>, p: Key, key: Key)
    requires p in keys && Before(last, p, key)
    ensures |Ahead(keys, Some(p), key)| < |Ahead(keys, last, key)|
  {
    forall j | j in Ahead(keys, Some(p), key) ensures j in Ahead(keys, last, key) && j != p {
      RotationOrder(last, j, key, p);
      if Before(last, p, j) { OrderKept(last, p, j, key); }
    }
    var before, after := Ahead(keys, last, key), Ahead(keys, Some(p), key);
    assert p in before && p !in after;
    assert before == after + (before - after) && p in before - after;
  }

  /** One round: what was offered, what the executor turned down, and the batch. */
  datatype Round = Round(offered: map<Key, Candidate>, refused: set<Key>, pending: map<Key, Pending>, left: map<Key, Candidate>)

  ghost predicate Served(r: Round, allowed: Key -> bool, last: Option<Key>, next: Option<Key>) {
    BatchAdmitted(r.offered, allowed, r.refused, last, r.pending, r.left) && next.Some? && next.value in r.pending
  }

  /** No project starves: offered round after round, it is admitted within as
      many rounds as there are projects ahead of it, and one more, whichever
      project of each batch a runner served last. */
  lemma {:induction false} NoOfferStarves(rounds: seq<Round>, cursors: seq<Option<Key>>, allowed: Key -> bool, keys: set<Key>, key: Key) returns (i: nat)
    requires |cursors| == |rounds| + 1 && |Ahead(keys, cursors[0], key)| < |rounds| && allowed(key)
    requires forall n :: 0 <= n < |rounds| ==> Served(rounds[n], allowed, cursors[n], cursors[n + 1])
    requires forall n :: 0 <= n < |rounds| ==> rounds[n].offered.Keys <= keys && key in rounds[n].offered && key !in rounds[n].refused
    ensures i <= |Ahead(keys, cursors[0], key)| && key in rounds[i].pending
    decreases |rounds|
  {
    assert Served(rounds[0], allowed, cursors[0], cursors[1]);
    i := 0;
    if key !in rounds[0].pending {
      assert key in rounds[0].left;
      var p := cursors[1].value;
      assert Before(cursors[0], p, key) && Admitted(rounds[0].offered, allowed, rounds[0].refused, p, rounds[0].pending[p]);
      FewerAhead(keys, cursors[0], p, key);
      forall n | 0 <= n < |rounds[1..]| ensures Served(rounds[1..][n], allowed, cursors[1..][n], cursors[1..][n + 1]) {
        assert Served(rounds[n + 1], allowed, cursors[n + 1], cursors[n + 2]);
      }
      var later := NoOfferStarves(rounds[1..], cursors[1..], allowed, keys, key);
      i := later + 1;
    }
  }

  method AdmitBatch(offered: map<Key, Candidate>, allowed: Key -> bool, refused: set<Key>, cursor: Option<Key>)
    returns (pending: map<Key, Pending>, offers: map<Key, Candidate>, refusal: bool)
    requires |offered| <= OFFER_LIMIT
    ensures |offers| <= OFFER_LIMIT && |pending| <= PENDING_LIMIT && offers.Keys !! pending.Keys
    ensures BatchAdmitted(offered, allowed, refused, cursor, pending, offers)
    ensures refusal <==> exists k :: k in offered && k !in offers && k in refused
  {
    pending, offers, refusal := map[], offered, false;
    var last := cursor;
    while |pending| < PENDING_LIMIT
      invariant |pending| <= PENDING_LIMIT && |offers| <= OFFER_LIMIT
      invariant Admitting(offered, allowed, refused, cursor, pending, offers)
      invariant refusal <==> exists k :: k in offered && k !in offers && k in refused
      invariant last == cursor || (last.Some? && last.value in pending)
      decreases |offers|
    {
      var eligible := set k <- offers.Keys | allowed(k);
      if eligible == {} {
        assert forall k :: k in offers ==> k in eligible || !allowed(k);
        return;
      }
      var key := Least(eligible, last);
      LeastEither(eligible, cursor, last, key);
      var flight := Pending(offers[key].fingerprint, offers[key].deadline + (SAMPLE_AGE - BUDGET));
      assert forall j :: j in offers && allowed(j) ==> j in eligible;
      AdmitNext(offered, allowed, refused, cursor, pending, offers, key, flight);
      Dropped(offers, key);
      offers := offers - {key};
      if key in refused {
        refusal := true;
      } else {
        last := Some(key);
        AddedSize(pending, key, flight);
        pending := pending[key := flight];
      }
    }
  }

  lemma LeastEither(keys: set<Key>, cursor: Option<Key>, last: Option<Key>, key: Key)
    requires key in keys && (forall j <- keys :: j != key ==> Before(last, key, j))
    requires last == cursor || (last.Some? && forall j <- keys :: Before(cursor, last.value, j))
    ensures forall j <- keys :: j != key ==> Before(cursor, key, j)
  {
    forall j | j in keys && j != key ensures Before(cursor, key, j) {
      if last != cursor { OrderKept(cursor, last.value, key, j); }
    }
  }

  lemma MinusOneMore(m: map<Key, Pending>, gone: set<Key>, k: Key)
    ensures m - gone - {k} == m - (gone + {k})
  {
  }

  lemma SameSize<T>(a: map<Key, T>, b: map<Key, T>)
    requires a.Keys == b.Keys
    ensures |a| == |b|
  {
    assert |a.Keys| == |b.Keys|;
  }

  ghost predicate ClassifiedBy(k: Key, c: Classification, taken: set<Taken>) {
    exists t :: t in taken && t.key == k && t.fingerprint == c.fingerprint && t.deadline == c.expires && t.sample.head == Some(c.head)
                && (c.knownNegative <==> Negative(t.sample))
  }

  ghost predicate ReadyFounded(ready: map<Key, Ready>, taken: set<Taken>) {
    forall k :: k in ready && ready[k].result.Ok? ==> Taken(k, ready[k].fingerprint, ready[k].deadline, ready[k].result.value) in taken
  }

  ghost predicate ClassFounded(classified: map<Key, Classification>, taken: set<Taken>) {
    forall k {:trigger ClassifiedBy(k, classified[k], taken)} :: k in classified ==> ClassifiedBy(k, classified[k], taken)
  }

  lemma Grows(classified: map<Key, Classification>, before: set<Taken>, after: set<Taken>)
    requires before <= after && ClassFounded(classified, before)
    ensures ClassFounded(classified, after)
  {
    forall k | k in classified ensures ClassifiedBy(k, classified[k], after) {
      assert ClassifiedBy(k, classified[k], before);
    }
  }
}
