/** Choosing what to reserve: the plain rule, its shadowed form that evaluates
    every profile, and assignment by a policy. */
module Admission {
  import opened Results

  /** What the store answers about one profile matched to a candidate. */
  datatype Evidence = ReadFails | NoKnowledge | NoApproval | Approved(approval: string)

  datatype Matched = Matched(profile: string, evidence: Evidence)

  datatype Candidate = Candidate(task: string, blocked: bool, matches: seq<Matched>)

  /** Sealed launch inputs, bound to the profile they were sealed for. */
  datatype Inputs = Inputs(task: string, profile: string, approval: string)

  datatype Status = Eligible | Chosen | NotEvaluated | LacksKnowledge | LacksApproval

  datatype Entry = Entry(profile: string, status: Status)

  datatype Approval = Approval(index: nat, inputs: Inputs)

  datatype Weighed = Weighed(eligible: seq<Entry>, approved: seq<Approval>, matched: bool, knowledge: bool)

  /** What an evaluation yields for the approved arms, in order; how it is
      computed is not modelled. */
  datatype Evaluation = Evaluation(chosen: Option<nat>, probabilities: seq<nat>)

  datatype Decision =
    | Reserve(eligible: seq<Entry>, inputs: Inputs)
    | Assign(eligible: seq<Entry>, probabilities: seq<nat>, inputs: Inputs)
    | Abstain
    | MissingKnowledge
    | Deny
    | Failed

  // ---------------------------------------------------------------- the rule

  predicate AnyFails(ms: seq<Matched>) { exists i :: 0 <= i < |ms| && ms[i].evidence == ReadFails }

  /** Where the rule stops: the first approved profile, or the end. */
  function FirstApproved(ms: seq<Matched>): (k: nat)
    ensures k <= |ms|
    ensures k < |ms| ==> ms[k].evidence.Approved?
    ensures forall i :: 0 <= i < k ==> !ms[i].evidence.Approved?
  {
    if ms == [] || ms[0].evidence.Approved? then 0 else 1 + FirstApproved(ms[1..])
  }

  /** How many profiles the rule looks at. */
  function Looked(ms: seq<Matched>): (n: nat)
    ensures n <= |ms|
  {
    var k := FirstApproved(ms);
    if k < |ms| then k + 1 else k
  }

  function StatusOf(e: Evidence): Status {
    match e
    case NoKnowledge => LacksKnowledge
    case NoApproval => LacksApproval
    case _ => Eligible
  }

  function Seal(task: string, m: Matched): Inputs
    requires m.evidence.Approved?
  {
    Inputs(task, m.profile, m.evidence.approval)
  }

  /** The plain rule: reserve for the first approved profile. */
  ghost function Rule(c: Candidate): Decision {
    var ms := c.matches;
    var k := FirstApproved(ms);
    if AnyFails(ms[..Looked(ms)]) then Failed
    else if k < |ms| then
      Reserve(seq(|ms|, i requires 0 <= i < |ms| =>
                Entry(ms[i].profile, if i < k then StatusOf(ms[i].evidence) else if i == k then Chosen else NotEvaluated)),
              Seal(c.task, ms[k]))
    else if ms != [] && forall i :: 0 <= i < |ms| ==> ms[i].evidence == NoKnowledge then MissingKnowledge
    else Deny
  }

  /** The first approved profile, with every read up to it answered. */
  ghost predicate Finds(ms: seq<Matched>, k: nat) {
    && k < |ms| && ms[k].evidence.Approved?
    && (forall i :: 0 <= i < k ==> ms[i].evidence == NoKnowledge || ms[i].evidence == NoApproval)
  }

  /** A read that fails before any profile is approved. */
  ghost predicate FailsAt(ms: seq<Matched>, k: nat) {
    k < |ms| && ms[k].evidence == ReadFails && forall i :: 0 <= i < k ==> !ms[i].evidence.Approved?
  }

  /** What the statuses say about the evidence. */
  predicate Tells(s: Status, e: Evidence) {
    && (s == LacksKnowledge <==> e == NoKnowledge) && (s == LacksApproval <==> e == NoApproval)
    && (e.Approved? ==> s == Eligible || s == Chosen)
  }

  /** A reservation for profile `k`: its own name and approval are sealed for
      this candidate, it alone is chosen, the profiles before it say what they
      lacked, and those after it were not evaluated. */
  ghost predicate ReservedRight(c: Candidate, k: nat, eligible: seq<Entry>, inputs: Inputs) {
    && |eligible| == |c.matches| && k < |c.matches|
    && c.matches[k].evidence == Approved(inputs.approval) && inputs.task == c.task && inputs.profile == c.matches[k].profile
    && (forall i :: 0 <= i < |c.matches| ==> eligible[i].profile == c.matches[i].profile)
    && eligible[k].status == Chosen
    && (forall i :: 0 <= i < k ==> Tells(eligible[i].status, c.matches[i].evidence) && eligible[i].status != Chosen)
    && (forall i :: k < i < |c.matches| ==> eligible[i].status == NotEvaluated)
  }

  /** The rule says exactly this: a reservation for the first approved profile,
      a failure at a read before it, and otherwise missing knowledge if profiles
      match and none has any, or a denial. */
  lemma RuleIs(c: Candidate)
    ensures Rule(c).Failed? <==> exists k :: FailsAt(c.matches, k)
    ensures Rule(c).Reserve? <==> exists k :: Finds(c.matches, k)
    ensures forall k :: Finds(c.matches, k) && Rule(c).Reserve? ==> ReservedRight(c, k, Rule(c).eligible, Rule(c).inputs)
    ensures Rule(c).MissingKnowledge? <==> c.matches != [] && forall i :: 0 <= i < |c.matches| ==> c.matches[i].evidence == NoKnowledge
    ensures Rule(c).Deny? <==>
              && (forall i :: 0 <= i < |c.matches| ==> c.matches[i].evidence == NoKnowledge || c.matches[i].evidence == NoApproval)
              && (c.matches == [] || exists i :: 0 <= i < |c.matches| && c.matches[i].evidence == NoApproval)
  {
    var ms, k := c.matches, FirstApproved(c.matches);
    if AnyFails(ms[..Looked(ms)]) {
      var i :| 0 <= i < |ms[..Looked(ms)]| && ms[..Looked(ms)][i].evidence == ReadFails;
      assert FailsAt(ms, i);
    } else {
      assert forall i :: 0 <= i < Looked(ms) ==> ms[..Looked(ms)][i].evidence == ms[i].evidence;
      assert k < |ms| ==> Finds(ms, k);
    }
    forall j: nat | FailsAt(ms, j) ensures AnyFails(ms[..Looked(ms)]) {
      assert ms[..Looked(ms)][j].evidence == ReadFails;
    }
    forall j: nat | Finds(ms, j) ensures j == k && !AnyFails(ms[..Looked(ms)]) {
    }
  }

  // ---------------------------------------------------------------- weighing

  function AddTo(w: Weighed, task: string, m: Matched): Weighed {
    Weighed(w.eligible + [Entry(m.profile, StatusOf(m.evidence))],
            if m.evidence.Approved? then w.approved + [Approval(|w.eligible|, Seal(task, m))] else w.approved,
            true,
            w.knowledge || m.evidence != NoKnowledge)
  }

  function WeighedOf(task: string, ms: seq<Matched>): Weighed
    decreases |ms|
  {
    if ms == [] then Weighed([], [], false, false) else AddTo(WeighedOf(task, ms[..|ms| - 1]), task, ms[|ms| - 1])
  }

  /** Evaluates the matched profiles in order, all of them or up to the first
      approved one. A failed read fails the whole evaluation, so looking at
      fewer profiles can succeed where looking at all fails. */
  method Weigh(task: string, ms: seq<Matched>, all: bool) returns (r: Result<Weighed>)
    ensures var n := if all then |ms| else Looked(ms);
            && (r.Err? <==> AnyFails(ms[..n]))
            && (r.Ok? ==> r.value == WeighedOf(task, ms[..n]))
  {
    var w := Weighed([], [], false, false);
    ghost var n := if all then |ms| else Looked(ms);
    for i := 0 to |ms|
      invariant w == WeighedOf(task, ms[..i]) && !AnyFails(ms[..i])
      invariant !all ==> i <= FirstApproved(ms)
    {
      var m := ms[i];
      if m.evidence == ReadFails {
        assert ms[..n][i] == m;
        return Err("read failed");
      }
      WeighNext(task, ms, i);
      w := AddTo(w, task, m);
      if m.evidence.Approved? && !all {
        return Ok(w);
      }
    }
    assert ms[..|ms|] == ms;
    r := Ok(w);
  }

  lemma WeighNext(task: string, ms: seq<Matched>, i: nat)
    requires i < |ms| && ms[i].evidence != ReadFails && !AnyFails(ms[..i])
    ensures WeighedOf(task, ms[..i + 1]) == AddTo(WeighedOf(task, ms[..i]), task, ms[i]) && !AnyFails(ms[..i + 1])
  {
    assert ms[..i + 1][..i] == ms[..i];
  }

  /** What weighing yields, position by position. */
  predicate WeighedRight(task: string, ms: seq<Matched>, w: Weighed) {
    EntriesRight(ms, w) && ApprovalsRight(task, ms, w.approved) && AllApprovals(ms, w.approved)
  }

  predicate EntriesRight(ms: seq<Matched>, w: Weighed) {
    && |w.eligible| == |ms| && w.matched == (ms != [])
    && (forall i :: 0 <= i < |ms| ==> w.eligible[i] == Entry(ms[i].profile, StatusOf(ms[i].evidence)))
    && (w.knowledge <==> exists i :: 0 <= i < |ms| && ms[i].evidence != NoKnowledge)
  }

  predicate ApprovalsRight(task: string, ms: seq<Matched>, approved: seq<Approval>) {
    && (forall p :: 0 <= p < |approved| ==> ApprovalRight(task, ms, approved[p]))
    && (forall p, q :: 0 <= p < q < |approved| ==> approved[p].index < approved[q].index)
  }

  predicate AllApprovals(ms: seq<Matched>, approved: seq<Approval>) {
    forall i :: 0 <= i < |ms| && ms[i].evidence.Approved? ==> exists p :: 0 <= p < |approved| && approved[p].index == i
  }

  predicate ApprovalRight(task: string, ms: seq<Matched>, a: Approval) {
    a.index < |ms| && ms[a.index].evidence.Approved? && a.inputs == Seal(task, ms[a.index])
  }

  lemma {:induction false} WeighedIsRight(task: string, ms: seq<Matched>)
    ensures WeighedRight(task, ms, WeighedOf(task, ms))
    decreases |ms|
  {
    if ms != [] {
      var n := |ms| - 1;
      WeighedIsRight(task, ms[..n]);
      AddedIsRight(task, ms[..n], WeighedOf(task, ms[..n]), ms[n]);
      assert ms == ms[..n] + [ms[n]];
    }
  }

  lemma AddedIsRight(task: string, ms: seq<Matched>, w: Weighed, m: Matched)
    requires WeighedRight(task, ms, w)
    ensures WeighedRight(task, ms + [m], AddTo(w, task, m))
  {
    AddedEntries(task, ms, w, m);
    AddedApprovals(task, ms, w, m);
    AddedAll(task, ms, w, m);
  }

  lemma AddedEntries(task: string, ms: seq<Matched>, w: Weighed, m: Matched)
    requires EntriesRight(ms, w)
    ensures EntriesRight(ms + [m], AddTo(w, task, m))
  {
    var more := ms + [m];
    assert more[|ms|] == m && forall i :: 0 <= i < |ms| ==> more[i] == ms[i];
  }

  lemma AddedApprovals(task: string, ms: seq<Matched>, w: Weighed, m: Matched)
    requires ApprovalsRight(task, ms, w.approved) && |w.eligible| == |ms|
    ensures ApprovalsRight(task, ms + [m], AddTo(w, task, m).approved)
  {
    var more, v := ms + [m], AddTo(w, task, m);
    forall p | 0 <= p < |w.approved| ensures ApprovalRight(task, more, w.approved[p]) && w.approved[p].index < |ms| {
      assert ApprovalRight(task, ms, w.approved[p]);
    }
  }

  lemma AddedAll(task: string, ms: seq<Matched>, w: Weighed, m: Matched)
    requires AllApprovals(ms, w.approved) && |w.eligible| == |ms|
    ensures AllApprovals(ms + [m], AddTo(w, task, m).approved)
  {
    var more, v := ms + [m], AddTo(w, task, m);
    forall i | 0 <= i < |more| && more[i].evidence.Approved? ensures exists p :: 0 <= p < |v.approved| && v.approved[p].index == i {
      if i < |ms| {
        var p :| 0 <= p < |w.approved| && w.approved[p].index == i;
        assert v.approved[p].index == i;
      } else {
        assert v.approved[|w.approved|].index == i;
      }
    }
  }

  /** The first approval weighing finds is the one the rule stops at. */
  lemma FirstOfWeighed(task: string, ms: seq<Matched>, w: Weighed)
    requires WeighedRight(task, ms, w)
    ensures w.approved == [] <==> FirstApproved(ms) == |ms|
    ensures w.approved != [] ==> w.approved[0].index == FirstApproved(ms)
  {
    var k := FirstApproved(ms);
    if w.approved != [] {
      assert ApprovalRight(task, ms, w.approved[0]);
      assert k <= w.approved[0].index;
      assert ms[k].evidence.Approved?;
      var p :| 0 <= p < |w.approved| && w.approved[p].index == k;
    }
  }

  // ---------------------------------------------------------------- deciding

  /** Policies off: stop at the first approved profile. */
  method DecideByRule(c: Candidate) returns (d: Decision)
    ensures d == Rule(c)
  {
    var ms := c.matches;
    var weighed := Weigh(c.task, ms, false);
    if weighed.Err? {
      return Failed;
    }
    var w := weighed.value;
    ghost var looked := ms[..Looked(ms)];
    WeighedIsRight(c.task, looked);
    LookedFirst(ms);
    FirstOfWeighed(c.task, looked, w);
    d := Conclude(c, w);
  }

  lemma LookedFirst(ms: seq<Matched>)
    ensures FirstApproved(ms[..Looked(ms)]) == FirstApproved(ms)
  {
    var some, k := ms[..Looked(ms)], FirstApproved(ms);
    assert forall i :: 0 <= i < |some| ==> some[i] == ms[i];
    assert FirstApproved(some) >= k;
    assert k < |some| ==> some[k].evidence.Approved?;
  }

  /** The shared ending: mark the first approval, list the rest as not looked at,
      or say why there is none. */
  method Conclude(c: Candidate, w: Weighed) returns (d: Decision)
    requires var n := |w.eligible|; Looked(c.matches) <= n <= |c.matches| && WeighedRight(c.task, c.matches[..n], w)
    requires !AnyFails(c.matches[..Looked(c.matches)])
    ensures d == Rule(c)
  {
    var ms := c.matches;
    ghost var n := |w.eligible|;
    FirstOfWeighed(c.task, ms[..n], w);
    PrefixFirst(ms, n);
    if w.approved != [] {
      var first := w.approved[0].index;
      var eligible := w.eligible[..first + 1][first := w.eligible[first].(status := Chosen)];
      var rest := seq(|ms| - first - 1, i requires 0 <= i < |ms| - first - 1 => Entry(ms[first + 1 + i].profile, NotEvaluated));
      assert ApprovalRight(c.task, ms[..n], w.approved[0]);
      assert Rule(c).Reserve? && eligible + rest == Rule(c).eligible;
      return Reserve(eligible + rest, w.approved[0].inputs);
    }
    assert n == |ms| && ms[..n] == ms;
    if w.matched && !w.knowledge {
      return MissingKnowledge;
    }
    return Deny;
  }

  lemma PrefixFirst(ms: seq<Matched>, n: nat)
    requires Looked(ms) <= n <= |ms|
    ensures FirstApproved(ms) < |ms| ==> FirstApproved(ms[..n]) == FirstApproved(ms) < n
    ensures FirstApproved(ms) == |ms| ==> n == |ms|
  {
    var k := FirstApproved(ms);
    if k < |ms| {
      assert ms[..n][k].evidence.Approved?;
    }
  }

  /** Shadow and suggest: every profile is evaluated, and if one is approved the
      policies' inputs are read too. What is decided is the rule's decision,
      unless one of these reads fails. */
  ghost function Shadowed(c: Candidate, policyReadsFail: bool): Decision {
    if AnyFails(c.matches) || (policyReadsFail && FirstApproved(c.matches) < |c.matches|) then Failed else Rule(c)
  }

  method DecideShadowed(c: Candidate, policyReadsFail: bool) returns (d: Decision)
    ensures d == Shadowed(c, policyReadsFail)
  {
    var ms := c.matches;
    assert ms[..|ms|] == ms;
    var weighed := Weigh(c.task, ms, true);
    if weighed.Err? {
      return Failed;
    }
    var w := weighed.value;
    WeighedIsRight(c.task, ms);
    FirstOfWeighed(c.task, ms, w);
    if w.approved != [] && policyReadsFail {
      return Failed;
    }
    FewerFail(ms, Looked(ms));
    d := Conclude(c, w);
  }

  lemma FewerFail(ms: seq<Matched>, n: nat)
    requires n <= |ms|
    ensures AnyFails(ms[..n]) ==> AnyFails(ms)
  {
    if i :| 0 <= i < n && ms[..n][i].evidence == ReadFails {
      assert ms[i].evidence == ReadFails;
    }
  }

  /** Exactly when the shadowed form departs from the rule: the rule finds an
      approved profile, and a read that it does not make fails, of a later
      profile or of the policies' inputs. */
  lemma ShadowDeparts(c: Candidate, policyReadsFail: bool)
    ensures Shadowed(c, policyReadsFail) != Rule(c) <==>
            && FirstApproved(c.matches) < |c.matches| && !AnyFails(c.matches[..Looked(c.matches)])
            && (policyReadsFail || AnyFails(c.matches[Looked(c.matches)..]))
  {
    var ms, n := c.matches, Looked(c.matches);
    FewerFail(ms, n);
    assert ms == ms[..n] + ms[n..];
    if i :| 0 <= i < |ms| && ms[i].evidence == ReadFails {
      assert if i < n then ms[..n][i] == ms[i] else ms[n..][i - n] == ms[i];
    }
    if i :| 0 <= i < |ms[n..]| && ms[n..][i].evidence == ReadFails {
      assert ms[n + i] == ms[n..][i];
    }
  }

  /** An approved profile before one whose read fails: the rule reserves, the
      shadowed form fails. The same with the policies' reads alone. */
  lemma ShadowDepartsHere()
    ensures var c := Candidate("task", false, [Matched("a", Approved("yes")), Matched("b", ReadFails)]);
            Rule(c).Reserve? && Shadowed(c, false) == Failed
    ensures var c := Candidate("task", false, [Matched("a", Approved("yes"))]);
            Rule(c).Reserve? && Shadowed(c, true) == Failed && Shadowed(c, false) == Rule(c)
  {
    var ms := [Matched("a", Approved("yes")), Matched("b", ReadFails)];
    assert FirstApproved(ms) == 0 && ms[1].evidence == ReadFails;
    assert ms[..Looked(ms)] == [ms[0]];
    var one := [Matched("a", Approved("yes"))];
    assert FirstApproved(one) == 0 && one[..Looked(one)] == one;
  }

  // ---------------------------------------------------------------- a page of candidates

  datatype End = Open | Reserved(task: string, eligible: seq<Entry>, inputs: Inputs) | Broken

  /** What one page leads to: a reservation at most, the denials recorded in
      order, and the first task without knowledge. */
  datatype Page = Page(end: End, denials: seq<string>, missing: Option<string>)

  function Extend(p: Page, c: Candidate, d: Decision): Page {
    if c.blocked || !p.end.Open? then p
    else
      match d
      case Reserve(eligible, inputs) => p.(end := Reserved(c.task, eligible, inputs))
      case MissingKnowledge => p.(missing := if p.missing.Some? then p.missing else Some(c.task))
      case Deny => p.(denials := p.denials + [c.task])
      case _ => p.(end := Broken)
  }

  /** What is decided about one candidate, with policies off or merely watching. */
  ghost function Decided(c: Candidate, watched: bool, policyReadsFail: bool): Decision {
    if watched then Shadowed(c, policyReadsFail) else Rule(c)
  }

  ghost function Decisions(cs: seq<Candidate>, watched: bool, policyReadsFail: bool): seq<Decision> {
    seq(|cs|, i requires 0 <= i < |cs| => Decided(cs[i], watched, policyReadsFail))
  }

  /** The page these decisions about its candidates make. */
  function PageOf(cs: seq<Candidate>, ds: seq<Decision>): Page
    requires |cs| == |ds|
    decreases |cs|
  {
    if cs == [] then Page(Open, [], None)
    else
      var n := |cs| - 1;
      Extend(PageOf(cs[..n], ds[..n]), cs[n], ds[n])
  }

  ghost function RulePage(cs: seq<Candidate>): Page { PageOf(cs, Decisions(cs, false, false)) }

  ghost function WatchedPage(cs: seq<Candidate>, policyReadsFail: bool): Page { PageOf(cs, Decisions(cs, true, policyReadsFail)) }

  lemma {:induction false} ClosedStays(cs: seq<Candidate>, ds: seq<Decision>, n: nat)
    requires n <= |cs| == |ds| && !PageOf(cs[..n], ds[..n]).end.Open?
    ensures PageOf(cs, ds) == PageOf(cs[..n], ds[..n])
    decreases |cs|
  {
    if n < |cs| {
      assert cs[..|cs| - 1][..n] == cs[..n] && ds[..|cs| - 1][..n] == ds[..n];
      ClosedStays(cs[..|cs| - 1], ds[..|cs| - 1], n);
    } else {
      assert cs[..n] == cs && ds[..n] == ds;
    }
  }

  /** The whole page, in order, up to the first reservation or failed read. */
  method DecidePage(cs: seq<Candidate>, watched: bool, policyReadsFail: bool) returns (page: Page)
    ensures page == if watched then WatchedPage(cs, policyReadsFail) else RulePage(cs)
    ensures !policyReadsFail && (forall c <- cs :: !AnyFails(c.matches)) ==> page == RulePage(cs)
  {
    ghost var ds := Decisions(cs, watched, policyReadsFail);
    if watched { WatchedAgrees(cs, policyReadsFail); }
    assert !watched ==> ds == Decisions(cs, false, false);
    page := Page(Open, [], None);
    for i := 0 to |cs|
      invariant page == PageOf(cs[..i], ds[..i]) && page.end.Open?
    {
      page := DecideNext(page, cs[i], watched, policyReadsFail);
      PageStep(cs, ds, i);
      if !page.end.Open? {
        ClosedStays(cs, ds, i + 1);
        return;
      }
    }
    assert cs[..|cs|] == cs && ds[..|cs|] == ds;
  }

  lemma PageStep(cs: seq<Candidate>, ds: seq<Decision>, i: nat)
    requires i < |cs| == |ds|
    ensures PageOf(cs[..i + 1], ds[..i + 1]) == Extend(PageOf(cs[..i], ds[..i]), cs[i], ds[i])
  {
    assert cs[..i + 1][..i] == cs[..i] && ds[..i + 1][..i] == ds[..i];
  }

  method DecideNext(page: Page, c: Candidate, watched: bool, policyReadsFail: bool) returns (next: Page)
    requires page.end.Open?
    ensures next == Extend(page, c, Decided(c, watched, policyReadsFail))
  {
    if c.blocked {
      return page;
    }
    var d;
    if watched {
      d := DecideShadowed(c, policyReadsFail);
    } else {
      d := DecideByRule(c);
    }
    next := Extend(page, c, d);
  }

  /** The tasks of the unblocked candidates with this decision, in order. */
  function TasksWith(cs: seq<Candidate>, ds: seq<Decision>, d: Decision): seq<string>
    requires |cs| == |ds|
  {
    if cs == [] then []
    else
      var n := |cs| - 1;
      TasksWith(cs[..n], ds[..n], d) + if !cs[n].blocked && ds[n] == d then [cs[n].task] else []
  }

  function First(tasks: seq<string>): Option<string> { if tasks == [] then None else Some(tasks[0]) }

  /** A candidate that the page passes over. */
  predicate Passed(c: Candidate, d: Decision) { c.blocked || d == MissingKnowledge || d == Deny }

  /** Candidate `n` ends the page, or there is none that does. */
  predicate EndsAt(cs: seq<Candidate>, ds: seq<Decision>, n: nat)
    requires |cs| == |ds|
  {
    && n <= |cs| && (forall i :: 0 <= i < n ==> Passed(cs[i], ds[i]))
    && (n < |cs| ==> !Passed(cs[n], ds[n]))
  }

  lemma {:induction false} OpenPage(cs: seq<Candidate>, ds: seq<Decision>)
    requires |cs| == |ds| && forall i :: 0 <= i < |cs| ==> Passed(cs[i], ds[i])
    ensures PageOf(cs, ds) == Page(Open, TasksWith(cs, ds, Deny), First(TasksWith(cs, ds, MissingKnowledge)))
    decreases |cs|
  {
    if cs != [] {
      var n := |cs| - 1;
      assert Passed(cs[n], ds[n]);
      OpenPage(cs[..n], ds[..n]);
    }
  }

  lemma {:induction false} EndOf(cs: seq<Candidate>, ds: seq<Decision>, from: nat) returns (n: nat)
    requires from <= |cs| == |ds| && forall i :: 0 <= i < from ==> Passed(cs[i], ds[i])
    ensures EndsAt(cs, ds, n)
    decreases |cs| - from
  {
    n := from;
    if from < |cs| && Passed(cs[from], ds[from]) {
      n := EndOf(cs, ds, from + 1);
    }
  }

  /** What a page leads to: it ends at the first unblocked candidate that is
      reserved or whose reads fail, with that candidate's own reservation; until
      then every denied task is recorded, in order, and the first task without
      knowledge is named. */
  lemma PageIs(cs: seq<Candidate>, ds: seq<Decision>) returns (n: nat)
    requires |cs| == |ds|
    ensures EndsAt(cs, ds, n)
    ensures var p := PageOf(cs, ds);
            && p.denials == TasksWith(cs[..n], ds[..n], Deny)
            && p.missing == First(TasksWith(cs[..n], ds[..n], MissingKnowledge))
            && (n == |cs| ==> p.end == Open)
            && (n < |cs| ==> p.end == if ds[n].Reserve? then Reserved(cs[n].task, ds[n].eligible, ds[n].inputs) else Broken)
  {
    n := EndOf(cs, ds, 0);
    OpenPage(cs[..n], ds[..n]);
    if n < |cs| {
      PageStep(cs, ds, n);
      ClosedStays(cs, ds, n + 1);
    } else {
      assert cs[..n] == cs && ds[..n] == ds;
    }
  }

  /** Watching passes over the same candidates as the rule, and departs only
      where the rule reserves. */
  lemma ShadowPasses(c: Candidate, policyReadsFail: bool)
    ensures Passed(c, Shadowed(c, policyReadsFail)) == Passed(c, Rule(c))
    ensures Shadowed(c, policyReadsFail) != Rule(c) ==> Rule(c).Reserve? && Shadowed(c, policyReadsFail).Failed?
  {
    ShadowDeparts(c, policyReadsFail);
  }

  /** Decisions that differ only where the first reserves and the second fails
      end their pages at the same candidate, with the same record until there. */
  lemma PagesPart(cs: seq<Candidate>, ds: seq<Decision>, es: seq<Decision>) returns (n: nat)
    requires |cs| == |ds| == |es|
    requires forall i :: 0 <= i < |cs| ==> ds[i] == es[i] || (ds[i].Reserve? && es[i].Failed?)
    ensures EndsAt(cs, ds, n)
    ensures n < |cs| && ds[n] != es[n] ==> PageOf(cs, ds).end.Reserved? && PageOf(cs, es) == PageOf(cs, ds).(end := Broken)
    ensures n == |cs| || ds[n] == es[n] ==> PageOf(cs, es) == PageOf(cs, ds)
  {
    n := PageIs(cs, ds);
    var m := PageIs(cs, es);
    assert forall i :: 0 <= i < |cs| ==> Passed(cs[i], ds[i]) == Passed(cs[i], es[i]);
    assert m == n;
    SameTasks(cs[..n], ds[..n], es[..n], Deny);
    SameTasks(cs[..n], ds[..n], es[..n], MissingKnowledge);
  }

  lemma {:induction false} SameTasks(cs: seq<Candidate>, ds: seq<Decision>, es: seq<Decision>, d: Decision)
    requires |cs| == |ds| == |es| && forall i :: 0 <= i < |cs| ==> cs[i].blocked || ds[i] == es[i]
    ensures TasksWith(cs, ds, d) == TasksWith(cs, es, d)
    decreases |cs|
  {
    if cs != [] {
      var n := |cs| - 1;
      SameTasks(cs[..n], ds[..n], es[..n], d);
    }
  }

  /** A whole page with policies watching is the rule's page, reservation, inputs,
      statuses and denials, unless a read fails that the rule does not make, of the
      policies' inputs or of a later profile, for the one candidate it reserves.
      Then the page breaks there. */
  lemma PagesDifferIff(cs: seq<Candidate>, policyReadsFail: bool) returns (n: nat)
    ensures EndsAt(cs, Decisions(cs, false, false), n)
    ensures WatchedPage(cs, policyReadsFail) != RulePage(cs) <==>
              && n < |cs| && Rule(cs[n]).Reserve?
              && (policyReadsFail || AnyFails(cs[n].matches[Looked(cs[n].matches)..]))
    ensures WatchedPage(cs, policyReadsFail) != RulePage(cs) ==> WatchedPage(cs, policyReadsFail) == RulePage(cs).(end := Broken)
  {
    var ds, es := Decisions(cs, false, false), Decisions(cs, true, policyReadsFail);
    forall i | 0 <= i < |cs| ensures ds[i] == es[i] || (ds[i].Reserve? && es[i].Failed?) {
      ShadowPasses(cs[i], policyReadsFail);
    }
    n := PagesPart(cs, ds, es);
    if n < |cs| {
      RuleReserves(cs[n]);
      ShadowDeparts(cs[n], policyReadsFail);
    }
  }

  lemma RuleReserves(c: Candidate)
    ensures Rule(c).Reserve? <==> FirstApproved(c.matches) < |c.matches| && !AnyFails(c.matches[..Looked(c.matches)])
  {
  }

  lemma WatchedAgrees(cs: seq<Candidate>, policyReadsFail: bool)
    ensures !policyReadsFail && (forall c <- cs :: !AnyFails(c.matches)) ==> WatchedPage(cs, policyReadsFail) == RulePage(cs)
  {
    var n := PagesDifferIff(cs, policyReadsFail);
    if n < |cs| {
      var ms, k := cs[n].matches, Looked(cs[n].matches);
      if i :| 0 <= i < |ms[k..]| && ms[k..][i].evidence == ReadFails {
        assert ms[k + i].evidence == ReadFails;
      }
    }
  }

  // ---------------------------------------------------------------- assignment

  function Sum(s: seq<nat>): nat {
    if s == [] then 0 else Sum(s[..|s| - 1]) + s[|s| - 1]
  }

  lemma {:induction false} SumUpdate(s: seq<nat>, i: nat, v: nat)
    requires i < |s|
    ensures Sum(s[i := v]) == Sum(s) - s[i] + v
    decreases |s|
  {
    var n := |s| - 1;
    if i < n {
      SumUpdate(s[..n], i, v);
      assert s[i := v][..n] == s[..n][i := v];
    } else {
      assert s[i := v][..n] == s[..n];
    }
  }

  lemma {:induction false} SumZero(s: seq<nat>)
    requires forall i :: 0 <= i < |s| ==> s[i] == 0
    ensures Sum(s) == 0
    decreases |s|
  {
    if s != [] {
      SumZero(s[..|s| - 1]);
    }
  }

  /** Spreads the arms' probabilities over the positions of the approved
      profiles: the total is kept and every other position stays at zero. */
  method Scatter(n: nat, approved: seq<Approval>, probabilities: seq<nat>) returns (out: seq<nat>)
    requires |probabilities| == |approved|
    requires forall p :: 0 <= p < |approved| ==> approved[p].index < n
    requires forall p, q :: 0 <= p < q < |approved| ==> approved[p].index < approved[q].index
    ensures |out| == n && Sum(out) == Sum(probabilities)
    ensures forall p :: 0 <= p < |approved| ==> out[approved[p].index] == probabilities[p]
    ensures forall i :: 0 <= i < n && (forall p :: 0 <= p < |approved| ==> approved[p].index != i) ==> out[i] == 0
  {
    var slots := new nat[n](_ => 0);
    SumZero(slots[..]);
    for position := 0 to |approved|
      invariant Sum(slots[..]) == Sum(probabilities[..position])
      invariant forall p :: 0 <= p < position ==> slots[approved[p].index] == probabilities[p]
      invariant forall i :: 0 <= i < n && (forall p :: 0 <= p < position ==> approved[p].index != i) ==> slots[i] == 0
    {
      ghost var before := slots[..];
      var index := approved[position].index;
      assert slots[index] == 0;
      SumUpdate(before, index, probabilities[position]);
      slots[index] := probabilities[position];
      assert slots[..] == before[index := probabilities[position]];
      assert probabilities[..position + 1][..position] == probabilities[..position];
    }
    assert probabilities[..|approved|] == probabilities;
    out := slots[..];
  }

  /** Assignment mode. `permitted` says that the grant is there, not revoked and
      permits the policy now. The evaluation has one probability per approved arm. */
  method DecideAssigned(c: Candidate, policyReadsFail: bool, permitted: bool, evaluation: Evaluation) returns (d: Decision)
    requires |evaluation.probabilities| == |WeighedOf(c.task, c.matches).approved|
    requires evaluation.chosen.Some? ==> evaluation.chosen.value < |evaluation.probabilities|
    ensures d.Failed? <==> AnyFails(c.matches) || (policyReadsFail && FirstApproved(c.matches) < |c.matches|)
    ensures !d.Failed? && FirstApproved(c.matches) == |c.matches| ==> d == Rule(c)
    ensures !d.Failed? && FirstApproved(c.matches) < |c.matches| ==>
              if permitted && evaluation.chosen.Some? then d.Assign? && AssignedRight(c, WeighedOf(c.task, c.matches).approved, evaluation, d) else d == Abstain
  {
    var ms := c.matches;
    assert ms[..|ms|] == ms;
    var weighed := Weigh(c.task, ms, true);
    if weighed.Err? {
      return Failed;
    }
    var w := weighed.value;
    WeighedIsRight(c.task, ms);
    FirstOfWeighed(c.task, ms, w);
    if w.approved == [] {
      FewerFail(ms, Looked(ms));
      d := Conclude(c, w);
      return;
    }
    if policyReadsFail {
      return Failed;
    }
    if !permitted || evaluation.chosen.None? {
      return Abstain;
    }
    d := Pick(c, w, evaluation, evaluation.chosen.value);
  }

  method Pick(c: Candidate, w: Weighed, evaluation: Evaluation, position: nat) returns (d: Decision)
    requires WeighedRight(c.task, c.matches, w)
    requires position < |evaluation.probabilities| == |w.approved| && evaluation.chosen == Some(position)
    ensures d.Assign? && AssignedRight(c, w.approved, evaluation, d)
  {
    assert forall p :: 0 <= p < |w.approved| ==> ApprovalRight(c.task, c.matches, w.approved[p]);
    var probabilities := Scatter(|w.eligible|, w.approved, evaluation.probabilities);
    var pick := w.approved[position];
    var eligible := w.eligible[pick.index := w.eligible[pick.index].(status := Chosen)];
    d := Assign(eligible, probabilities, pick.inputs);
    UnapprovedIsZero(c, w, probabilities);
    PickedIsChosen(c, w, d, position);
  }

  lemma PickedIsChosen(c: Candidate, w: Weighed, d: Decision, position: nat)
    requires WeighedRight(c.task, c.matches, w) && position < |w.approved| && d.Assign?
    requires ApprovalRight(c.task, c.matches, w.approved[position]) && d.inputs == w.approved[position].inputs
    requires d.eligible == w.eligible[w.approved[position].index := w.eligible[w.approved[position].index].(status := Chosen)]
    ensures ChosenAt(c, d, w.approved[position].index)
    ensures forall i :: 0 <= i < |c.matches| ==> d.eligible[i].profile == c.matches[i].profile && Tells(d.eligible[i].status, c.matches[i].evidence)
  {
  }

  lemma UnapprovedIsZero(c: Candidate, w: Weighed, probabilities: seq<nat>)
    requires WeighedRight(c.task, c.matches, w) && |probabilities| == |c.matches|
    requires forall i :: 0 <= i < |w.eligible| && (forall p :: 0 <= p < |w.approved| ==> w.approved[p].index != i) ==> probabilities[i] == 0
    ensures forall i :: 0 <= i < |c.matches| && !c.matches[i].evidence.Approved? ==> probabilities[i] == 0
  {
    forall i | 0 <= i < |c.matches| && !c.matches[i].evidence.Approved? ensures probabilities[i] == 0 {
      forall p | 0 <= p < |w.approved| ensures w.approved[p].index != i {
        assert ApprovalRight(c.task, c.matches, w.approved[p]);
      }
    }
  }

  /** One entry per matched profile in order; exactly one is chosen, the
      approved profile the evaluation picked, and the sealed inputs are its own;
      the probabilities are the evaluation's, each at its arm's position. */
  ghost predicate AssignedRight(c: Candidate, approved: seq<Approval>, e: Evaluation, d: Decision)
    requires d.Assign?
  {
    && |d.eligible| == |d.probabilities| == |c.matches|
    && (forall i :: 0 <= i < |c.matches| ==> d.eligible[i].profile == c.matches[i].profile && Tells(d.eligible[i].status, c.matches[i].evidence))
    && e.chosen.Some? && e.chosen.value < |approved| == |e.probabilities|
    && ChosenAt(c, d, approved[e.chosen.value].index)
    && Sum(d.probabilities) == Sum(e.probabilities)
    && (forall p :: 0 <= p < |approved| ==> approved[p].index < |c.matches| && d.probabilities[approved[p].index] == e.probabilities[p])
    && (forall i :: 0 <= i < |c.matches| && !c.matches[i].evidence.Approved? ==> d.probabilities[i] == 0)
  }

  ghost predicate ChosenAt(c: Candidate, d: Decision, k: nat)
    requires d.Assign? && |d.eligible| == |c.matches|
  {
    && k < |c.matches| && c.matches[k].evidence == Approved(d.inputs.approval) && d.inputs.task == c.task && d.inputs.profile == c.matches[k].profile
    && (forall i :: 0 <= i < |c.matches| ==> (d.eligible[i].status == Chosen <==> i == k))
  }
}
