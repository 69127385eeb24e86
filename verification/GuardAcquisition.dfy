/** How one process takes and gives up guards: the try-lock sequences, the
    retry loops and their failure paths, against other processes that take and
    drop locks whenever this one sleeps. */
module GuardAcquisition {
  import opened Results
  import opened LockNames
  import opened Ordering
  import K = LockKernel

  datatype Held = Held(file: LockName, mode: Mode)

  type Table = map<nat, Held>

  type Others = map<LockName, Mode>

  /** `flock` grants a lock that conflicts with nobody: neither with another
      process nor with another description of this one. */
  predicate CanLock(mine: Table, others: Others, file: LockName, mode: Mode) {
    && (file in others ==> Compatible(others[file], mode))
    && (forall h <- mine :: mine[h].file == file ==> Compatible(mine[h].mode, mode))
  }

  /** An exclusive lock is granted exactly on a file nobody has, a shared one
      exactly on a file nobody has exclusively. */
  lemma CanLockIff(mine: Table, others: Others, file: LockName)
    ensures CanLock(mine, others, file, Exclusive) <==> file !in others && forall h :: h in mine ==> mine[h].file != file
    ensures CanLock(mine, others, file, Shared) <==>
              (file in others ==> others[file] == Shared) && forall h :: h in mine && mine[h].file == file ==> mine[h].mode == Shared
  {
  }

  /** One process never has conflicting locks on two descriptions of a file. */
  ghost predicate Consistent(mine: Table) {
    forall h, k :: h in mine && k in mine && h != k && mine[h].file == mine[k].file ==> Compatible(mine[h].mode, mine[k].mode)
  }

  /** A granted lock keeps it so, and so does dropping one. */
  lemma ConsistentKept(mine: Table, others: Others, file: LockName, mode: Mode, h: nat)
    requires Consistent(mine)
    ensures CanLock(mine, others, file, mode) && h !in mine ==> Consistent(mine[h := Held(file, mode)])
    ensures Consistent(mine - {h})
  {
  }

  /** What other processes can have locked, given what they want and what this one holds. */
  function Granted(wanted: Others, mine: Table): Others {
    map f <- wanted | (forall h <- mine :: mine[h].file == f ==> Compatible(mine[h].mode, wanted[f])) :: wanted[f]
  }

  predicate Has(mine: Table, h: nat, file: LockName, mode: Mode) {
    h in mine && mine[h] == Held(file, mode)
  }

  /** The classes a footprint may name, and the shape of an identity. */
  predicate ValidResource(x: Resource) {
    && (x.class_ == "git" || x.class_ == "artifact" || x.class_ == "scratch")
    && 0 < |x.identity| <= 4096 && x.identity[0] == '/'
    && (forall c <- x.identity :: !Control(c))
  }

  predicate Control(c: char) {
    c < ' ' || '\U{7f}' <= c <= '\U{9f}'
  }

  /** The text whose digest names a resource's fence file. */
  function FencePreimage(x: Resource): string {
    x.class_ + ['\0'] + x.identity
  }

  /** Different resources never share a fence file, as far as the digest's
      input goes: the separator cannot occur in a class or an identity. */
  lemma FenceFilesDiffer(a: Resource, b: Resource)
    requires ValidResource(a) && ValidResource(b) && FencePreimage(a) == FencePreimage(b)
    ensures a == b
  {
    var p := FencePreimage(a);
    assert p[|a.class_|] == '\0' && p[|b.class_|] == '\0';
    assert a.class_ == p[..|a.class_|] && b.class_ == p[..|b.class_|];
    assert a.identity == p[|a.class_| + 1..] && b.identity == p[|b.class_| + 1..];
  }

  /** `bigger` holds what `smaller` holds and more, but nothing more on `file`. */
  ghost predicate AddsNothingOn(smaller: Table, bigger: Table, file: LockName) {
    && (forall h :: h in smaller ==> h in bigger && bigger[h] == smaller[h])
    && (forall h :: h in bigger && bigger[h].file == file ==> h in smaller)
  }

  lemma LockElsewhere(smaller: Table, bigger: Table, others: Others, file: LockName, mode: Mode)
    requires AddsNothingOn(smaller, bigger, file)
    ensures CanLock(bigger, others, file, mode) == CanLock(smaller, others, file, mode)
  {
  }

  /** Every lock of a declared footprint. */
  ghost predicate FootprintFree(mine: Table, others: Others, p: Project, resources: seq<Resource>) {
    && CanLock(mine, others, RootLock(p.root), Shared)
    && CanLock(mine, others, EffectLock(p), Shared)
    && (forall x :: x in resources ==> CanLock(mine, others, FenceLock(p.root, x), Exclusive))
    && CanLock(mine, others, RoutineLock(p.root), Shared)
  }

  ghost predicate ProjectFree(mine: Table, others: Others, p: Project) {
    CanLock(mine, others, RootLock(p.root), Shared) && CanLock(mine, others, EffectLock(p), Exclusive)
  }

  /** `after` is `before` plus one exclusive fence per resource, under fresh handles. */
  ghost predicate FencesAdded(before: Table, after: Table, root: Path, resources: seq<Resource>, fences: map<Resource, nat>) {
    && (forall x :: x in fences <==> x in resources)
    && fences.Values !! before.Keys
    && after.Keys == before.Keys + fences.Values
    && (forall h :: h in before ==> after[h] == before[h])
    && (forall x :: x in fences ==> after[fences[x]] == Held(FenceLock(root, x), Exclusive))
  }

  lemma FencesValues(fences: map<Resource, nat>, x: Resource, h: nat)
    requires x !in fences
    ensures fences[x := h].Values == fences.Values + {h}
  {
    var m := fences[x := h];
    assert m[x] == h;
    forall v | v in fences.Values ensures v in m.Values {
      var y :| y in fences && fences[y] == v;
      assert m[y] == v;
    }
  }

  /** Dropping the fences leaves what was held before. */
  lemma FencesGone(before: Table, after: Table, root: Path, resources: seq<Resource>, fences: map<Resource, nat>)
    requires FencesAdded(before, after, root, resources, fences)
    ensures after - fences.Values == before
  {
    var rest := after - fences.Values;
    assert rest.Keys == before.Keys;
  }

  lemma FencesOneMore(before: Table, after: Table, root: Path, resources: seq<Resource>, fences: map<Resource, nat>, x: Resource, h: nat)
    requires FencesAdded(before, after, root, resources, fences) && x !in resources && h !in after
    ensures FencesAdded(before, after[h := Held(FenceLock(root, x), Exclusive)], root, resources + [x], fences[x := h])
  {
    FencesValues(fences, x, h);
    var more := after[h := Held(FenceLock(root, x), Exclusive)];
    assert more.Keys == before.Keys + fences[x := h].Values;
    forall y | y in fences ensures more[fences[y]] == Held(FenceLock(root, y), Exclusive) {
      assert fences[y] in fences.Values;
    }
  }

  lemma StrictlyAscendingIsFresh(ordered: seq<Resource>, i: nat)
    requires StrictlyAscending(ordered) && i < |ordered|
    ensures ordered[i] !in ordered[..i]
  {
    forall j | 0 <= j < i ensures ordered[j] != ordered[i] {
      BeforeTotal(ordered[j], ordered[i]);
    }
  }

  /** A guard's locks, as this process holds them. */
  predicate HoldsGuard(mine: Table, g: K.Guard) {
    match g
    case RootGuard(root, r) => Has(mine, r, RootLock(root), Exclusive)
    case ProjectGuard(p, r, e) => Has(mine, r, RootLock(p.root), Shared) && Has(mine, e, EffectLock(p), Exclusive)
    case SharedGuard(p, r, e, fences, q) =>
      && Has(mine, r, RootLock(p.root), Shared) && Has(mine, e, EffectLock(p), Shared)
      && Has(mine, q, RoutineLock(p.root), Shared)
      && (forall x <- fences :: Has(mine, fences[x], FenceLock(p.root, x), Exclusive))
    case Fence(root, x, f) => Has(mine, f, FenceLock(root, x), Exclusive)
    case CheckGuard(p, x, f, r) => Has(mine, r, RootLock(p.root), Shared) && Has(mine, f, FenceLock(p.root, x), Exclusive)
  }

  /** The guards one process holds at a time may coexist: within a process the
      locks exclude as they do between processes. */
  lemma OwnGuardsExclude(mine: Table, a: K.Guard, b: K.Guard)
    requires Consistent(mine) && HoldsGuard(mine, a) && HoldsGuard(mine, b) && K.HandlesOf(a) !! K.HandlesOf(b)
    ensures K.MayCoexist(a, b)
  {
    if f :| f in K.FencedBy(a) && f in K.FencedBy(b) {
      var x := FenceHandle(mine, a, f);
      var y := FenceHandle(mine, b, f);
      assert false;
    }
  }

  lemma FenceHandle(mine: Table, g: K.Guard, f: (Path, Resource)) returns (h: nat)
    requires HoldsGuard(mine, g) && f in K.FencedBy(g)
    ensures h in K.HandlesOf(g) && Has(mine, h, FenceLock(f.0, f.1), Exclusive)
  {
    match g
    case SharedGuard(_, _, _, fences, _) => h := fences[f.1];
    case Fence(_, _, l) => h := l;
    case CheckGuard(_, _, l, _) => h := l;
  }

  /** While this process holds a guard, no other has a lock the guard excludes. */
  lemma GuardKeepsOthersOut(l: Locks, g: K.Guard)
    requires l.Valid() && HoldsGuard(l.mine, g)
    ensures match g
            case RootGuard(root, _) => RootLock(root) !in l.others
            case ProjectGuard(p, _, _) => EffectLock(p) !in l.others && RootShared(l.others, p.root)
            case SharedGuard(p, _, _, fences, _) =>
              && RootShared(l.others, p.root) && (EffectLock(p) in l.others ==> l.others[EffectLock(p)] == Shared)
              && forall x :: x in fences ==> FenceLock(p.root, x) !in l.others
            case Fence(root, x, _) => FenceLock(root, x) !in l.others
            case CheckGuard(p, x, _, _) => FenceLock(p.root, x) !in l.others && RootShared(l.others, p.root)
  {
  }

  /** No other process has the root exclusively. */
  predicate RootShared(others: Others, root: Path) {
    RootLock(root) in others ==> others[RootLock(root)] == Shared
  }

  /** Nothing but the guard's own locks came or went. */
  ghost predicate OnlyAdds(before: Table, after: Table, g: K.Guard) {
    && K.HandlesOf(g) !! before.Keys
    && after.Keys == before.Keys + K.HandlesOf(g)
    && (forall h :: h in before ==> after[h] == before[h])
  }

  /** The fence handles in acquisition order. */
  function ValueList(fences: map<Resource, nat>, ordered: seq<Resource>): (r: seq<nat>)
    requires forall x :: x in ordered ==> x in fences
    ensures forall h :: h in r <==> exists x :: x in ordered && fences[x] == h
  {
    if ordered == [] then [] else [fences[ordered[0]]] + ValueList(fences, ordered[1..])
  }

  lemma AllListed(fences: map<Resource, nat>, ordered: seq<Resource>)
    requires forall x :: x in ordered <==> x in fences
    ensures (set h <- ValueList(fences, ordered)) == fences.Values
  {
  }

  lemma AddedThenGone(mine: Table, h: nat, l: Held)
    requires h !in mine
    ensures mine[h := l] - {h} == mine
  {
  }

  /** Root and project locks do not stand in the way of fences or the routine lock. */
  lemma FootprintElsewhere(before: Table, base: Table, others: Others, p: Project, root: nat, project: nat)
    requires root !in before && project !in before && root != project
    requires base.Keys == before.Keys + {root, project} && forall h :: h in before ==> base[h] == before[h]
    requires base[root].file == RootLock(p.root) && base[project].file == EffectLock(p)
    ensures forall x :: CanLock(base, others, FenceLock(p.root, x), Exclusive) == CanLock(before, others, FenceLock(p.root, x), Exclusive)
  {
    forall x ensures CanLock(base, others, FenceLock(p.root, x), Exclusive) == CanLock(before, others, FenceLock(p.root, x), Exclusive) {
      LockElsewhere(before, base, others, FenceLock(p.root, x), Exclusive);
    }
  }

  class Locks {
    /** The lock files of this process, by handle. */
    var mine: Table
    /** The strongest lock any other process has on a file. */
    var others: Others
    var next: nat
    var clock: int
    var turn: nat
    /** Every state of the other processes seen at a lock attempt since a sleep. */
    ghost var seen: seq<Others>
    /** What the other processes want after each sleep, and how long sleeps overrun. */
    const wanted: nat -> Others
    const overrun: nat -> nat

    constructor (wanted: nat -> Others, overrun: nat -> nat)
      ensures mine == map[] && others == map[] && Valid()
      ensures this.wanted == wanted && this.overrun == overrun && seen == []
    {
      this.wanted := wanted;
      this.overrun := overrun;
      mine := map[];
      others := map[];
      next := 0;
      clock := 0;
      turn := 0;
      seen := [];
    }

    ghost predicate Valid()
      reads this
    {
      && (forall h :: h in mine ==> h < next)
      && (forall f, h :: f in others && h in mine && mine[h].file == f ==> Compatible(others[f], mine[h].mode))
    }

    /** Let other processes run. They keep within what `flock` grants them. */
    method Sleep(milliseconds: nat)
      requires Valid()
      modifies this`others, this`clock, this`turn, this`seen
      ensures Valid() && others == Granted(wanted(old(turn)), mine)
      ensures clock == old(clock) + milliseconds + overrun(old(turn)) && turn == old(turn) + 1
      ensures seen == old(seen) + [others]
    {
      others := Granted(wanted(turn), mine);
      clock := clock + milliseconds + overrun(turn);
      turn := turn + 1;
      seen := seen + [others];
    }

    method TryLock(file: LockName, mode: Mode) returns (r: Option<nat>)
      requires Valid()
      modifies this`mine, this`next
      ensures Valid()
      ensures r.Some? <==> CanLock(old(mine), others, file, mode)
      ensures r.Some? ==> r.value == old(next) && r.value !in old(mine) && mine == old(mine)[r.value := Held(file, mode)] && next == old(next) + 1
      ensures r.None? ==> mine == old(mine) && next == old(next)
    {
      if CanLock(mine, others, file, mode) {
        mine := mine[next := Held(file, mode)];
        r := Some(next);
        next := next + 1;
      } else {
        r := None;
      }
    }

    /** Drop a lock file. */
    method Release(h: nat)
      requires Valid()
      modifies this`mine
      ensures Valid() && mine == old(mine) - {h}
    {
      mine := mine - {h};
    }

    /** An exclusive lock, retried while others hold it until the deadline or
        cancellation. The first moment it can be had is the moment it is taken. */
    method ExclusiveFileUntil(file: LockName, regular: bool, until: int, cancelledFrom: int) returns (r: Result<nat>)
      requires Valid()
      modifies this
      ensures Valid()
      ensures r.Ok? ==> r.value !in old(mine) && mine == old(mine)[r.value := Held(file, Exclusive)]
      ensures r.Err? ==> mine == old(mine)
      ensures old(seen) <= seen && (!regular ==> r.Err? && seen == old(seen))
      ensures regular ==>
        var attempts := [old(others)] + seen[|old(seen)|..];
        && (forall i :: 0 <= i < |attempts| - 1 ==> !CanLock(old(mine), attempts[i], file, Exclusive))
        && (r.Ok? <==> CanLock(old(mine), attempts[|attempts| - 1], file, Exclusive))
        && (r.Err? ==> clock >= until || clock >= cancelledFrom)
    {
      if !regular {
        return Err("execution lock must be a regular file");
      }
      ghost var attempts := [others];
      while true
        invariant Valid() && mine == old(mine)
        invariant old(seen) <= seen && attempts == [old(others)] + seen[|old(seen)|..]
        invariant attempts[|attempts| - 1] == others
        invariant forall i :: 0 <= i < |attempts| - 1 ==> !CanLock(old(mine), attempts[i], file, Exclusive)
        decreases until - clock
      {
        var h := TryLock(file, Exclusive);
        if h.Some? {
          return Ok(h.value);
        }
        if clock >= until || clock >= cancelledFrom {
          return Err("another operation owns lock; retry");
        }
        Sleep(10);
        attempts := attempts + [others];
      }
    }

    /** Shared root, the state directory check, then the project lock: all or nothing. */
    method LockProject(p: Project, mode: Mode, stateIsDirectory: bool) returns (r: Result<(nat, nat)>)
      requires Valid()
      modifies this`mine, this`next
      ensures Valid()
      ensures r.Ok? <==>
        stateIsDirectory && CanLock(old(mine), others, RootLock(p.root), Shared) && CanLock(old(mine), others, EffectLock(p), mode)
      ensures r.Err? ==> mine == old(mine)
      ensures r.Ok? ==>
        && r.value.0 != r.value.1 && r.value.0 !in old(mine) && r.value.1 !in old(mine)
        && mine == old(mine)[r.value.0 := Held(RootLock(p.root), Shared)][r.value.1 := Held(EffectLock(p), mode)]
    {
      var root := TryLock(RootLock(p.root), Shared);
      if root.None? {
        return Err("root maintenance or exclusive external operation is active; retry");
      }
      if !stateIsDirectory {
        Release(root.value);
        assert mine == old(mine);
        return Err("project state must be a real directory");
      }
      LockElsewhere(old(mine), mine, others, EffectLock(p), mode);
      var project := TryLock(EffectLock(p), mode);
      if project.None? {
        Release(root.value);
        assert mine == old(mine);
        return Err("another operation owns this project; retry");
      }
      r := Ok((root.value, project.value));
    }

    /** Exclusive project ownership under the shared root. */
    method AcquireProject(p: Project, stateIsDirectory: bool) returns (r: Result<K.Guard>)
      requires Valid()
      modifies this`mine, this`next
      ensures Valid()
      ensures r.Ok? <==> stateIsDirectory && ProjectFree(old(mine), others, p)
      ensures r.Err? ==> mine == old(mine)
      ensures r.Ok? ==>
        && r.value.ProjectGuard? && r.value.project == p
        && HoldsGuard(mine, r.value) && OnlyAdds(old(mine), mine, r.value)
    {
      var locks := LockProject(p, Exclusive, stateIsDirectory);
      if locks.Err? {
        return Err(locks.error);
      }
      r := Ok(K.ProjectGuard(p, locks.value.0, locks.value.1));
    }

    method ReleaseAll(handles: seq<nat>)
      requires Valid()
      modifies this`mine
      ensures Valid() && mine == old(mine) - (set h <- handles)
    {
      for i := 0 to |handles|
        invariant Valid() && mine == old(mine) - (set h <- handles[..i])
      {
        Release(handles[i]);
        assert handles[..i + 1] == handles[..i] + [handles[i]];
      }
      assert handles[..|handles|] == handles;
    }

    /** The sorted fence loop: one exclusive lock per resource, or none. */
    method LockFences(p: Project, ordered: seq<Resource>) returns (r: Option<map<Resource, nat>>)
      requires Valid() && StrictlyAscending(ordered)
      modifies this`mine, this`next
      ensures Valid()
      ensures r.Some? <==> forall x :: x in ordered ==> CanLock(old(mine), others, FenceLock(p.root, x), Exclusive)
      ensures r.None? ==> mine == old(mine)
      ensures r.Some? ==> FencesAdded(old(mine), mine, p.root, ordered, r.value)
    {
      var fences: map<Resource, nat> := map[];
      var handles: seq<nat> := [];
      for i := 0 to |ordered|
        invariant Valid()
        invariant FencesAdded(old(mine), mine, p.root, ordered[..i], fences)
        invariant forall x :: x in ordered[..i] ==> CanLock(old(mine), others, FenceLock(p.root, x), Exclusive)
        invariant (set h <- handles) == fences.Values
      {
        var x := ordered[i];
        StrictlyAscendingIsFresh(ordered, i);
        LockElsewhere(old(mine), mine, others, FenceLock(p.root, x), Exclusive);
        assert ordered[..i + 1] == ordered[..i] + [x];
        ghost var before := mine;
        var h := TryLock(FenceLock(p.root, x), Exclusive);
        if h.None? {
          ReleaseAll(handles);
          FencesGone(old(mine), before, p.root, ordered[..i], fences);
          assert x in ordered;
          return None;
        }
        FencesValues(fences, x, h.value);
        FencesOneMore(old(mine), before, p.root, ordered[..i], fences, x, h.value);
        fences := fences[x := h.value];
        handles := handles + [h.value];
      }
      assert ordered[..|ordered|] == ordered;
      r := Some(fences);
    }

    /** Shared project ownership for a declared footprint: shared root, shared
        project, the sorted fences and the shared routine lock, or nothing. */
    method AcquireShared(p: Project, resources: seq<Resource>, stateIsDirectory: bool) returns (r: Result<K.Guard>)
      requires Valid()
      modifies this`mine, this`next
      ensures Valid()
      ensures r.Ok? <==>
        && resources != [] && NoDuplicates(resources) && (forall x <- resources :: ValidResource(x))
        && stateIsDirectory && FootprintFree(old(mine), others, p, resources)
      ensures r.Err? ==> mine == old(mine)
      ensures r.Ok? ==>
        && r.value.SharedGuard? && r.value.project == p && r.value.fences.Keys == (set x <- resources)
        && HoldsGuard(mine, r.value) && OnlyAdds(old(mine), mine, r.value)
    {
      if resources == [] {
        return Err("shared guard requires a declared footprint");
      }
      var ordered := Sort(resources);
      FootprintOrder(resources);
      SortDuplicates(resources);
      if !DistinctNeighbours(ordered) {
        return Err("duplicate resource fence");
      }
      if exists x <- ordered :: !ValidResource(x) {
        return Err("invalid effect resource");
      }
      r := LockFootprint(p, resources, ordered, stateIsDirectory);
    }

    /** The fences, then the shared routine lock. */
    method LockFencesAndRoutine(p: Project, ordered: seq<Resource>) returns (r: Option<(map<Resource, nat>, nat)>)
      requires Valid() && StrictlyAscending(ordered)
      modifies this`mine, this`next
      ensures Valid()
      ensures r.Some? <==>
        && (forall x :: x in ordered ==> CanLock(old(mine), others, FenceLock(p.root, x), Exclusive))
        && CanLock(old(mine), others, RoutineLock(p.root), Shared)
      ensures r.None? ==> mine == old(mine)
      ensures r.Some? ==>
        && r.value.1 !in old(mine) && r.value.1 in mine && mine[r.value.1] == Held(RoutineLock(p.root), Shared)
        && r.value.1 !in r.value.0.Values
        && FencesAdded(old(mine), mine - {r.value.1}, p.root, ordered, r.value.0)
    {
      var fences := LockFences(p, ordered);
      if fences.None? {
        return None;
      }
      ghost var fenced := mine;
      LockElsewhere(old(mine), mine, others, RoutineLock(p.root), Shared);
      var routine := TryLock(RoutineLock(p.root), Shared);
      if routine.None? {
        ReleaseAll(ValueList(fences.value, ordered));
        AllListed(fences.value, ordered);
        FencesGone(old(mine), fenced, p.root, ordered, fences.value);
        return None;
      }
      AddedThenGone(fenced, routine.value, Held(RoutineLock(p.root), Shared));
      r := Some((fences.value, routine.value));
    }

    method LockFootprint(p: Project, ghost resources: seq<Resource>, ordered: seq<Resource>, stateIsDirectory: bool) returns (r: Result<K.Guard>)
      requires Valid() && StrictlyAscending(ordered) && forall x :: x in ordered <==> x in resources
      modifies this`mine, this`next
      ensures Valid()
      ensures r.Ok? <==> stateIsDirectory && FootprintFree(old(mine), others, p, resources)
      ensures r.Err? ==> mine == old(mine)
      ensures r.Ok? ==>
        && r.value.SharedGuard? && r.value.project == p && r.value.fences.Keys == (set x <- resources)
        && HoldsGuard(mine, r.value) && OnlyAdds(old(mine), mine, r.value)
    {
      var locks := LockProject(p, Shared, stateIsDirectory);
      if locks.Err? {
        return Err(locks.error);
      }
      var root, project := locks.value.0, locks.value.1;
      FootprintElsewhere(old(mine), mine, others, p, root, project);
      LockElsewhere(old(mine), mine, others, RoutineLock(p.root), Shared);
      var rest := LockFencesAndRoutine(p, ordered);
      if rest.None? {
        ReleaseAll([project, root]);
        assert mine == old(mine);
        return Err("another operation owns lock; retry");
      }
      r := Ok(K.SharedGuard(p, root, project, rest.value.0, rest.value.1));
    }

    /** Take one resource's fence under project ownership. */
    method FenceUnder(g: K.Guard, x: Resource) returns (r: Result<K.Guard>)
      requires Valid() && g.ProjectGuard?
      modifies this`mine, this`next
      ensures Valid()
      ensures r.Ok? <==> ValidResource(x) && CanLock(old(mine), others, FenceLock(g.project.root, x), Exclusive)
      ensures r.Err? ==> mine == old(mine)
      ensures r.Ok? ==>
        r.value.Fence? && r.value.fenceRoot == g.project.root && r.value.resource == x
        && HoldsGuard(mine, r.value) && OnlyAdds(old(mine), mine, r.value)
    {
      if !ValidResource(x) {
        return Err("invalid effect resource");
      }
      var h := TryLock(FenceLock(g.project.root, x), Exclusive);
      if h.None? {
        return Err("another operation owns lock; retry");
      }
      r := Ok(K.Fence(g.project.root, x, h.value));
    }

    /** Keep the shared root and the fence; release project ownership. */
    method Narrow(g: K.Guard, f: K.Guard) returns (c: K.Guard)
      requires Valid() && g.ProjectGuard? && f.Fence? && f.fenceRoot == g.project.root
      requires HoldsGuard(mine, g) && HoldsGuard(mine, f)
      modifies this`mine
      ensures Valid() && mine == old(mine) - {g.projectLock}
      ensures c == K.CheckGuard(g.project, f.resource, f.fenceLock, g.rootLock) && HoldsGuard(mine, c)
    {
      Release(g.projectLock);
      c := K.CheckGuard(g.project, f.resource, f.fenceLock, g.rootLock);
    }

    /** One attempt to own the project again under the shared root still held;
        it either fails and changes nothing, or the root is handed over. */
    method TryWiden(c: K.Guard, stateIsDirectory: bool, sameIdentity: bool) returns (r: Result<Option<K.Guard>>)
      requires Valid() && c.CheckGuard? && Has(mine, c.rootLock, RootLock(c.project.root), Shared)
      modifies this`mine, this`next
      ensures Valid()
      ensures r == Ok(None) <==> !(stateIsDirectory && ProjectFree(old(mine), others, c.project))
      ensures r == Ok(None) ==> mine == old(mine)
      ensures r.Err? <==> stateIsDirectory && ProjectFree(old(mine), others, c.project) && !sameIdentity
      ensures r.Err? ==> mine == old(mine) - {c.rootLock}
      ensures r.Ok? && r.value.Some? ==>
        && r.value.value.ProjectGuard? && r.value.value.project == c.project && HoldsGuard(mine, r.value.value)
        && OnlyAdds(old(mine) - {c.rootLock}, mine, r.value.value)
    {
      var g := AcquireProject(c.project, stateIsDirectory);
      if g.Err? {
        return Ok(None);
      }
      if !sameIdentity {
        ReleaseAll([g.value.projectLock, g.value.rootLock, c.rootLock]);
        assert mine == old(mine) - {c.rootLock};
        return Err("execution guard belongs to a different project");
      }
      Release(c.rootLock);
      return Ok(Some(g.value));
    }

    /** Release the fence, then take project ownership again, retrying while
        another effect holds it. The shared root is kept throughout, so nobody
        else ever has it exclusively in between; the new guard is taken at the
        first attempt that finds its locks free. */
    method Widen(c: K.Guard, wait: nat, stateIsDirectory: bool, sameIdentity: bool) returns (r: Result<K.Guard>)
      requires Valid() && c.CheckGuard? && HoldsGuard(mine, c)
      modifies this
      ensures Valid() && old(seen) <= seen
      ensures r.Err? ==> mine == old(mine) - {c.fenceLock, c.rootLock}
      ensures r.Ok? ==>
        && r.value.ProjectGuard? && r.value.project == c.project && HoldsGuard(mine, r.value)
        && OnlyAdds(old(mine) - {c.fenceLock, c.rootLock}, mine, r.value)
      ensures forall i :: |old(seen)| <= i < |seen| ==> RootShared(seen[i], c.project.root)
      ensures FirstFree(old(mine) - {c.fenceLock}, [old(others)] + seen[|old(seen)|..], c.project, stateIsDirectory)
      ensures
        var last := ([old(others)] + seen[|old(seen)|..])[|seen| - |old(seen)|];
        var free := stateIsDirectory && ProjectFree(old(mine) - {c.fenceLock}, last, c.project);
        (r.Ok? <==> sameIdentity && free) && (r.Err? && !free ==> clock >= old(clock) + wait)
    {
      Release(c.fenceLock);
      ghost var base := mine;
      assert Has(mine, c.rootLock, RootLock(c.project.root), Shared);
      TwoGone(old(mine), c.fenceLock, c.rootLock);
      var until := clock + wait;
      ghost var attempts := [others];
      while true
        invariant Valid() && mine == base && until == old(clock) + wait
        invariant old(seen) <= seen && attempts == [old(others)] + seen[|old(seen)|..]
        invariant attempts[|attempts| - 1] == others
        invariant forall i :: |old(seen)| <= i < |seen| ==> RootShared(seen[i], c.project.root)
        invariant FirstFree(base, attempts, c.project, stateIsDirectory)
        decreases until - clock
      {
        var g := TryWiden(c, stateIsDirectory, sameIdentity);
        if g.Err? {
          return Err(g.error);
        }
        if g.value.Some? {
          return Ok(g.value.value);
        }
        if clock >= until {
          Release(c.rootLock);
          return Err("project ownership was not regained after the check");
        }
        Sleep(25);
        attempts := attempts + [others];
        assert Has(mine, c.rootLock, RootLock(c.project.root), Shared);
      }
    }
  }

  /** Every attempt but the last found the project taken. */
  ghost predicate FirstFree(mine: Table, attempts: seq<Others>, p: Project, stateIsDirectory: bool) {
    forall i :: 0 <= i < |attempts| - 1 ==> !(stateIsDirectory && ProjectFree(mine, attempts[i], p))
  }

  lemma TwoGone(mine: Table, a: nat, b: nat)
    ensures mine - {a} - {b} == mine - {a, b}
  {
  }
}
