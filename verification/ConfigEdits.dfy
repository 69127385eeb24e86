/** In-place edits of nested configuration tables, and what a list of them
    leaves alone, guarantees and does when repeated. */
module ConfigEdits {
  import opened Results

  /** The keys this product sets, and every other key by name. */
  datatype Key =
    | ApprovalPolicy | SandboxMode | CheckForUpdate | Model | Effort | WorkspaceWrite | NetworkAccess | Projects | TrustLevel
    | Permissions | DefaultMode | Allow | AdditionalDirectories | Env | DisableAutoupdater
    | CompletedOnboarding | Theme | TrustDialogAccepted | CompletedProjectOnboarding
    | Named(name: string)

  datatype Value = Text(text: string) | Flag(flag: bool) | Scalar(other: string) | List(items: seq<Value>) | Object(fields: Fields)

  type Fields = map<Key, Value>
  type Path = seq<Key>

  /** What an edit does to the one value it is about: set it, set it if absent,
      make it a table, or add missing texts to a list. */
  datatype Change = Put(value: Value) | Default(value: Value) | Table | Include(texts: seq<string>)

  datatype Edit = Edit(path: Path, change: Change)

  function AddMissing(items: seq<Value>, texts: seq<string>): seq<Value>
    decreases |texts|
  {
    if texts == [] then items
    else AddMissing(if Text(texts[0]) in items then items else items + [Text(texts[0])], texts[1..])
  }

  function Changed(old_: Option<Value>, c: Change): Result<Value> {
    match c
    case Put(v) => Ok(v)
    case Default(v) => Ok(if old_.Some? then old_.value else v)
    case Table => if old_.None? then Ok(Object(map[])) else if old_.value.Object? then Ok(old_.value) else Err("not a table")
    case Include(texts) =>
      if old_.None? then Ok(List(AddMissing([], texts)))
      else if old_.value.List? then Ok(List(AddMissing(old_.value.items, texts)))
      else Err("not a list")
  }

  function At(f: Fields, k: Key): Option<Value> { if k in f then Some(f[k]) else None }

  /** Follows a path, making the tables on its way; refuses anything else there. */
  function Apply(f: Fields, path: Path, c: Change): Result<Fields>
    requires path != []
    decreases |path|
  {
    var k := path[0];
    if |path| == 1 then
      var v := Changed(At(f, k), c);
      if v.Err? then Err(v.error) else Ok(f[k := v.value])
    else if k in f && !f[k].Object? then Err("not a table")
    else
      var inner := Apply(if k in f then f[k].fields else map[], path[1..], c);
      if inner.Err? then inner else Ok(f[k := Object(inner.value)])
  }

  predicate Rooted(es: seq<Edit>) { forall i :: 0 <= i < |es| ==> es[i].path != [] }

  function ApplyAll(f: Fields, es: seq<Edit>): Result<Fields>
    requires Rooted(es)
    decreases |es|
  {
    if es == [] then Ok(f)
    else
      var g := Apply(f, es[0].path, es[0].change);
      if g.Err? then g else ApplyAll(g.value, es[1..])
  }

  function Lookup(f: Fields, path: Path): Option<Value>
    requires path != []
    decreases |path|
  {
    if path[0] !in f then None
    else if |path| == 1 then Some(f[path[0]])
    else if f[path[0]].Object? then Lookup(f[path[0]].fields, path[1..])
    else None
  }

  predicate Unrelated(p: Path, q: Path) { !(p <= q) && !(q <= p) }

  // ---------------------------------------------------------------- one edit

  lemma {:induction false} AddMissingKeeps(items: seq<Value>, texts: seq<string>)
    ensures items <= AddMissing(items, texts)
    ensures forall t :: t in texts ==> Text(t) in AddMissing(items, texts)
    ensures forall v :: v in AddMissing(items, texts) ==> v in items || exists t :: t in texts && v == Text(t)
    decreases |texts|
  {
    if texts != [] {
      var more := if Text(texts[0]) in items then items else items + [Text(texts[0])];
      AddMissingKeeps(more, texts[1..]);
      assert texts == [texts[0]] + texts[1..];
      assert Text(texts[0]) in more;
      assert forall v :: v in more ==> v in items || v == Text(texts[0]);
    }
  }

  /** Whatever is added is added once and was not there before. */
  lemma {:induction false} AddMissingOnce(items: seq<Value>, texts: seq<string>, i: nat, j: nat)
    requires |items| <= j < |AddMissing(items, texts)| && i < j
    ensures AddMissing(items, texts)[i] != AddMissing(items, texts)[j]
    decreases |texts|
  {
    if texts != [] {
      var more := if Text(texts[0]) in items then items else items + [Text(texts[0])];
      AddMissingKeeps(more, texts[1..]);
      if |more| <= j {
        AddMissingOnce(more, texts[1..], i, j);
      }
    }
  }

  lemma {:induction false} NothingMissing(items: seq<Value>, texts: seq<string>)
    requires forall t :: t in texts ==> Text(t) in items
    ensures AddMissing(items, texts) == items
    decreases |texts|
  {
    if texts != [] {
      NothingMissing(items, texts[1..]);
    }
  }

  lemma ChangedTwice(old_: Option<Value>, c: Change)
    requires Changed(old_, c).Ok?
    ensures Changed(Some(Changed(old_, c).value), c) == Changed(old_, c)
  {
    if c.Include? {
      var items := if old_.None? then [] else old_.value.items;
      AddMissingKeeps(items, c.texts);
      NothingMissing(AddMissing(items, c.texts), c.texts);
    }
  }

  ghost predicate Holds(f: Fields, e: Edit)
    requires e.path != []
  {
    Apply(f, e.path, e.change) == Ok(f)
  }

  lemma {:induction false} ApplyTwice(f: Fields, path: Path, c: Change)
    requires path != [] && Apply(f, path, c).Ok?
    ensures Apply(Apply(f, path, c).value, path, c) == Apply(f, path, c)
    decreases |path|
  {
    var k := path[0];
    var g := Apply(f, path, c).value;
    if |path| == 1 {
      ChangedTwice(At(f, k), c);
      assert g[k := g[k]] == g;
    } else {
      ApplyTwice(if k in f then f[k].fields else map[], path[1..], c);
      assert g[k := g[k]] == g;
    }
  }

  /** An edit that does not concern what is at `q`: it is elsewhere, or only asks
      for a table on the way. */
  predicate Spares(path: Path, c: Change, q: Path) {
    Unrelated(path, q) || (c.Table? && path <= q && path != q)
  }

  /** What an edit spares keeps its value, at every depth. */
  lemma {:induction false} ApplyPreserves(f: Fields, path: Path, c: Change, q: Path)
    requires path != [] && q != [] && Apply(f, path, c).Ok? && Spares(path, c, q)
    ensures Lookup(Apply(f, path, c).value, q) == Lookup(f, q)
    decreases |path|
  {
    assert |q| == 1 && path[0] == q[0] ==> q <= path;
    if path[0] == q[0] && |path| > 1 && |q| > 1 {
      assert path == [path[0]] + path[1..] && q == [q[0]] + q[1..];
      ApplyPreserves(if path[0] in f then f[path[0]].fields else map[], path[1..], c, q[1..]);
    }
  }

  /** The edited value is what the change makes of the old one. */
  lemma {:induction false} ApplySets(f: Fields, path: Path, c: Change)
    requires path != [] && Apply(f, path, c).Ok?
    ensures Changed(Lookup(f, path), c).Ok?
    ensures Lookup(Apply(f, path, c).value, path) == Some(Changed(Lookup(f, path), c).value)
    decreases |path|
  {
    if |path| > 1 {
      ApplySets(if path[0] in f then f[path[0]].fields else map[], path[1..], c);
    }
  }

  // ---------------------------------------------------------------- lists of edits

  /** A later edit that cannot undo an earlier one: elsewhere, or inside the
      table the earlier one asked for. */
  predicate Compatible(e: Edit, later: Edit) {
    Spares(e.path, e.change, later.path)
  }

  lemma {:induction false} HoldsStays(f: Fields, e: Edit, later: Edit)
    requires e.path != [] && later.path != [] && Compatible(e, later)
    requires Holds(f, e) && Apply(f, later.path, later.change).Ok?
    ensures Holds(Apply(f, later.path, later.change).value, e)
    decreases |e.path|
  {
    var p, q := e.path, later.path;
    var k := p[0];
    var g := Apply(f, q, later.change).value;
    if q[0] != k {
      assert g[k] == f[k];
      assert g[k := g[k]] == g;
    } else if |p| == 1 {
      assert |q| > 1 by {
        assert |q| == 1 ==> p == q;
      }
      assert g[k := g[k]] == g;
    } else {
      assert p == [k] + p[1..] && q == [k] + q[1..];
      InnerHolds(f, e);
      if |q| > 1 {
        HoldsStays(f[k].fields, Edit(p[1..], e.change), Edit(q[1..], later.change));
        assert g[k := g[k]] == g;
      }
    }
  }

  lemma InnerHolds(f: Fields, e: Edit)
    requires |e.path| > 1 && Holds(f, e)
    ensures e.path[0] in f && f[e.path[0]].Object? && Holds(f[e.path[0]].fields, Edit(e.path[1..], e.change))
  {
    var k := e.path[0];
    assert f[k] == Apply(f, e.path, e.change).value[k];
  }

  predicate Pairwise(es: seq<Edit>) {
    forall i, j :: 0 <= i < j < |es| ==> Compatible(es[i], es[j])
  }

  lemma {:induction false} StaysThrough(f: Fields, e: Edit, es: seq<Edit>)
    requires e.path != [] && Holds(f, e) && Rooted(es) && (forall i :: 0 <= i < |es| ==> Compatible(e, es[i])) && ApplyAll(f, es).Ok?
    ensures Holds(ApplyAll(f, es).value, e)
    decreases |es|
  {
    if es != [] {
      HoldsStays(f, e, es[0]);
      StaysThrough(Apply(f, es[0].path, es[0].change).value, e, es[1..]);
    }
  }

  lemma {:induction false} AllHold(f: Fields, es: seq<Edit>, i: nat)
    requires Rooted(es) && Pairwise(es) && ApplyAll(f, es).Ok? && i < |es|
    ensures Holds(ApplyAll(f, es).value, es[i])
    decreases |es|
  {
    var g := Apply(f, es[0].path, es[0].change).value;
    if i == 0 {
      ApplyTwice(f, es[0].path, es[0].change);
      StaysThrough(g, es[0], es[1..]);
    } else {
      AllHold(g, es[1..], i - 1);
    }
  }

  lemma {:induction false} HoldingChangesNothing(f: Fields, es: seq<Edit>)
    requires Rooted(es) && forall i :: 0 <= i < |es| ==> Holds(f, es[i])
    ensures ApplyAll(f, es) == Ok(f)
    decreases |es|
  {
    if es != [] {
      assert Holds(f, es[0]);
      HoldingChangesNothing(f, es[1..]);
    }
  }

  /** A compatible list of edits, once applied, changes nothing when repeated. */
  lemma RepeatChangesNothing(f: Fields, es: seq<Edit>)
    requires Rooted(es) && Pairwise(es) && ApplyAll(f, es).Ok?
    ensures ApplyAll(ApplyAll(f, es).value, es) == ApplyAll(f, es)
  {
    forall i | 0 <= i < |es| ensures Holds(ApplyAll(f, es).value, es[i]) {
      AllHold(f, es, i);
    }
    HoldingChangesNothing(ApplyAll(f, es).value, es);
  }

  lemma {:induction false} AllPreserve(f: Fields, es: seq<Edit>, q: Path)
    requires q != [] && Rooted(es) && (forall i :: 0 <= i < |es| ==> Spares(es[i].path, es[i].change, q)) && ApplyAll(f, es).Ok?
    ensures Lookup(ApplyAll(f, es).value, q) == Lookup(f, q)
    decreases |es|
  {
    if es != [] {
      ApplyPreserves(f, es[0].path, es[0].change, q);
      AllPreserve(Apply(f, es[0].path, es[0].change).value, es[1..], q);
    }
  }

  /** With nothing else on its path, an edit makes of the old value what its change says. */
  lemma {:induction false} OnlyEditSets(f: Fields, es: seq<Edit>, i: nat)
    requires Rooted(es) && ApplyAll(f, es).Ok? && i < |es|
    requires forall j :: 0 <= j < |es| && j != i ==> Unrelated(es[j].path, es[i].path)
    ensures Changed(Lookup(f, es[i].path), es[i].change).Ok?
    ensures Lookup(ApplyAll(f, es).value, es[i].path) == Some(Changed(Lookup(f, es[i].path), es[i].change).value)
    decreases |es|
  {
    var g := Apply(f, es[0].path, es[0].change).value;
    if i == 0 {
      ApplySets(f, es[0].path, es[0].change);
      AllPreserve(g, es[1..], es[0].path);
    } else {
      assert Unrelated(es[0].path, es[i].path);
      ApplyPreserves(f, es[0].path, es[0].change, es[i].path);
      OnlyEditSets(g, es[1..], i - 1);
    }
  }

  /** A held edit shows: what was put is there, what was included is listed. */
  lemma HeldShows(f: Fields, e: Edit)
    requires e.path != [] && Holds(f, e)
    ensures Lookup(f, e.path).Some? && Changed(Lookup(f, e.path), e.change) == Ok(Lookup(f, e.path).value)
  {
    ApplySets(f, e.path, e.change);
  }

  // ---------------------------------------------------------------- when edits work

  predicate TableOrNone(v: Option<Value>) { v.Some? ==> v.value.Object? }

  /** A value the change can be made to. */
  predicate Suits(v: Option<Value>, c: Change) {
    v.None? || c.Put? || c.Default? || (c.Table? && v.value.Object?) || (c.Include? && v.value.List?)
  }

  /** Nothing but tables on the way, and at its end what the change can be made to. */
  predicate Passable(f: Fields, path: Path, c: Change)
    requires path != []
  {
    (forall n :: 0 < n < |path| ==> TableOrNone(Lookup(f, path[..n]))) && Suits(Lookup(f, path), c)
  }

  lemma LookupBelow(f: Fields, path: Path, n: nat)
    requires 1 < n <= |path|
    ensures Lookup(f, path[..n]) == if path[0] in f && f[path[0]].Object? then Lookup(f[path[0]].fields, path[1..][..n - 1]) else None
  {
    assert path[..n][0] == path[0] && path[..n][1..] == path[1..][..n - 1];
  }

  lemma {:induction false} NothingThere(path: Path)
    requires path != []
    ensures Lookup(map[], path) == None
  {
  }

  /** One edit works exactly when it can pass. */
  lemma {:induction false} ApplyWorksIff(f: Fields, path: Path, c: Change)
    requires path != []
    ensures Apply(f, path, c).Ok? <==> Passable(f, path, c)
    decreases |path|
  {
    if |path| > 1 {
      var inner := if path[0] in f && f[path[0]].Object? then f[path[0]].fields else map[];
      ApplyWorksIff(inner, path[1..], c);
      assert path[..1] == [path[0]] && path[..|path|] == path && path[1..][..|path| - 1] == path[1..];
      LookupBelow(f, path, |path|);
      NothingThere(path[1..]);
      forall n | 1 < n < |path| ensures TableOrNone(Lookup(f, path[..n])) <==> TableOrNone(Lookup(inner, path[1..][..n - 1])) {
        LookupBelow(f, path, n);
        NothingThere(path[1..][..n - 1]);
      }
      PassableBelow(f, path, c, inner);
    }
  }

  lemma PassableBelow(f: Fields, path: Path, c: Change, inner: Fields)
    requires |path| > 1 && Lookup(f, path[..1]) == At(f, path[0])
    requires inner == if path[0] in f && f[path[0]].Object? then f[path[0]].fields else map[]
    requires Lookup(f, path) == Lookup(inner, path[1..])
    requires forall n :: 1 < n < |path| ==> (TableOrNone(Lookup(f, path[..n])) <==> TableOrNone(Lookup(inner, path[1..][..n - 1])))
    ensures Passable(f, path, c) <==> TableOrNone(At(f, path[0])) && Passable(inner, path[1..], c)
  {
    if Passable(f, path, c) {
      assert TableOrNone(Lookup(f, path[..1]));
      forall n | 0 < n < |path[1..]| ensures TableOrNone(Lookup(inner, path[1..][..n])) {
        assert TableOrNone(Lookup(f, path[..n + 1]));
      }
    }
    if TableOrNone(At(f, path[0])) && Passable(inner, path[1..], c) {
      forall n | 0 < n < |path| ensures TableOrNone(Lookup(f, path[..n])) {
        if n > 1 { assert TableOrNone(Lookup(inner, path[1..][..n - 1])); }
      }
    }
  }

  /** An edit leaves tables on its way. */
  lemma {:induction false} ApplyMakesTables(f: Fields, path: Path, c: Change, n: nat)
    requires 0 < n < |path| && Apply(f, path, c).Ok?
    ensures var v := Lookup(Apply(f, path, c).value, path[..n]); v.Some? && v.value.Object?
    decreases |path|
  {
    var g := Apply(f, path, c).value;
    if n > 1 {
      ApplyMakesTables(if path[0] in f then f[path[0]].fields else map[], path[1..], c, n - 1);
      LookupBelow(g, path, n);
    } else {
      assert path[..1] == [path[0]];
    }
  }

  /** What is on the way to a later edit is a table after an earlier one exactly
      if it was before. */
  lemma WayStays(f: Fields, e: Edit, q: Path, n: nat)
    requires e.path != [] && Apply(f, e.path, e.change).Ok? && Spares(e.path, e.change, q) && 0 < n < |q|
    ensures TableOrNone(Lookup(Apply(f, e.path, e.change).value, q[..n])) <==> TableOrNone(Lookup(f, q[..n]))
  {
    var p, r := e.path, q[..n];
    ApplyWorksIff(f, p, e.change);
    if Spares(p, e.change, r) {
      ApplyPreserves(f, p, e.change, r);
    } else if r == p {
      ApplySets(f, p, e.change);
    } else if r <= p {
      assert r == p[..n];
      ApplyMakesTables(f, p, e.change, n);
    }
  }

  lemma PassableStays(f: Fields, e: Edit, later: Edit)
    requires e.path != [] && later.path != [] && Apply(f, e.path, e.change).Ok? && Compatible(e, later)
    ensures Passable(Apply(f, e.path, e.change).value, later.path, later.change) <==> Passable(f, later.path, later.change)
  {
    var q := later.path;
    var g := Apply(f, e.path, e.change).value;
    ApplyPreserves(f, e.path, e.change, q);
    forall n | 0 < n < |q| ensures TableOrNone(Lookup(g, q[..n])) <==> TableOrNone(Lookup(f, q[..n])) {
      WayStays(f, e, q, n);
    }
  }

  ghost predicate AllPassable(f: Fields, es: seq<Edit>)
    requires Rooted(es)
  {
    forall i :: 0 <= i < |es| ==> Passable(f, es[i].path, es[i].change)
  }

  /** A compatible list of edits works exactly when each of them can pass in the
      file as it is. */
  lemma {:induction false} AllWorkIff(f: Fields, es: seq<Edit>)
    requires Rooted(es) && Pairwise(es)
    ensures ApplyAll(f, es).Ok? <==> AllPassable(f, es)
    decreases |es|
  {
    if es != [] {
      ApplyWorksIff(f, es[0].path, es[0].change);
      var r := Apply(f, es[0].path, es[0].change);
      if r.Ok? {
        AllWorkIff(r.value, es[1..]);
        SamePassable(f, r.value, es);
      }
    }
  }

  lemma SamePassable(f: Fields, g: Fields, es: seq<Edit>)
    requires Rooted(es) && Pairwise(es) && es != [] && Apply(f, es[0].path, es[0].change) == Ok(g) && Passable(f, es[0].path, es[0].change)
    ensures AllPassable(g, es[1..]) <==> AllPassable(f, es)
  {
    forall i | 0 < i < |es| ensures Passable(g, es[i].path, es[i].change) <==> Passable(f, es[i].path, es[i].change) {
      PassableStays(f, es[0], es[i]);
    }
    assert forall i :: 0 <= i < |es[1..]| ==> es[1..][i] == es[i + 1];
    if AllPassable(g, es[1..]) {
      forall i | 0 <= i < |es| ensures Passable(f, es[i].path, es[i].change) {
        if i > 0 { assert Passable(g, es[1..][i - 1].path, es[1..][i - 1].change); }
      }
    }
  }
}
