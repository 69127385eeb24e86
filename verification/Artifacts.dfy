/** Preservation snapshots: a bounded scan of a report and a library tree, and
    the checks that make a published snapshot equal its source. */
module Artifacts {
  import opened Results

  type Bytes = seq<bv8>

  /** A directory lists its children in name order. */
  datatype Tree = File(content: Bytes) | Dir(children: seq<Child>)
  datatype Child = Child(name: string, tree: Tree)

  /** A digest determines the content, so the content stands for it. */
  datatype Entry = Entry(path: string, directory: bool, bytes: nat, sha256: Bytes)

  /** What a source or snapshot directory holds; nothing else in it is scanned. */
  datatype Source = Source(report: Option<Tree>, library: Option<Tree>)

  const ENTRY_LIMIT: nat := 10_000
  const DEPTH_LIMIT: nat := 64
  const BYTE_LIMIT: nat := 50 * 1024 * 1024

  /** The order of names does not matter here, only that none repeats. */
  ghost predicate WellFormed(t: Tree) {
    t.Dir? ==> ChildrenOk(t.children)
  }

  ghost predicate ChildrenOk(cs: seq<Child>) {
    && (forall i :: 0 <= i < |cs| ==> '/' !in cs[i].name && WellFormed(cs[i].tree))
    && (forall i, j :: 0 <= i < j < |cs| ==> cs[i].name != cs[j].name)
  }

  function Join(path: string, name: string): string { path + "/" + name }

  function Flatten(t: Tree, path: string): (r: seq<Entry>)
    ensures |r| > 0 && r[0].path == path
    decreases t, 0
  {
    match t
    case File(content) => [Entry(path, false, |content|, content)]
    case Dir(children) => [Entry(path, true, 0, [])] + FlattenAll(children, path)
  }

  function FlattenAll(cs: seq<Child>, path: string): seq<Entry>
    decreases cs, 1
  {
    if cs == [] then [] else Flatten(cs[0].tree, Join(path, cs[0].name)) + FlattenAll(cs[1..], path)
  }

  function FlattenSource(s: Source): seq<Entry> {
    (if s.report.Some? then Flatten(s.report.value, "report.md") else [])
    + (if s.library.Some? then Flatten(s.library.value, "library") else [])
  }

  // ---------------------------------------------------------------- what the list determines

  predicate Under(path: string, dir: string) {
    |path| > |dir| && path[..|dir|] == dir && path[|dir|] == '/'
  }

  predicate AtOrUnder(path: string, dir: string) { path == dir || Under(path, dir) }

  ghost predicate NoneUnder(es: seq<Entry>, dir: string) {
    forall i :: 0 <= i < |es| ==> !Under(es[i].path, dir)
  }

  lemma JoinIsUnder(dir: string, name: string, path: string)
    requires AtOrUnder(path, Join(dir, name))
    ensures Under(path, dir)
  {
    assert Join(dir, name)[..|dir|] == dir && Join(dir, name)[|dir|] == '/';
    assert path[..|dir|] == path[..|Join(dir, name)|][..|dir|];
  }

  /** A path lies at or below at most one child of a directory. */
  lemma OneChild(dir: string, a: string, b: string, path: string)
    requires '/' !in a && '/' !in b && AtOrUnder(path, Join(dir, a)) && AtOrUnder(path, Join(dir, b))
    ensures a == b
  {
    var n := |dir| + 1;
    var rest := path[n..];
    assert Join(dir, a)[n..] == a && Join(dir, b)[n..] == b;
    assert |a| <= |rest| && rest[..|a|] == a && (|a| < |rest| ==> rest[|a|] == '/');
    assert |b| <= |rest| && rest[..|b|] == b && (|b| < |rest| ==> rest[|b|] == '/');
    assert forall i :: 0 <= i < |a| ==> rest[i] == a[i] && rest[i] != '/';
    assert forall i :: 0 <= i < |b| ==> rest[i] == b[i] && rest[i] != '/';
  }

  lemma {:induction false} FlatPaths(t: Tree, path: string, i: nat)
    requires i < |Flatten(t, path)|
    ensures AtOrUnder(Flatten(t, path)[i].path, path)
    decreases t, 0
  {
    if t.Dir? && i > 0 {
      var k := FlatAllPaths(t.children, path, i - 1);
      JoinIsUnder(path, t.children[k].name, FlattenAll(t.children, path)[i - 1].path);
    }
  }

  /** Every entry of a directory's listing belongs to one of its children. */
  lemma {:induction false} FlatAllPaths(cs: seq<Child>, path: string, i: nat) returns (k: nat)
    requires i < |FlattenAll(cs, path)|
    ensures k < |cs| && AtOrUnder(FlattenAll(cs, path)[i].path, Join(path, cs[k].name))
    decreases cs, 1
  {
    var first := Flatten(cs[0].tree, Join(path, cs[0].name));
    if i < |first| {
      FlatPaths(cs[0].tree, Join(path, cs[0].name), i);
      k := 0;
    } else {
      k := FlatAllPaths(cs[1..], path, i - |first|);
      k := k + 1;
    }
  }

  /** What follows a child in the list is not below it. */
  lemma RestNotUnder(cs: seq<Child>, path: string, rest: seq<Entry>)
    requires ChildrenOk(cs) && cs != [] && NoneUnder(rest, path)
    ensures NoneUnder(FlattenAll(cs[1..], path) + rest, Join(path, cs[0].name))
  {
    var later := FlattenAll(cs[1..], path);
    forall i | 0 <= i < |later + rest| ensures !Under((later + rest)[i].path, Join(path, cs[0].name)) {
      if i < |later| {
        var k := FlatAllPaths(cs[1..], path, i);
        if Under(later[i].path, Join(path, cs[0].name)) {
          OneChild(path, cs[0].name, cs[k + 1].name, later[i].path);
        }
      } else {
        assert (later + rest)[i] == rest[i - |later|];
        if Under(rest[i - |later|].path, Join(path, cs[0].name)) {
          JoinIsUnder(path, cs[0].name, rest[i - |later|].path);
        }
      }
    }
  }

  /** A listing followed by entries from elsewhere splits in one way only. */
  lemma {:induction false} FlattenSplits(t: Tree, u: Tree, path: string, x: seq<Entry>, y: seq<Entry>)
    requires WellFormed(t) && WellFormed(u) && NoneUnder(x, path) && NoneUnder(y, path)
    requires Flatten(t, path) + x == Flatten(u, path) + y
    ensures t == u && x == y
    decreases t, 0
  {
    var s := Flatten(t, path) + x;
    assert s[0] == Flatten(t, path)[0] && s[0] == Flatten(u, path)[0];
    if t.File? {
      assert s[1..] == x && s[1..] == y;
    } else {
      assert s[1..] == FlattenAll(t.children, path) + x;
      assert s[1..] == FlattenAll(u.children, path) + y;
      FlattenAllSplits(t.children, u.children, path, x, y);
    }
  }

  lemma {:induction false} FlattenAllSplits(ts: seq<Child>, us: seq<Child>, path: string, x: seq<Entry>, y: seq<Entry>)
    requires ChildrenOk(ts) && ChildrenOk(us) && NoneUnder(x, path) && NoneUnder(y, path)
    requires FlattenAll(ts, path) + x == FlattenAll(us, path) + y
    ensures ts == us && x == y
    decreases ts, 1
  {
    var s := FlattenAll(ts, path) + x;
    if ts != [] {
      JoinIsUnder(path, ts[0].name, Join(path, ts[0].name));
      assert s[0].path == Join(path, ts[0].name);
    }
    if us != [] {
      JoinIsUnder(path, us[0].name, Join(path, us[0].name));
      assert s[0].path == Join(path, us[0].name);
    }
    assert ts == [] ==> s == x;
    assert us == [] ==> s == y;
    if ts != [] && us != [] {
      OneChild(path, ts[0].name, us[0].name, s[0].path);
      RestNotUnder(ts, path, x);
      RestNotUnder(us, path, y);
      var p := Join(path, ts[0].name);
      assert s == Flatten(ts[0].tree, p) + (FlattenAll(ts[1..], path) + x);
      assert s == Flatten(us[0].tree, p) + (FlattenAll(us[1..], path) + y);
      FlattenSplits(ts[0].tree, us[0].tree, p, FlattenAll(ts[1..], path) + x, FlattenAll(us[1..], path) + y);
      FlattenAllSplits(ts[1..], us[1..], path, x, y);
    }
  }

  /** The entry list determines the tree, empty directories included. */
  lemma FlattenInjective(t: Tree, u: Tree, path: string)
    requires WellFormed(t) && WellFormed(u) && Flatten(t, path) == Flatten(u, path)
    ensures t == u
  {
    assert Flatten(t, path) + [] == Flatten(u, path) + [];
    FlattenSplits(t, u, path, [], []);
  }

  ghost predicate SourceOk(s: Source) {
    (s.report.Some? ==> WellFormed(s.report.value)) && (s.library.Some? ==> WellFormed(s.library.value))
  }

  lemma ReportAndLibraryApart(path: string)
    ensures !(AtOrUnder(path, "report.md") && AtOrUnder(path, "library"))
  {
    assert "report.md"[0] == 'r' && "library"[0] == 'l';
    assert AtOrUnder(path, "report.md") ==> path[0] == "report.md"[0] by {
      if Under(path, "report.md") { assert path[..9][0] == path[0]; }
    }
    assert AtOrUnder(path, "library") ==> path[0] == "library"[0] by {
      if Under(path, "library") { assert path[..7][0] == path[0]; }
    }
  }

  function LibraryList(s: Source): seq<Entry> {
    if s.library.Some? then Flatten(s.library.value, "library") else []
  }

  lemma LibraryElsewhere(s: Source)
    ensures NoneUnder(LibraryList(s), "report.md")
    ensures LibraryList(s) != [] ==> LibraryList(s)[0].path != "report.md"
  {
    var l := LibraryList(s);
    forall i | 0 <= i < |l| ensures !Under(l[i].path, "report.md") && l[i].path != "report.md" {
      FlatPaths(s.library.value, "library", i);
      ReportAndLibraryApart(l[i].path);
    }
  }

  /** Two sources with equal entry lists are equal. */
  lemma EntriesDetermineSource(s: Source, t: Source)
    requires SourceOk(s) && SourceOk(t) && FlattenSource(s) == FlattenSource(t)
    ensures s == t
  {
    LibraryElsewhere(s);
    LibraryElsewhere(t);
    var all := FlattenSource(s);
    assert s.report.None? ==> all == LibraryList(s);
    assert t.report.None? ==> all == LibraryList(t);
    assert s.report.Some? ==> all == Flatten(s.report.value, "report.md") + LibraryList(s) && all[0].path == "report.md";
    assert t.report.Some? ==> all == Flatten(t.report.value, "report.md") + LibraryList(t) && all[0].path == "report.md";
    if s.report.Some? && t.report.Some? {
      FlattenSplits(s.report.value, t.report.value, "report.md", LibraryList(s), LibraryList(t));
    }
    if s.library.Some? && t.library.Some? {
      FlattenInjective(s.library.value, t.library.value, "library");
    }
  }

  // ---------------------------------------------------------------- the bounded scan

  function Count(t: Tree): (n: nat)
    ensures n >= 1
    decreases t, 0
  {
    if t.File? then 1 else 1 + CountAll(t.children)
  }

  function CountAll(cs: seq<Child>): (n: nat)
    ensures n >= |cs|
    decreases cs, 1
  {
    if cs == [] then 0 else Count(cs[0].tree) + CountAll(cs[1..])
  }

  function Size(t: Tree): nat
    decreases t, 0
  {
    if t.File? then |t.content| else SizeAll(t.children)
  }

  function SizeAll(cs: seq<Child>): nat
    decreases cs, 1
  {
    if cs == [] then 0 else Size(cs[0].tree) + SizeAll(cs[1..])
  }

  /** Nothing in the tree lies deeper than the limit. */
  predicate Shallow(t: Tree, depth: nat)
    decreases t, 0
  {
    depth <= DEPTH_LIMIT && (t.Dir? ==> ShallowAll(t.children, depth + 1))
  }

  predicate ShallowAll(cs: seq<Child>, depth: nat)
    decreases cs, 1
  {
    cs == [] || (Shallow(cs[0].tree, depth) && ShallowAll(cs[1..], depth))
  }

  /** One scan: the list so far, and what is left of its budget. */
  class Scan {
    var entries: seq<Entry>
    var slots: nat
    var remaining: nat

    constructor ()
      ensures entries == [] && slots == ENTRY_LIMIT && remaining == BYTE_LIMIT
    {
      entries := [];
      slots := ENTRY_LIMIT;
      remaining := BYTE_LIMIT;
    }

    /** Lists a tree, and succeeds exactly when the tree fits what is left. */
    method Visit(t: Tree, path: string, depth: nat) returns (ok: bool)
      modifies this
      ensures ok <==> Shallow(t, depth) && Count(t) <= old(slots) && Size(t) <= old(remaining)
      ensures ok ==> entries == old(entries) + Flatten(t, path) && slots == old(slots) - Count(t) && remaining == old(remaining) - Size(t)
      decreases t, 0
    {
      if depth > DEPTH_LIMIT || slots == 0 {
        return false;
      }
      slots := slots - 1;
      if t.File? {
        if |t.content| > remaining {
          return false;
        }
        remaining := remaining - |t.content|;
        entries := entries + [Entry(path, false, |t.content|, t.content)];
        return true;
      }
      entries := entries + [Entry(path, true, 0, [])];
      if |t.children| > slots {
        return false;
      }
      ok := VisitAll(t.children, path, depth + 1);
    }

    method VisitAll(cs: seq<Child>, path: string, depth: nat) returns (ok: bool)
      modifies this
      ensures ok <==> ShallowAll(cs, depth) && CountAll(cs) <= old(slots) && SizeAll(cs) <= old(remaining)
      ensures ok ==> entries == old(entries) + FlattenAll(cs, path) && slots == old(slots) - CountAll(cs) && remaining == old(remaining) - SizeAll(cs)
      decreases cs, 1
    {
      if cs == [] {
        return true;
      }
      ok := Visit(cs[0].tree, Join(path, cs[0].name), depth);
      if ok {
        ghost var before := entries;
        ok := VisitAll(cs[1..], path, depth);
        assert ok ==> entries == before + FlattenAll(cs[1..], path);
      }
    }
  }

  predicate SourceFits(s: Source) {
    && (s.report.Some? ==> Shallow(s.report.value, 0)) && (s.library.Some? ==> Shallow(s.library.value, 0))
    && SourceCount(s) <= ENTRY_LIMIT && SourceSize(s) <= BYTE_LIMIT
  }

  function SourceCount(s: Source): nat {
    (if s.report.Some? then Count(s.report.value) else 0) + (if s.library.Some? then Count(s.library.value) else 0)
  }

  function SourceSize(s: Source): nat {
    (if s.report.Some? then Size(s.report.value) else 0) + (if s.library.Some? then Size(s.library.value) else 0)
  }

  // ---------------------------------------------------------------- what fits

  function TotalBytes(es: seq<Entry>): nat { if es == [] then 0 else es[0].bytes + TotalBytes(es[1..]) }

  function Separators(path: string): nat {
    if path == "" then 0 else (if path[0] == '/' then 1 else 0) + Separators(path[1..])
  }

  /** No path of the list has more than this many separators. */
  predicate Within(es: seq<Entry>, most: int) { forall i :: 0 <= i < |es| ==> Separators(es[i].path) <= most }

  lemma {:induction false} TotalConcat(a: seq<Entry>, b: seq<Entry>)
    ensures TotalBytes(a + b) == TotalBytes(a) + TotalBytes(b)
    decreases |a|
  {
    if a == [] {
      assert a + b == b;
    } else {
      assert (a + b)[1..] == a[1..] + b;
      TotalConcat(a[1..], b);
    }
  }

  lemma {:induction false} SeparatorsConcat(a: string, b: string)
    ensures Separators(a + b) == Separators(a) + Separators(b)
    decreases |a|
  {
    if a == "" {
      assert a + b == b;
    } else {
      assert (a + b)[1..] == a[1..] + b;
      SeparatorsConcat(a[1..], b);
    }
  }

  lemma {:induction false} NoSeparators(name: string)
    requires '/' !in name
    ensures Separators(name) == 0
    decreases |name|
  {
    if name != "" {
      NoSeparators(name[1..]);
    }
  }

  /** A child's path has one separator more. */
  lemma JoinDeepens(path: string, name: string)
    requires '/' !in name
    ensures Separators(Join(path, name)) == Separators(path) + 1
  {
    SeparatorsConcat(path + "/", name);
    SeparatorsConcat(path, "/");
    NoSeparators(name);
    assert "/"[1..] == "";
  }

  lemma WithinConcat(a: seq<Entry>, b: seq<Entry>, most: int)
    ensures Within(a + b, most) <==> Within(a, most) && Within(b, most)
  {
    var s := a + b;
    assert forall i :: 0 <= i < |a| ==> s[i] == a[i];
    assert forall i :: 0 <= i < |b| ==> s[|a| + i] == b[i];
  }

  /** The budgets are those of the list: its length, its bytes, and the
      separators of its paths. */
  lemma {:induction false} BudgetsOf(t: Tree, path: string, depth: nat)
    requires WellFormed(t)
    ensures Count(t) == |Flatten(t, path)| && Size(t) == TotalBytes(Flatten(t, path))
    ensures Shallow(t, depth) <==> Within(Flatten(t, path), DEPTH_LIMIT - depth + Separators(path))
    decreases t, 0
  {
    if t.Dir? {
      var self := [Entry(path, true, 0, [])];
      BudgetsOfAll(t.children, path, depth + 1);
      TotalConcat(self, FlattenAll(t.children, path));
      WithinConcat(self, FlattenAll(t.children, path), DEPTH_LIMIT - depth + Separators(path));
      assert self[0].path == path;
    } else {
      assert Flatten(t, path)[0].path == path;
    }
  }

  lemma {:induction false} BudgetsOfAll(cs: seq<Child>, path: string, depth: nat)
    requires ChildrenOk(cs)
    ensures CountAll(cs) == |FlattenAll(cs, path)| && SizeAll(cs) == TotalBytes(FlattenAll(cs, path))
    ensures ShallowAll(cs, depth) <==> Within(FlattenAll(cs, path), DEPTH_LIMIT - depth + Separators(path) + 1)
    decreases cs, 1
  {
    if cs != [] {
      var first, rest := Flatten(cs[0].tree, Join(path, cs[0].name)), FlattenAll(cs[1..], path);
      BudgetsOf(cs[0].tree, Join(path, cs[0].name), depth);
      BudgetsOfAll(cs[1..], path, depth);
      JoinDeepens(path, cs[0].name);
      TotalConcat(first, rest);
      WithinConcat(first, rest, DEPTH_LIMIT - depth + Separators(path) + 1);
    }
  }

  /** Every entry tells the size of what it lists. */
  lemma {:induction false} EntriesTellSizes(t: Tree, path: string, i: nat)
    requires i < |Flatten(t, path)|
    ensures var e := Flatten(t, path)[i]; e.bytes == |e.sha256| && (e.directory ==> e.bytes == 0)
    decreases t, 0
  {
    if t.Dir? && i > 0 {
      EntriesTellSizesAll(t.children, path, i - 1);
    }
  }

  lemma {:induction false} EntriesTellSizesAll(cs: seq<Child>, path: string, i: nat)
    requires i < |FlattenAll(cs, path)|
    ensures var e := FlattenAll(cs, path)[i]; e.bytes == |e.sha256| && (e.directory ==> e.bytes == 0)
    decreases cs, 1
  {
    var first := Flatten(cs[0].tree, Join(path, cs[0].name));
    if i < |first| {
      EntriesTellSizes(cs[0].tree, Join(path, cs[0].name), i);
    } else {
      EntriesTellSizesAll(cs[1..], path, i - |first|);
    }
  }

  lemma PartBudgets(part: Option<Tree>, path: string, list: seq<Entry>)
    requires (part.Some? ==> WellFormed(part.value)) && '/' !in path && list == if part.Some? then Flatten(part.value, path) else []
    ensures (if part.Some? then Count(part.value) else 0) == |list| && (if part.Some? then Size(part.value) else 0) == TotalBytes(list)
    ensures part.Some? ==> (Shallow(part.value, 0) <==> Within(list, DEPTH_LIMIT))
  {
    NoSeparators(path);
    if part.Some? { BudgetsOf(part.value, path, 0); }
  }

  /** A list within the scan's budgets. */
  predicate ListFits(es: seq<Entry>) { |es| <= 10000 && TotalBytes(es) <= 52428800 && Within(es, 64) }

  lemma TogetherFit(a: seq<Entry>, b: seq<Entry>)
    ensures ListFits(a + b) <==> |a| + |b| <= 10000 && TotalBytes(a) + TotalBytes(b) <= 52428800 && Within(a, 64) && Within(b, 64)
  {
    TotalConcat(a, b);
    WithinConcat(a, b, 64);
  }

  function ReportList(s: Source): seq<Entry> {
    if s.report.Some? then Flatten(s.report.value, "report.md") else []
  }

  lemma PartsFit(s: Source, report: string, library: string, a: seq<Entry>, b: seq<Entry>)
    requires SourceOk(s) && '/' !in report && '/' !in library
    requires a == if s.report.Some? then Flatten(s.report.value, report) else []
    requires b == if s.library.Some? then Flatten(s.library.value, library) else []
    ensures SourceFits(s) <==> ListFits(a + b)
  {
    PartBudgets(s.report, report, a);
    PartBudgets(s.library, library, b);
    TogetherFit(a, b);
  }

  /** A source fits exactly when its list has at most 10000 entries and 50 MiB,
      and no path more than 64 levels. */
  lemma FitsIff(s: Source)
    requires SourceOk(s)
    ensures SourceFits(s) <==> ListFits(FlattenSource(s))
  {
    PartsFit(s, "report.md", "library", ReportList(s), LibraryList(s));
    assert FlattenSource(s) == ReportList(s) + LibraryList(s);
  }

  /** One budget covers both the report and the library. */
  method ScanSource(s: Source) returns (r: Result<seq<Entry>>)
    ensures r.Ok? <==> SourceFits(s)
    ensures r.Ok? ==> r.value == FlattenSource(s)
  {
    var scan := new Scan();
    if s.report.Some? {
      var ok := scan.Visit(s.report.value, "report.md", 0);
      if !ok {
        return Err("limit");
      }
    }
    assert scan.entries == ReportList(s);
    if s.library.Some? {
      var ok := scan.Visit(s.library.value, "library", 0);
      if !ok {
        return Err("limit");
      }
    }
    assert scan.entries == ReportList(s) + LibraryList(s);
    r := Ok(scan.entries);
  }

  // ---------------------------------------------------------------- capture and publication

  datatype Manifest = Manifest(thread: string, generation: nat, source: string, entries: seq<Entry>)

  /** A retained snapshot directory: its manifest file and the copied bytes. The
      manifest's digest names the directory, so the manifest stands for the name. */
  type Snapshots = map<Manifest, Retained>
  datatype Retained = Retained(manifest: Manifest, copy: Source)

  ghost predicate Intact(m: Manifest, r: Retained) { r.manifest == m && SourceFits(r.copy) && FlattenSource(r.copy) == m.entries }

  /** Loading succeeds exactly on a snapshot whose name, manifest and bytes agree. */
  method Load(store: Snapshots, id: Manifest, thread: string) returns (r: Result<Manifest>)
    ensures r.Ok? <==> id in store && Intact(id, store[id]) && id.thread == thread
    ensures r.Ok? ==> r.value == id
  {
    if id !in store || store[id].manifest != id || id.thread != thread {
      return Err("corrupt");
    }
    var scanned := ScanSource(store[id].copy);
    if scanned.Err? || scanned.value != id.entries {
      return Err("corrupt");
    }
    r := Ok(id);
  }

  /** `listed` is what the copying scan recorded while the source may have been
      changing, `staged` the copy it made, and `source` the source as the
      verifying scan finds it. A snapshot is published only if all three agree;
      an existing one is never replaced, even a damaged one. */
  method Capture(store: Snapshots, thread: string, generation: nat, at: string, listed: seq<Entry>, staged: Source, source: Source)
    returns (r: Result<Manifest>, after: Snapshots)
    requires SourceOk(staged) && SourceOk(source)
    requires forall id :: id in store ==> SourceOk(store[id].copy)
    ensures r.Ok? <==>
      && SourceFits(staged) && SourceFits(source) && listed == FlattenSource(staged) && listed == FlattenSource(source)
      && var id := Manifest(thread, generation, at, listed); id in store ==> Intact(id, store[id])
    ensures r.Err? ==> after == store
    ensures r.Ok? ==>
      && staged == source && r.value == Manifest(thread, generation, at, FlattenSource(source))
      && r.value in after && after[r.value] == Retained(r.value, source)
    ensures forall id :: id in store ==> id in after && after[id] == store[id]
    ensures r.Ok? ==> after.Keys == store.Keys + {r.value}
  {
    after := store;
    var manifest := Manifest(thread, generation, at, listed);
    var first := ScanSource(staged);
    if first.Err? || first.value != listed {
      return Err("staged artifact verification failed"), store;
    }
    var second := ScanSource(source);
    if second.Err? || second.value != listed {
      return Err("artifact source changed during preservation"), store;
    }
    EntriesDetermineSource(staged, source);
    if manifest in store {
      var existing := Load(store, manifest, thread);
      if existing.Err? {
        return existing, store;
      }
      EntriesDetermineSource(store[manifest].copy, source);
    } else {
      after := store[manifest := Retained(manifest, staged)];
    }
    r := Ok(manifest);
  }
}
