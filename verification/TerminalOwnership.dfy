/** Whether anything else under the root refers to a terminal: a bounded scan
    that refuses when it cannot tell. */
module TerminalOwnership {
  import opened Results

  datatype Reference = Reference(machine: string, socket: string, pane: string)

  datatype CoordinatorFile = CoordinatorFile(bytes: nat, parses: bool, socket: string, pane: string)

  /** `sound` says that the file parses, its id is valid and matches its name. */
  datatype ThreadFile = NotARecord | Record(bytes: nat, sound: bool, id: string, machine: string, pane: string)

  /** A directory entry of the root: nothing to do with projects, something that
      cannot be trusted (aliases, a missing PROJECT.md, an invalid name), a
      project with a store, or one with files. A store is read within a budget
      of its own, what is left of the scan's. */
  datatype Entry =
    | Foreign
    | Untrusted
    | Stored(bytes: nat, references: seq<Reference>)
    | Legacy(dir: string, coordinator: Option<CoordinatorFile>, threads: seq<ThreadFile>)

  /** The terminal asked about, and the record that asks: a coordinator or a thread. */
  datatype Target = Target(dir: string, id: string, coordinator: bool, pane: string, remote: bool, socket: string)

  const FILE_LIMIT: nat := 16 * 1024 * 1024
  const BYTE_LIMIT: nat := 50 * 1024 * 1024
  const RECORD_LIMIT: nat := 1024
  const ROOT_LIMIT: nat := 1024
  const THREAD_LIMIT: nat := 256

  /** Resolving a session's socket may fail. */
  type Resolver = string -> Option<string>

  predicate Clear(t: Target, resolve: Resolver, r: Reference) {
    r.pane == "" || r.pane != t.pane
    || (!t.remote && r.machine == "" && resolve(r.socket).Some? && resolve(r.socket).value != t.socket)
  }

  predicate AllClear(t: Target, resolve: Resolver, refs: seq<Reference>) {
    forall i :: 0 <= i < |refs| ==> Clear(t, resolve, refs[i])
  }

  function SocketOf(c: Option<CoordinatorFile>): string { if c.Some? then c.value.socket else "" }

  /** The references of the thread files, without the asking thread's own. */
  function ThreadRefs(t: Target, dir: string, socket: string, threads: seq<ThreadFile>): seq<Reference> {
    if threads == [] then []
    else
      var rest := ThreadRefs(t, dir, socket, threads[..|threads| - 1]);
      var f := threads[|threads| - 1];
      if f.NotARecord? || (!t.coordinator && dir == t.dir && f.id == t.id) then rest else rest + [Reference(f.machine, socket, f.pane)]
  }

  function RefsOf(t: Target, e: Entry): seq<Reference> {
    match e
    case Stored(_, references) => references
    case Legacy(dir, c, threads) =>
      (if c.Some? && !(t.coordinator && dir == t.dir) then [Reference("", c.value.socket, c.value.pane)] else [])
      + ThreadRefs(t, dir, SocketOf(c), threads)
    case _ => []
  }

  function ThreadBytes(threads: seq<ThreadFile>): nat {
    if threads == [] then 0
    else
      var f := threads[|threads| - 1];
      ThreadBytes(threads[..|threads| - 1]) + if f.Record? then f.bytes else 0
  }

  function BytesOf(e: Entry): nat {
    match e
    case Stored(bytes, _) => bytes
    case Legacy(_, c, threads) => (if c.Some? then c.value.bytes else 0) + ThreadBytes(threads)
    case _ => 0
  }

  predicate EntrySound(e: Entry) {
    match e
    case Untrusted => false
    case Legacy(_, c, threads) =>
      && (c.Some? ==> c.value.parses && c.value.bytes <= FILE_LIMIT) && |threads| <= THREAD_LIMIT
      && (forall i :: 0 <= i < |threads| ==> ThreadSound(threads[i]))
    case _ => true
  }

  predicate ThreadSound(f: ThreadFile) { f.Record? ==> f.sound && f.bytes <= FILE_LIMIT }

  function AllRefs(t: Target, root: seq<Entry>): seq<Reference> {
    if root == [] then [] else AllRefs(t, root[..|root| - 1]) + RefsOf(t, root[|root| - 1])
  }

  function AllBytes(root: seq<Entry>): nat {
    if root == [] then 0 else AllBytes(root[..|root| - 1]) + BytesOf(root[|root| - 1])
  }

  /** What the scan must find in order to let the terminal be used. */
  ghost predicate Unowned(t: Target, resolve: Resolver, root: seq<Entry>) {
    && |root| <= ROOT_LIMIT && (forall i :: 0 <= i < |root| ==> EntrySound(root[i]))
    && AllBytes(root) <= BYTE_LIMIT && |AllRefs(t, root)| <= RECORD_LIMIT
    && AllClear(t, resolve, AllRefs(t, root))
  }

  class Inventory {
    const target: Target
    const resolve: Resolver
    var bytes: nat
    var records: nat

    constructor (target: Target, resolve: Resolver)
      ensures this.target == target && this.resolve == resolve && bytes == 0 && records == 0
    {
      this.target := target;
      this.resolve := resolve;
      bytes, records := 0, 0;
    }

    method Read(n: nat) returns (ok: bool)
      modifies this`bytes
      ensures ok <==> n <= FILE_LIMIT && old(bytes) + n <= BYTE_LIMIT
      ensures ok ==> bytes == old(bytes) + n
    {
      if n > FILE_LIMIT {
        return false;
      }
      bytes := bytes + n;
      ok := bytes <= BYTE_LIMIT;
    }

    method Check(r: Reference) returns (ok: bool)
      modifies this`records
      ensures records == old(records) + 1 && (ok <==> records <= RECORD_LIMIT && Clear(target, resolve, r))
    {
      records := records + 1;
      if records > RECORD_LIMIT {
        return false;
      }
      if r.pane != "" && r.pane == target.pane {
        if target.remote || r.machine != "" {
          return false;
        }
        var location := resolve(r.socket);
        return location.Some? && location.value != target.socket;
      }
      return true;
    }

    method CheckAll(refs: seq<Reference>) returns (ok: bool)
      requires records <= RECORD_LIMIT
      modifies this`records
      ensures ok <==> old(records) + |refs| <= RECORD_LIMIT && AllClear(target, resolve, refs)
      ensures ok ==> records == old(records) + |refs|
    {
      for i := 0 to |refs|
        invariant records == old(records) + i <= RECORD_LIMIT && AllClear(target, resolve, refs[..i])
      {
        ok := Check(refs[i]);
        if !ok {
          return;
        }
        assert refs[..i + 1] == refs[..i] + [refs[i]];
      }
      assert refs[..|refs|] == refs;
      ok := true;
    }

    /** One thread file. */
    method CheckThread(dir: string, socket: string, f: ThreadFile) returns (ok: bool)
      requires records <= RECORD_LIMIT && bytes <= BYTE_LIMIT
      modifies this
      ensures ok <==> old(Room(ThreadBytes([f]), |ThreadRefs(target, dir, socket, [f])|)) && ThreadSound(f) && AllClear(target, resolve, ThreadRefs(target, dir, socket, [f]))
      ensures ok ==> bytes == old(bytes) + ThreadBytes([f]) && records == old(records) + |ThreadRefs(target, dir, socket, [f])|
    {
      assert [f][..0] == [] && ThreadRefs(target, dir, socket, []) == [] && ThreadBytes([]) == 0;
      if f.NotARecord? {
        return true;
      }
      ok := Read(f.bytes);
      if !ok || !f.sound {
        return false;
      }
      if !target.coordinator && dir == target.dir && f.id == target.id {
        return true;
      }
      OneClear(target, resolve, Reference(f.machine, socket, f.pane));
      assert ThreadRefs(target, dir, socket, [f]) == [Reference(f.machine, socket, f.pane)];
      ok := Check(Reference(f.machine, socket, f.pane));
    }

    predicate Room(moreBytes: nat, moreRecords: nat)
      reads this
    {
      bytes + moreBytes <= BYTE_LIMIT && records + moreRecords <= RECORD_LIMIT
    }

    method CheckThreads(dir: string, socket: string, threads: seq<ThreadFile>) returns (ok: bool)
      requires records <= RECORD_LIMIT && bytes <= BYTE_LIMIT
      modifies this
      ensures ok <==> ThreadsPass(target, resolve, dir, socket, threads, old(bytes), old(records))
      ensures ok ==> bytes == old(bytes) + ThreadBytes(threads) && records == old(records) + |ThreadRefs(target, dir, socket, threads)|
    {
      for i := 0 to |threads|
        invariant ThreadsPass(target, resolve, dir, socket, threads[..i], old(bytes), old(records))
        invariant bytes == old(bytes) + ThreadBytes(threads[..i]) && records == old(records) + |ThreadRefs(target, dir, socket, threads[..i])|
      {
        ThreadsStep(target, resolve, dir, socket, threads, i, old(bytes), old(records));
        if i >= THREAD_LIMIT {
          return false;
        }
        ok := CheckThread(dir, socket, threads[i]);
        if !ok {
          return;
        }
      }
      assert threads[..|threads|] == threads;
      ok := true;
    }

    /** One entry of the root: a store's references, or the coordinator's and the threads'. */
    method CheckEntry(e: Entry) returns (ok: bool)
      requires records <= RECORD_LIMIT && bytes <= BYTE_LIMIT
      modifies this
      ensures ok <==> EntryPasses(target, resolve, e, old(bytes), old(records))
      ensures ok ==> bytes == old(bytes) + BytesOf(e) && records == old(records) + |RefsOf(target, e)|
    {
      match e
      case Foreign => return true;
      case Untrusted => return false;
      case Stored(n, references) =>
        if n > BYTE_LIMIT - bytes || |references| > RECORD_LIMIT - records {
          return false;
        }
        bytes := bytes + n;
        ok := CheckAll(references);
      case Legacy(dir, c, threads) =>
        ok := CheckCoordinator(dir, c);
        LegacySplits(target, resolve, dir, c, threads, old(bytes), old(records));
        if ok {
          ok := CheckThreads(dir, SocketOf(c), threads);
        }
    }

    method CheckCoordinator(dir: string, c: Option<CoordinatorFile>) returns (ok: bool)
      requires records <= RECORD_LIMIT && bytes <= BYTE_LIMIT
      modifies this
      ensures ok <==> EntryPasses(target, resolve, Legacy(dir, c, []), old(bytes), old(records))
      ensures ok ==> bytes == old(bytes) + BytesOf(Legacy(dir, c, [])) && records == old(records) + |RefsOf(target, Legacy(dir, c, []))|
    {
      if c.None? {
        return true;
      }
      ok := Read(c.value.bytes);
      if !ok || !c.value.parses {
        return false;
      }
      if !target.coordinator || dir != target.dir {
        OneClear(target, resolve, Reference("", c.value.socket, c.value.pane));
        assert RefsOf(target, Legacy(dir, c, [])) == [Reference("", c.value.socket, c.value.pane)];
        ok := Check(Reference("", c.value.socket, c.value.pane));
      }
    }

    /** The whole scan succeeds exactly when the terminal is unowned. */
    method Scan(root: seq<Entry>) returns (ok: bool)
      requires bytes == 0 && records == 0
      modifies this
      ensures ok <==> Unowned(target, resolve, root)
    {
      for i := 0 to |root|
        invariant Unowned(target, resolve, root[..i])
        invariant bytes == AllBytes(root[..i]) && records == |AllRefs(target, root[..i])|
      {
        RootStep(target, resolve, root, i);
        UnownedStep(target, resolve, root, i);
        if i >= ROOT_LIMIT {
          return false;
        }
        ok := CheckEntry(root[i]);
        if !ok {
          return;
        }
      }
      assert root[..|root|] == root;
      ok := true;
    }
  }

  ghost predicate ThreadsPass(t: Target, resolve: Resolver, dir: string, socket: string, threads: seq<ThreadFile>, bytes: nat, records: nat) {
    && |threads| <= THREAD_LIMIT && (forall i :: 0 <= i < |threads| ==> ThreadSound(threads[i]))
    && bytes + ThreadBytes(threads) <= BYTE_LIMIT && records + |ThreadRefs(t, dir, socket, threads)| <= RECORD_LIMIT
    && AllClear(t, resolve, ThreadRefs(t, dir, socket, threads))
  }

  ghost predicate EntryPasses(t: Target, resolve: Resolver, e: Entry, bytes: nat, records: nat) {
    && EntrySound(e) && bytes + BytesOf(e) <= BYTE_LIMIT && records + |RefsOf(t, e)| <= RECORD_LIMIT
    && AllClear(t, resolve, RefsOf(t, e))
  }

  lemma OneClear(t: Target, resolve: Resolver, r: Reference)
    ensures AllClear(t, resolve, [r]) <==> Clear(t, resolve, r)
  {
    assert [r][0] == r;
  }

  lemma ClearConcat(t: Target, resolve: Resolver, a: seq<Reference>, b: seq<Reference>)
    ensures AllClear(t, resolve, a + b) <==> AllClear(t, resolve, a) && AllClear(t, resolve, b)
  {
    var s := a + b;
    assert forall i :: 0 <= i < |a| ==> s[i] == a[i];
    assert forall i :: 0 <= i < |b| ==> s[|a| + i] == b[i];
  }

  /** What is counted and listed only grows. */
  lemma {:induction false} ThreadsGrow(t: Target, dir: string, socket: string, threads: seq<ThreadFile>, i: nat)
    requires i <= |threads|
    ensures ThreadBytes(threads[..i]) <= ThreadBytes(threads)
    ensures ThreadRefs(t, dir, socket, threads[..i]) <= ThreadRefs(t, dir, socket, threads)
    decreases |threads|
  {
    if i < |threads| {
      assert threads[..|threads| - 1][..i] == threads[..i];
      ThreadsGrow(t, dir, socket, threads[..|threads| - 1], i);
    } else {
      assert threads[..i] == threads;
    }
  }

  lemma ThreadsStep(t: Target, resolve: Resolver, dir: string, socket: string, threads: seq<ThreadFile>, i: nat, bytes: nat, records: nat)
    requires i < |threads|
    ensures ThreadBytes(threads[..i + 1]) == ThreadBytes(threads[..i]) + ThreadBytes([threads[i]])
    ensures ThreadRefs(t, dir, socket, threads[..i + 1]) == ThreadRefs(t, dir, socket, threads[..i]) + ThreadRefs(t, dir, socket, [threads[i]])
    ensures AllClear(t, resolve, ThreadRefs(t, dir, socket, threads[..i + 1])) <==>
              AllClear(t, resolve, ThreadRefs(t, dir, socket, threads[..i])) && AllClear(t, resolve, ThreadRefs(t, dir, socket, [threads[i]]))
    ensures ThreadsPass(t, resolve, dir, socket, threads, bytes, records) ==> ThreadsPass(t, resolve, dir, socket, threads[..i + 1], bytes, records)
  {
    assert threads[..i + 1][..i] == threads[..i] && [threads[i]][..0] == [];
    assert ThreadRefs(t, dir, socket, []) == [] && ThreadBytes([]) == 0;
    ClearConcat(t, resolve, ThreadRefs(t, dir, socket, threads[..i]), ThreadRefs(t, dir, socket, [threads[i]]));
    ThreadsGrow(t, dir, socket, threads, i + 1);
  }

  lemma LegacySplits(t: Target, resolve: Resolver, dir: string, c: Option<CoordinatorFile>, threads: seq<ThreadFile>, bytes: nat, records: nat)
    ensures var head, all := Legacy(dir, c, []), Legacy(dir, c, threads);
            && BytesOf(all) == BytesOf(head) + ThreadBytes(threads)
            && RefsOf(t, all) == RefsOf(t, head) + ThreadRefs(t, dir, SocketOf(c), threads)
            && (EntryPasses(t, resolve, all, bytes, records) <==>
                  && EntryPasses(t, resolve, head, bytes, records)
                  && ThreadsPass(t, resolve, dir, SocketOf(c), threads, bytes + BytesOf(head), records + |RefsOf(t, head)|))
  {
    ClearConcat(t, resolve, RefsOf(t, Legacy(dir, c, [])), ThreadRefs(t, dir, SocketOf(c), threads));
  }

  lemma {:induction false} RootGrows(t: Target, root: seq<Entry>, i: nat)
    requires i <= |root|
    ensures AllBytes(root[..i]) <= AllBytes(root) && AllRefs(t, root[..i]) <= AllRefs(t, root)
    decreases |root|
  {
    if i < |root| {
      assert root[..|root| - 1][..i] == root[..i];
      RootGrows(t, root[..|root| - 1], i);
    } else {
      assert root[..i] == root;
    }
  }

  lemma RootStep(t: Target, resolve: Resolver, root: seq<Entry>, i: nat)
    requires i < |root|
    ensures AllBytes(root[..i + 1]) == AllBytes(root[..i]) + BytesOf(root[i])
    ensures AllRefs(t, root[..i + 1]) == AllRefs(t, root[..i]) + RefsOf(t, root[i])
    ensures AllClear(t, resolve, AllRefs(t, root[..i + 1])) <==> AllClear(t, resolve, AllRefs(t, root[..i])) && AllClear(t, resolve, RefsOf(t, root[i]))
    ensures Unowned(t, resolve, root) ==> Unowned(t, resolve, root[..i + 1])
  {
    assert root[..i + 1][..i] == root[..i];
    RefsStep(t, root, i);
    ClearConcat(t, resolve, AllRefs(t, root[..i]), RefsOf(t, root[i]));
    RootGrows(t, root, i + 1);
  }

  /** One entry more keeps the terminal unowned exactly if that entry passes. */
  lemma UnownedStep(t: Target, resolve: Resolver, root: seq<Entry>, i: nat)
    requires i < |root| && Unowned(t, resolve, root[..i])
    ensures Unowned(t, resolve, root[..i + 1]) <==> i < ROOT_LIMIT && EntryPasses(t, resolve, root[i], AllBytes(root[..i]), |AllRefs(t, root[..i])|)
  {
    RootStep(t, resolve, root, i);
    assert root[..i + 1][i] == root[i] && forall k :: 0 <= k < i ==> root[..i + 1][k] == root[..i][k];
  }

  // ---------------------------------------------------------------- what success means

  /** The asking record: the scan passes over it and nothing else. */
  predicate IsAsker(t: Target, dir: string, f: ThreadFile) {
    !t.coordinator && dir == t.dir && f.Record? && f.id == t.id
  }

  /** No reference found on the way shares the terminal: none on the same
      resolved socket, and none with that pane at all when either side is remote. */
  lemma NobodyElse(t: Target, resolve: Resolver, root: seq<Entry>, n: nat, r: Reference)
    requires Unowned(t, resolve, root) && n < |root| && r in RefsOf(t, root[n]) && r.pane == t.pane != ""
    ensures !t.remote && r.machine == "" && resolve(r.socket).Some? && resolve(r.socket).value != t.socket
  {
    RootStep(t, resolve, root, n);
    var i :| 0 <= i < |RefsOf(t, root[n])| && RefsOf(t, root[n])[i] == r;
    assert Clear(t, resolve, RefsOf(t, root[n])[i]);
  }

  /** Every thread record but the asker's is among the references. */
  lemma {:induction false} ThreadsAreListed(t: Target, dir: string, socket: string, threads: seq<ThreadFile>, f: ThreadFile)
    requires f in threads && f.Record? && !IsAsker(t, dir, f)
    ensures Reference(f.machine, socket, f.pane) in ThreadRefs(t, dir, socket, threads)
    decreases |threads|
  {
    var last := |threads| - 1;
    assert threads == threads[..last] + [threads[last]];
    if f != threads[last] {
      ThreadsAreListed(t, dir, socket, threads[..last], f);
    }
  }

  /** If the scan succeeds, no other thread of any project with files names the
      pane on the same session, or at all when either side is remote. */
  lemma NoOtherThread(t: Target, resolve: Resolver, root: seq<Entry>, n: nat, f: ThreadFile)
    requires Unowned(t, resolve, root) && n < |root| && root[n].Legacy? && f in root[n].threads && f.Record? && !IsAsker(t, root[n].dir, f)
    requires f.pane == t.pane != ""
    ensures var session := resolve(SocketOf(root[n].coordinator));
            !t.remote && f.machine == "" && session.Some? && session.value != t.socket
  {
    ThreadsAreListed(t, root[n].dir, SocketOf(root[n].coordinator), root[n].threads, f);
    NobodyElse(t, resolve, root, n, Reference(f.machine, SocketOf(root[n].coordinator), f.pane));
  }

  /** Likewise for every coordinator but an asking one. */
  lemma NoOtherCoordinator(t: Target, resolve: Resolver, root: seq<Entry>, n: nat)
    requires Unowned(t, resolve, root) && n < |root| && root[n].Legacy? && root[n].coordinator.Some? && !(t.coordinator && root[n].dir == t.dir)
    requires root[n].coordinator.value.pane == t.pane != ""
    ensures var session := resolve(root[n].coordinator.value.socket);
            !t.remote && session.Some? && session.value != t.socket
  {
    var c := root[n].coordinator.value;
    assert RefsOf(t, root[n])[0] == Reference("", c.socket, c.pane);
    NobodyElse(t, resolve, root, n, Reference("", c.socket, c.pane));
  }

  /** Likewise for everything a stored project is bound to or launched. */
  lemma NoStoredReference(t: Target, resolve: Resolver, root: seq<Entry>, n: nat, r: Reference)
    requires Unowned(t, resolve, root) && n < |root| && root[n].Stored? && r in root[n].references && r.pane == t.pane != ""
    ensures !t.remote && r.machine == "" && resolve(r.socket).Some? && resolve(r.socket).value != t.socket
  {
    NobodyElse(t, resolve, root, n, r);
  }

  // ---------------------------------------------------------------- what is counted

  /** Where an entry refers to a terminal: at a stored reference, or, with files,
      at its coordinator (place 0) or at a thread file, but never at the asker. */
  predicate RefersAt(t: Target, e: Entry, i: nat) {
    match e
    case Stored(_, references) => i < |references|
    case Legacy(dir, c, threads) =>
      if i == 0 then c.Some? && !(t.coordinator && dir == t.dir)
      else i <= |threads| && threads[i - 1].Record? && !IsAsker(t, dir, threads[i - 1])
    case _ => false
  }

  function ReferenceAt(e: Entry, i: nat): Reference {
    match e
    case Stored(_, references) => if i < |references| then references[i] else Reference("", "", "")
    case Legacy(_, c, threads) =>
      if i == 0 then Reference("", SocketOf(c), if c.Some? then c.value.pane else "")
      else if i <= |threads| && threads[i - 1].Record? then Reference(threads[i - 1].machine, SocketOf(c), threads[i - 1].pane)
      else Reference("", "", "")
    case _ => Reference("", "", "")
  }

  function PlacesOf(e: Entry): nat {
    match e
    case Stored(_, references) => |references|
    case Legacy(_, _, threads) => |threads| + 1
    case _ => 0
  }

  /** The places of one entry, and of the whole root. */
  function Places(t: Target, e: Entry, n: nat): set<(nat, nat)> { set i | 0 <= i < PlacesOf(e) && RefersAt(t, e, i) :: (n, i) }

  function AllPlaces(t: Target, root: seq<Entry>): set<(nat, nat)> {
    set n, i | 0 <= n < |root| && 0 <= i < PlacesOf(root[n]) && RefersAt(t, root[n], i) :: (n, i)
  }

  lemma {:induction false} StoredPlaces(t: Target, bytes: nat, refs: seq<Reference>, n: nat)
    ensures |Places(t, Stored(bytes, refs), n)| == |refs|
    decreases |refs|
  {
    var all := Places(t, Stored(bytes, refs), n);
    if refs != [] {
      var last := |refs| - 1;
      StoredPlaces(t, bytes, refs[..last], n);
      assert all == Places(t, Stored(bytes, refs[..last]), n) + {(n, last)};
    } else {
      assert all == {};
    }
  }

  /** One thread file more adds at most its own place. */
  lemma LegacyStep(t: Target, dir: string, c: Option<CoordinatorFile>, threads: seq<ThreadFile>, n: nat)
    requires threads != []
    ensures var e, less := Legacy(dir, c, threads), Legacy(dir, c, threads[..|threads| - 1]);
            Places(t, e, n) == Places(t, less, n) + if RefersAt(t, e, |threads|) then {(n, |threads|)} else {}
  {
    var e, less := Legacy(dir, c, threads), Legacy(dir, c, threads[..|threads| - 1]);
    assert forall i: nat :: i < |threads| ==> RefersAt(t, less, i) == RefersAt(t, e, i);
  }

  lemma {:induction false} LegacyPlaces(t: Target, dir: string, c: Option<CoordinatorFile>, threads: seq<ThreadFile>, n: nat)
    ensures |Places(t, Legacy(dir, c, threads), n)| == |RefsOf(t, Legacy(dir, c, threads))|
    decreases |threads|
  {
    var e := Legacy(dir, c, threads);
    if threads == [] {
      assert Places(t, e, n) == if RefersAt(t, e, 0) then {(n, 0)} else {};
    } else {
      LegacyPlaces(t, dir, c, threads[..|threads| - 1], n);
      LegacyStep(t, dir, c, threads, n);
      assert (n, |threads|) !in Places(t, Legacy(dir, c, threads[..|threads| - 1]), n);
    }
  }

  lemma EntryCount(t: Target, e: Entry, n: nat)
    ensures |Places(t, e, n)| == |RefsOf(t, e)|
  {
    match e
    case Stored(bytes, refs) => StoredPlaces(t, bytes, refs, n);
    case Legacy(dir, c, threads) => LegacyPlaces(t, dir, c, threads, n);
    case _ => assert Places(t, e, n) == {};
  }

  lemma PlacesStep(t: Target, root: seq<Entry>, n: nat)
    requires n < |root|
    ensures AllPlaces(t, root[..n + 1]) == AllPlaces(t, root[..n]) + Places(t, root[n], n)
    ensures AllPlaces(t, root[..n]) !! Places(t, root[n], n)
  {
  }

  lemma RefsStep(t: Target, root: seq<Entry>, n: nat)
    requires n < |root|
    ensures AllRefs(t, root[..n + 1]) == AllRefs(t, root[..n]) + RefsOf(t, root[n])
  {
    assert root[..n + 1][..n] == root[..n];
  }

  /** The scan counts each place once. */
  lemma {:induction false} CountIsExact(t: Target, root: seq<Entry>, n: nat)
    requires n <= |root|
    ensures |AllRefs(t, root[..n])| == |AllPlaces(t, root[..n])|
    decreases n
  {
    if n == 0 {
      assert AllPlaces(t, root[..n]) == {};
    } else {
      CountIsExact(t, root, n - 1);
      CountStep(t, root, n - 1);
    }
  }

  lemma CountStep(t: Target, root: seq<Entry>, n: nat)
    requires n < |root|
    ensures |AllPlaces(t, root[..n + 1])| == |AllPlaces(t, root[..n])| + |RefsOf(t, root[n])|
    ensures |AllRefs(t, root[..n + 1])| == |AllRefs(t, root[..n])| + |RefsOf(t, root[n])|
  {
    RefsStep(t, root, n);
    EntryCount(t, root[n], n);
    PlacesStep(t, root, n);
    DisjointSize(AllPlaces(t, root[..n]), Places(t, root[n], n));
  }

  lemma DisjointSize(a: set<(nat, nat)>, b: set<(nat, nat)>)
    requires a !! b
    ensures |a + b| == |a| + |b|
  {
  }

  /** Every reference that is listed stands at a place, and the other way round. */
  lemma {:induction false} ThreadsListOnlyThose(t: Target, dir: string, socket: string, threads: seq<ThreadFile>, r: Reference) returns (k: nat)
    requires r in ThreadRefs(t, dir, socket, threads)
    ensures k < |threads| && threads[k].Record? && !IsAsker(t, dir, threads[k]) && r == Reference(threads[k].machine, socket, threads[k].pane)
    decreases |threads|
  {
    var last := |threads| - 1;
    if r in ThreadRefs(t, dir, socket, threads[..last]) {
      k := ThreadsListOnlyThose(t, dir, socket, threads[..last], r);
    } else {
      k := last;
    }
  }

  lemma ListedIffAtPlace(t: Target, e: Entry, r: Reference)
    ensures r in RefsOf(t, e) <==> exists i :: RefersAt(t, e, i) && ReferenceAt(e, i) == r
  {
    if r in RefsOf(t, e) {
      if e.Stored? {
        var i :| 0 <= i < |e.references| && e.references[i] == r;
        assert RefersAt(t, e, i) && ReferenceAt(e, i) == r;
      } else if r in ThreadRefs(t, e.dir, SocketOf(e.coordinator), e.threads) {
        var k := ThreadsListOnlyThose(t, e.dir, SocketOf(e.coordinator), e.threads, r);
        assert RefersAt(t, e, k + 1) && ReferenceAt(e, k + 1) == r;
      } else {
        assert RefersAt(t, e, 0) && ReferenceAt(e, 0) == r;
      }
    }
    forall i | RefersAt(t, e, i) ensures ReferenceAt(e, i) in RefsOf(t, e) {
      if e.Legacy? && i > 0 {
        ThreadsAreListed(t, e.dir, SocketOf(e.coordinator), e.threads, e.threads[i - 1]);
      }
    }
  }

  function Sum(sizes: seq<nat>): nat { if sizes == [] then 0 else sizes[0] + Sum(sizes[1..]) }

  /** The sizes of everything the scan reads, in the order of reading. */
  function Sizes(root: seq<Entry>): seq<nat> {
    if root == [] then [] else Sizes(root[..|root| - 1]) + SizesOf(root[|root| - 1])
  }

  function SizesOf(e: Entry): seq<nat> {
    match e
    case Stored(bytes, _) => [bytes]
    case Legacy(_, Some(c), threads) => [c.bytes] + ThreadSizes(threads)
    case Legacy(_, None, threads) => ThreadSizes(threads)
    case _ => []
  }

  function ThreadSizes(threads: seq<ThreadFile>): seq<nat> {
    if threads == [] then [] else ThreadSizes(threads[..|threads| - 1]) + match threads[|threads| - 1] case Record(bytes, _, _, _, _) => [bytes] case _ => []
  }

  lemma {:induction false} SumConcat(a: seq<nat>, b: seq<nat>)
    ensures Sum(a + b) == Sum(a) + Sum(b)
    decreases |a|
  {
    if a == [] {
      assert a + b == b;
    } else {
      assert (a + b)[1..] == a[1..] + b;
      SumConcat(a[1..], b);
    }
  }

  lemma {:induction false} ThreadBytesAreExact(threads: seq<ThreadFile>)
    ensures ThreadBytes(threads) == Sum(ThreadSizes(threads))
    decreases |threads|
  {
    if threads != [] {
      var rest, f := threads[..|threads| - 1], threads[|threads| - 1];
      ThreadBytesAreExact(rest);
      SumConcat(ThreadSizes(rest), if f.Record? then [f.bytes] else []);
    }
  }

  lemma EntryBytesAreExact(e: Entry)
    ensures BytesOf(e) == Sum(SizesOf(e))
  {
    if e.Legacy? {
      ThreadBytesAreExact(e.threads);
    }
  }

  lemma {:induction false} BytesAreExact(root: seq<Entry>)
    ensures AllBytes(root) == Sum(Sizes(root))
    decreases |root|
  {
    if root != [] {
      var last := |root| - 1;
      BytesAreExact(root[..last]);
      EntryBytesAreExact(root[last]);
      SumConcat(Sizes(root[..last]), SizesOf(root[last]));
    }
  }

  /** The scan succeeds exactly when the root and every thread directory are
      small enough, nothing is untrusted, unreadable or too large, everything read
      together keeps to 50 MiB and everything that refers to a terminal to 1024,
      and no place but the asker's own refers to this one. */
  lemma UnownedIff(t: Target, resolve: Resolver, root: seq<Entry>)
    ensures Unowned(t, resolve, root) <==>
              && |root| <= 1024 && Sum(Sizes(root)) <= 52428800 && |AllPlaces(t, root)| <= 1024
              && AllReadable(root) && AllElsewhere(t, resolve, root)
  {
    BytesAreExact(root);
    CountIsExact(t, root, |root|);
    assert root[..|root|] == root;
    ClearIffElsewhere(t, resolve, root);
    ReadableIffSound(root);
  }

  predicate AllReadable(root: seq<Entry>) { forall n :: 0 <= n < |root| ==> Readable(root[n]) }

  lemma ReadableIffSound(root: seq<Entry>)
    ensures AllReadable(root) <==> forall n :: 0 <= n < |root| ==> EntrySound(root[n])
  {
    forall n | 0 <= n < |root| ensures Readable(root[n]) <==> EntrySound(root[n]) {
      ReadableIsSound(root[n]);
    }
  }

  lemma ReadableIsSound(e: Entry)
    ensures Readable(e) <==> EntrySound(e)
  {
    if e.Legacy? {
      assert (forall k :: 0 <= k < |e.threads| && e.threads[k].Record? ==> e.threads[k].sound && e.threads[k].bytes <= 16777216)
        <==> (forall k :: 0 <= k < |e.threads| ==> ThreadSound(e.threads[k]));
    }
  }

  ghost predicate AllElsewhere(t: Target, resolve: Resolver, root: seq<Entry>) {
    forall n, i :: 0 <= n < |root| && RefersAt(t, root[n], i) ==> Elsewhere(t, resolve, ReferenceAt(root[n], i))
  }

  lemma ClearIffElsewhere(t: Target, resolve: Resolver, root: seq<Entry>)
    ensures AllClear(t, resolve, AllRefs(t, root)) <==> AllElsewhere(t, resolve, root)
  {
    if AllClear(t, resolve, AllRefs(t, root)) {
      forall n, i | 0 <= n < |root| && RefersAt(t, root[n], i) ensures Elsewhere(t, resolve, ReferenceAt(root[n], i)) {
        ClearIsElsewhere(t, resolve, root, n, i);
      }
    }
    if AllElsewhere(t, resolve, root) {
      ElsewhereIsClear(t, resolve, root, |root|);
      assert root[..|root|] == root;
    }
  }

  lemma ClearIsElsewhere(t: Target, resolve: Resolver, root: seq<Entry>, n: nat, i: nat)
    requires AllClear(t, resolve, AllRefs(t, root)) && n < |root| && RefersAt(t, root[n], i)
    ensures Elsewhere(t, resolve, ReferenceAt(root[n], i))
  {
    RefsStep(t, root, n);
    RootGrows(t, root, n + 1);
    ListedIffAtPlace(t, root[n], ReferenceAt(root[n], i));
    assert ReferenceAt(root[n], i) in AllRefs(t, root[..n + 1]);
    ClearAmong(t, resolve, AllRefs(t, root), ReferenceAt(root[n], i));
  }

  lemma ClearAmong(t: Target, resolve: Resolver, refs: seq<Reference>, r: Reference)
    requires AllClear(t, resolve, refs) && r in refs
    ensures Elsewhere(t, resolve, r)
  {
    var k :| 0 <= k < |refs| && refs[k] == r;
    assert Clear(t, resolve, refs[k]);
  }

  lemma {:induction false} ElsewhereIsClear(t: Target, resolve: Resolver, root: seq<Entry>, n: nat)
    requires n <= |root|
    requires AllElsewhere(t, resolve, root)
    ensures AllClear(t, resolve, AllRefs(t, root[..n]))
    decreases n
  {
    if n > 0 {
      ElsewhereIsClear(t, resolve, root, n - 1);
      RootStep(t, resolve, root, n - 1);
      var refs := RefsOf(t, root[n - 1]);
      forall k | 0 <= k < |refs| ensures Clear(t, resolve, refs[k]) {
        ListedIffAtPlace(t, root[n - 1], refs[k]);
        var i :| RefersAt(t, root[n - 1], i) && ReferenceAt(root[n - 1], i) == refs[k];
        assert Elsewhere(t, resolve, ReferenceAt(root[n - 1], i));
      }
    }
  }

  /** Not this terminal: another pane, or the same pane on another session of this machine. */
  predicate Elsewhere(t: Target, resolve: Resolver, r: Reference) {
    r.pane == t.pane != "" ==> !t.remote && r.machine == "" && resolve(r.socket).Some? && resolve(r.socket).value != t.socket
  }

  predicate Readable(e: Entry) {
    && !e.Untrusted?
    && (e.Legacy? ==>
          && (e.coordinator.Some? ==> e.coordinator.value.parses && e.coordinator.value.bytes <= 16777216)
          && |e.threads| <= 256
          && forall k :: 0 <= k < |e.threads| && e.threads[k].Record? ==> e.threads[k].sound && e.threads[k].bytes <= 16777216)
  }
}
