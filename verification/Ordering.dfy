/** The byte order of names, and the sorted, duplicate-free list of a footprint. */
module Ordering {
  import opened LockNames

  /** Strict lexicographic order. */
  predicate Below(a: string, b: string) {
    b != [] && (a == [] || a[0] < b[0] || (a[0] == b[0] && Below(a[1..], b[1..])))
  }

  lemma BelowTransitive(a: string, b: string, c: string)
    requires Below(a, b) && Below(b, c)
    ensures Below(a, c)
  {
    if a != [] && a[0] == b[0] && b[0] == c[0] {
      BelowTransitive(a[1..], b[1..], c[1..]);
    }
  }

  lemma BelowIrreflexive(a: string)
    ensures !Below(a, a)
  {
    if a != [] { BelowIrreflexive(a[1..]); }
  }

  lemma BelowTotal(a: string, b: string)
    ensures a == b || Below(a, b) || Below(b, a)
  {
    if a != [] && b != [] && a[0] == b[0] {
      BelowTotal(a[1..], b[1..]);
      assert a == [a[0]] + a[1..] && b == [b[0]] + b[1..];
    }
  }

  /** Resources are ordered by class, then by identity. */
  predicate Before(a: Resource, b: Resource) {
    Below(a.class_, b.class_) || (a.class_ == b.class_ && Below(a.identity, b.identity))
  }

  lemma BeforeTransitive(a: Resource, b: Resource, c: Resource)
    requires Before(a, b) && Before(b, c)
    ensures Before(a, c)
  {
    if Below(a.class_, b.class_) && Below(b.class_, c.class_) {
      BelowTransitive(a.class_, b.class_, c.class_);
    } else if a.class_ == b.class_ && b.class_ == c.class_ {
      BelowTransitive(a.identity, b.identity, c.identity);
    }
  }

  lemma BeforeTotal(a: Resource, b: Resource)
    ensures a == b || Before(a, b) || Before(b, a)
    ensures !Before(a, a)
  {
    BelowTotal(a.class_, b.class_);
    BelowTotal(a.identity, b.identity);
    BelowIrreflexive(a.class_);
    BelowIrreflexive(a.identity);
  }

  ghost predicate Ascending(s: seq<Resource>) {
    forall i, j :: 0 <= i < j < |s| ==> s[i] == s[j] || Before(s[i], s[j])
  }

  ghost predicate StrictlyAscending(s: seq<Resource>) {
    forall i, j :: 0 <= i < j < |s| ==> Before(s[i], s[j])
  }

  predicate NoDuplicates(s: seq<Resource>) {
    s == [] || (s[0] !in s[1..] && NoDuplicates(s[1..]))
  }

  function Insert(x: Resource, s: seq<Resource>): seq<Resource> {
    if s == [] then [x]
    else if x == s[0] || Before(x, s[0]) then [x] + s
    else [s[0]] + Insert(x, s[1..])
  }

  function Sort(s: seq<Resource>): seq<Resource> {
    if s == [] then [] else Insert(s[0], Sort(s[1..]))
  }

  lemma {:induction false} InsertKeeps(x: Resource, s: seq<Resource>)
    ensures multiset(Insert(x, s)) == multiset(s) + multiset{x}
    ensures forall y :: y in Insert(x, s) <==> y == x || y in s
  {
    if s != [] {
      assert s == [s[0]] + s[1..];
      if !(x == s[0] || Before(x, s[0])) {
        InsertKeeps(x, s[1..]);
      }
    }
  }

  lemma ConsAscends(x: Resource, s: seq<Resource>)
    requires Ascending(s) && forall y :: y in s ==> x == y || Before(x, y)
    ensures Ascending([x] + s)
  {
    var t := [x] + s;
    forall i, j | 0 <= i < j < |t| ensures t[i] == t[j] || Before(t[i], t[j]) {
      assert t[j] == s[j - 1] && s[j - 1] in s;
      assert i > 0 ==> t[i] == s[i - 1];
    }
  }

  /** The first of an ascending list comes before all of it. */
  lemma FirstIsLeast(x: Resource, s: seq<Resource>, y: Resource)
    requires Ascending(s) && y in s && (x == s[0] || Before(x, s[0]))
    ensures x == y || Before(x, y)
  {
    var j :| 0 <= j < |s| && s[j] == y;
    assert j == 0 || s[0] == s[j] || Before(s[0], s[j]);
    if x != s[0] && s[0] != y { BeforeTransitive(x, s[0], y); }
  }

  lemma {:induction false} InsertAscends(x: Resource, s: seq<Resource>)
    requires Ascending(s)
    ensures Ascending(Insert(x, s))
  {
    if s != [] {
      BeforeTotal(x, s[0]);
      if x == s[0] || Before(x, s[0]) {
        forall y | y in s ensures x == y || Before(x, y) { FirstIsLeast(x, s, y); }
        ConsAscends(x, s);
      } else {
        InsertAscends(x, s[1..]);
        InsertKeeps(x, s[1..]);
        forall y | y in Insert(x, s[1..]) ensures s[0] == y || Before(s[0], y) {
          if y != x { FirstIsLeast(s[0], s, y); }
        }
        ConsAscends(s[0], Insert(x, s[1..]));
      }
    }
  }

  lemma {:induction false} SortSorts(s: seq<Resource>)
    ensures multiset(Sort(s)) == multiset(s) && Ascending(Sort(s))
  {
    if s == [] {
    } else {
      assert s == [s[0]] + s[1..];
      SortSorts(s[1..]);
      InsertKeeps(s[0], Sort(s[1..]));
      InsertAscends(s[0], Sort(s[1..]));
    }
  }

  lemma {:induction false} InsertDuplicates(x: Resource, s: seq<Resource>)
    ensures NoDuplicates(Insert(x, s)) <==> x !in s && NoDuplicates(s)
  {
    InsertKeeps(x, s);
    if s == [] {
    } else {
      assert s == [s[0]] + s[1..];
      if x == s[0] || Before(x, s[0]) {
        assert ([x] + s)[1..] == s;
      } else {
        InsertDuplicates(x, s[1..]);
        InsertKeeps(x, s[1..]);
        assert ([s[0]] + Insert(x, s[1..]))[1..] == Insert(x, s[1..]);
      }
    }
  }

  lemma {:induction false} SortDuplicates(s: seq<Resource>)
    ensures forall y :: y in Sort(s) <==> y in s
    ensures NoDuplicates(Sort(s)) <==> NoDuplicates(s)
  {
    if s == [] {
    } else {
      assert s == [s[0]] + s[1..];
      SortDuplicates(s[1..]);
      InsertKeeps(s[0], Sort(s[1..]));
      InsertDuplicates(s[0], Sort(s[1..]));
    }
  }

  /** The test the library makes: no two neighbours of the sorted list are equal. */
  predicate DistinctNeighbours(s: seq<Resource>) {
    forall i :: 0 <= i < |s| - 1 ==> s[i] != s[i + 1]
  }

  lemma {:induction false} NeighboursDecide(s: seq<Resource>)
    requires Ascending(s)
    ensures DistinctNeighbours(s) <==> NoDuplicates(s)
    ensures NoDuplicates(s) ==> StrictlyAscending(s)
  {
    if |s| > 1 {
      var t := s[1..];
      assert s == [s[0]] + t;
      NeighboursDecide(t);
      if DistinctNeighbours(s) {
        assert s[0] != s[1];
        assert DistinctNeighbours(t) by {
          forall i | 0 <= i < |t| - 1 ensures t[i] != t[i + 1] { assert s[i + 1] != s[i + 2]; }
        }
        forall j | 0 <= j < |t| ensures Before(s[0], t[j]) && s[0] != t[j] {
          assert s[0] == s[1] || Before(s[0], s[1]);
          assert j == 0 || s[1] == s[j + 1] || Before(s[1], s[j + 1]);
          if j > 0 && s[1] != s[j + 1] { BeforeTransitive(s[0], s[1], s[j + 1]); }
          BeforeTotal(s[0], t[j]);
        }
      }
    }
  }

  /** Refusing equal neighbours after sorting refuses exactly the footprints
      that name some resource twice; what is accepted is strictly ascending and
      names the same resources. */
  lemma FootprintOrder(s: seq<Resource>)
    ensures DistinctNeighbours(Sort(s)) <==> NoDuplicates(s)
    ensures NoDuplicates(s) ==> StrictlyAscending(Sort(s))
    ensures multiset(Sort(s)) == multiset(s)
  {
    SortSorts(s);
    SortDuplicates(s);
    NeighboursDecide(Sort(s));
  }
}
