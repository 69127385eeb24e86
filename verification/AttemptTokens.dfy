/** Which attempts get their display tokens refreshed: a window of sixteen that
    moves round the sorted inventory. */
module AttemptTokens {
  import opened Results

  /** An attempt's operation name, by its rank in name order. */
  type Name = nat

  const WINDOW: nat := 16

  predicate Ascending(s: seq<Name>) { forall i, j :: 0 <= i < j < |s| ==> s[i] < s[j] }

  predicate Distinct(s: seq<Name>) { forall i, j :: 0 <= i < j < |s| ==> s[i] != s[j] }

  function Insert(s: seq<Name>, x: Name): seq<Name> {
    if s == [] || x <= s[0] then [x] + s else [s[0]] + Insert(s[1..], x)
  }

  function Sort(s: seq<Name>): seq<Name> {
    if s == [] then [] else Insert(Sort(s[1..]), s[0])
  }

  lemma ConsAscends(x: Name, s: seq<Name>)
    requires Ascending(s) && forall y :: y in s ==> x < y
    ensures Ascending([x] + s)
  {
    var t := [x] + s;
    forall i, j | 0 <= i < j < |t| ensures t[i] < t[j] {
      assert t[j] == s[j - 1] && s[j - 1] in s;
      assert i > 0 ==> t[i] == s[i - 1];
    }
  }

  lemma {:induction false} InsertSorts(s: seq<Name>, x: Name)
    requires Ascending(s) && x !in s
    ensures Ascending(Insert(s, x)) && |Insert(s, x)| == |s| + 1
    ensures forall y :: y in Insert(s, x) <==> y == x || y in s
    decreases |s|
  {
    if s != [] && s[0] < x {
      assert s == [s[0]] + s[1..];
      InsertSorts(s[1..], x);
      ConsAscends(s[0], Insert(s[1..], x));
    } else {
      assert s != [] ==> x < s[0];
      ConsAscends(x, s);
    }
  }

  lemma {:induction false} SortSorts(s: seq<Name>)
    requires Distinct(s)
    ensures Ascending(Sort(s)) && |Sort(s)| == |s|
    ensures forall y :: y in Sort(s) <==> y in s
    decreases |s|
  {
    if s != [] {
      assert s == [s[0]] + s[1..];
      SortSorts(s[1..]);
      InsertSorts(Sort(s[1..]), s[0]);
    }
  }

  /** Position `start + i` on a ring of `n`. */
  function Wrap(position: nat, n: nat): nat
    requires n <= position < 2 * n || position < n
  {
    if position < n then position else position - n
  }

  function Size(ring: seq<Name>): nat { if |ring| < WINDOW then |ring| else WINDOW }

  /** The window that begins at `start`. */
  function Window(ring: seq<Name>, start: nat): seq<Name>
    requires start < |ring| || start == 0
  {
    seq(Size(ring), i requires 0 <= i < Size(ring) => ring[Wrap(start + i, |ring|)])
  }

  /** How many names do not come after the cursor. */
  predicate Partitioned(ring: seq<Name>, last: Name, offset: nat) {
    && offset <= |ring|
    && (forall i :: 0 <= i < offset ==> ring[i] <= last)
    && (forall i :: offset <= i < |ring| ==> last < ring[i])
  }

  ghost predicate StartsAt(ring: seq<Name>, cursor: Option<Name>, start: nat) {
    if cursor.None? || ring == [] then start == 0
    else exists offset: nat :: Partitioned(ring, cursor.value, offset) && start == if offset == |ring| then 0 else offset
  }

  method PartitionPoint(ring: seq<Name>, last: Name) returns (offset: nat)
    requires Ascending(ring)
    ensures Partitioned(ring, last, offset)
  {
    var low, high := 0, |ring|;
    while low < high
      invariant 0 <= low <= high <= |ring|
      invariant forall i :: 0 <= i < low ==> ring[i] <= last
      invariant forall i :: high <= i < |ring| ==> last < ring[i]
    {
      var middle := low + (high - low) / 2;
      if ring[middle] <= last {
        low := middle + 1;
      } else {
        high := middle;
      }
    }
    offset := low;
  }

  /** The names from the cursor on, up to and including the new one, going round. */
  predicate Between(old_: Option<Name>, x: Name, new_: Name) {
    if old_.None? then x <= new_
    else if old_.value < new_ then old_.value < x <= new_
    else old_.value < x || x <= new_
  }

  class Hints {
    /** The last name offered, unless it has expired. */
    var cursor: Option<Name>

    /** Offers the attempts whose turn it is, and moves the cursor to the last of
        them. When not all fit, the offer is exactly what lies between the old
        and the new cursor, so nothing present is skipped. */
    method Requests(inventory: seq<Name>, expired: bool) returns (offered: seq<Name>, ghost start: nat)
      requires Distinct(inventory)
      modifies this
      ensures IsTurn(inventory, if expired then None else old(cursor), start, offered)
      ensures cursor == if offered != [] then Some(offered[|offered| - 1]) else if expired then None else old(cursor)
      ensures |inventory| <= WINDOW ==> forall x :: x in inventory <==> x in offered
      ensures |inventory| > WINDOW ==> |offered| == WINDOW && forall x :: x in offered <==> x in inventory && Between(if expired then None else old(cursor), x, offered[WINDOW - 1])
    {
      if expired {
        cursor := None;
      }
      offered, start := Turn(inventory, cursor);
      TurnIsInterval(inventory, cursor, start, offered);
      if offered != [] {
        cursor := Some(offered[|offered| - 1]);
      }
    }
  }

  ghost predicate IsTurn(inventory: seq<Name>, cursor: Option<Name>, start: nat, offered: seq<Name>) {
    var ring := Sort(inventory);
    StartsAt(ring, cursor, start) && (start < |ring| || start == 0) && offered == Window(ring, start)
  }

  /** Sorts the inventory, rotates it to just after the cursor and cuts it off. */
  method Turn(inventory: seq<Name>, cursor: Option<Name>) returns (offered: seq<Name>, ghost start: nat)
    requires Distinct(inventory)
    ensures IsTurn(inventory, cursor, start, offered)
  {
    var ring := Sort(inventory);
    SortSorts(inventory);
    var turn := 0;
    if cursor.Some? && |ring| > 0 {
      turn := Offset(ring, cursor.value);
    }
    start := turn;
    TurnedIsWindow(ring, turn);
    offered := (ring[turn..] + ring[..turn])[..Size(ring)];
  }

  method Offset(ring: seq<Name>, last: Name) returns (turn: nat)
    requires Ascending(ring) && |ring| > 0
    ensures StartsAt(ring, Some(last), turn) && turn < |ring|
  {
    var offset := PartitionPoint(ring, last);
    turn := offset % |ring|;
    Remainder(offset, |ring|);
  }

  lemma Remainder(offset: nat, n: nat)
    requires offset <= n && n > 0
    ensures offset % n == if offset == n then 0 else offset
  {
  }

  lemma TurnIsInterval(inventory: seq<Name>, cursor: Option<Name>, start: nat, offered: seq<Name>)
    requires Distinct(inventory) && IsTurn(inventory, cursor, start, offered)
    ensures |inventory| <= WINDOW ==> forall x :: x in inventory <==> x in offered
    ensures |inventory| > WINDOW ==> |offered| == WINDOW && forall x :: x in offered <==> x in inventory && Between(cursor, x, offered[WINDOW - 1])
  {
    var ring := Sort(inventory);
    SortSorts(inventory);
    forall x | x in offered ensures x in ring {
      var i :| 0 <= i < |offered| && offered[i] == x;
      assert offered[i] == ring[Wrap(start + i, |ring|)];
    }
    if |ring| > WINDOW {
      WindowIsInterval(ring, cursor, start);
    } else {
      TurnedIsWindow(ring, start);
      assert (ring[start..] + ring[..start])[..|ring|] == ring[start..] + ring[..start];
      assert ring == ring[..start] + ring[start..];
    }
  }

  lemma TurnedIsWindow(ring: seq<Name>, start: nat)
    requires start < |ring| || start == 0
    ensures (ring[start..] + ring[..start])[..Size(ring)] == Window(ring, start)
  {
    var turned, w := ring[start..] + ring[..start], Window(ring, start);
    forall i | 0 <= i < Size(ring) ensures turned[i] == w[i] {
      assert w[i] == ring[Wrap(start + i, |ring|)];
    }
  }

  lemma WindowIsInterval(ring: seq<Name>, cursor: Option<Name>, start: nat)
    requires Ascending(ring) && |ring| > WINDOW && StartsAt(ring, cursor, start) && start < |ring|
    ensures forall x :: x in ring ==> (x in Window(ring, start) <==> Between(cursor, x, Window(ring, start)[WINDOW - 1]))
  {
    var n, w := |ring|, Window(ring, start);
    var end := Wrap(start + WINDOW - 1, n);
    forall x | x in ring ensures x in w <==> Between(cursor, x, w[WINDOW - 1]) {
      var j :| 0 <= j < n && ring[j] == x;
      assert x <= ring[end] <==> j <= end;
      InWindow(ring, start, j);
      if cursor.Some? {
        var offset: nat :| Partitioned(ring, cursor.value, offset) && start == if offset == n then 0 else offset;
        assert cursor.value < x <==> offset <= j;
        assert cursor.value < ring[end] <==> offset <= end;
      }
    }
  }

  /** A position is in the window exactly when it is less than its size ahead of the start. */
  lemma InWindow(ring: seq<Name>, start: nat, j: nat)
    requires Ascending(ring) && |ring| > WINDOW && start < |ring| && j < |ring|
    ensures ring[j] in Window(ring, start) <==> (if start <= j then j - start else j + |ring| - start) < WINDOW
  {
    var n, w := |ring|, Window(ring, start);
    var i := if start <= j then j - start else j + n - start;
    if i < WINDOW {
      assert Wrap(start + i, n) == j;
      assert w[i] == ring[Wrap(start + i, n)];
    }
    if ring[j] in w {
      var p :| 0 <= p < WINDOW && w[p] == ring[j];
      var q := Wrap(start + p, n);
      assert ring[q] == ring[j];
      assert !(q < j) && !(j < q);
    }
  }

  // ---------------------------------------------------------------- fairness

  /** Where the window begins once the previous one's last name is the cursor. */
  function NextStart(ring: seq<Name>, start: nat): nat
    requires start < |ring|
  {
    if |ring| <= WINDOW then start else Wrap(start + WINDOW, |ring|)
  }

  lemma CursorLeadsOn(ring: seq<Name>, start: nat, next: nat)
    requires Ascending(ring) && start < |ring|
    requires StartsAt(ring, Some(Window(ring, start)[Size(ring) - 1]), next)
    ensures next == NextStart(ring, start)
  {
    var n := |ring|;
    var end := Wrap(start + Size(ring) - 1, n);
    assert Window(ring, start)[Size(ring) - 1] == ring[end];
    var offset: nat :| Partitioned(ring, ring[end], offset) && next == if offset == n then 0 else offset;
    assert end < offset;
    assert end + 1 < n ==> ring[end] < ring[end + 1];
  }

  /** A run of calls over one inventory, each beginning where the cursor says. */
  ghost predicate Calls(ring: seq<Name>, cursor: Option<Name>, starts: seq<nat>) {
    && (forall k :: 0 <= k < |starts| ==> starts[k] < |ring|)
    && (|starts| > 0 ==> StartsAt(ring, cursor, starts[0]))
    && (forall k :: 0 <= k < |starts| - 1 ==> StartsAt(ring, Some(Window(ring, starts[k])[Size(ring) - 1]), starts[k + 1]))
  }

  /** The first `k` calls offer the first `16 k` positions from the first start on. */
  lemma {:induction false} CallsCover(ring: seq<Name>, cursor: Option<Name>, starts: seq<nat>, i: nat) returns (k: nat)
    requires Ascending(ring) && starts != [] && Calls(ring, cursor, starts) && i < |ring| && i < WINDOW * |starts|
    ensures k < |starts| && ring[Wrap(starts[0] + i, |ring|)] in Window(ring, starts[k])
    decreases |starts|
  {
    var n := |ring|;
    if i < Size(ring) {
      k := 0;
      assert Window(ring, starts[0])[i] == ring[Wrap(starts[0] + i, n)];
    } else {
      CursorLeadsOn(ring, starts[0], starts[1]);
      var last := Window(ring, starts[0])[Size(ring) - 1];
      assert Calls(ring, Some(last), starts[1..]);
      k := CallsCover(ring, Some(last), starts[1..], i - WINDOW);
      k := k + 1;
    }
  }

  /** Over a stable inventory, as many calls as sixteens in it offer every attempt. */
  lemma RotationIsFair(inventory: seq<Name>, cursor: Option<Name>, starts: seq<nat>, x: Name) returns (k: nat)
    requires Distinct(inventory) && x in inventory && Calls(Sort(inventory), cursor, starts)
    requires |inventory| <= WINDOW * |starts|
    ensures k < |starts| && starts[k] < |Sort(inventory)| && x in Window(Sort(inventory), starts[k])
  {
    var ring := Sort(inventory);
    SortSorts(inventory);
    var j: nat :| j < |ring| && ring[j] == x;
    var i := if starts[0] <= j then j - starts[0] else j + |ring| - starts[0];
    k := CallsCover(ring, cursor, starts, i);
  }
}
