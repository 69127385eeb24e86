/** What a task declares it will touch, and when two declarations clash. */
module ResourceClaims {
  datatype Access = Read | Write

  /** A repository path cut into its segments; a trailing slash makes it a directory. */
  datatype Scope = Scope(segments: seq<string>, directory: bool)

  datatype Claim =
    | Named(name: string, access: Access)
    | Files(scope: Scope, access: Access)

  predicate Glob(segment: string) { '*' in segment || '?' in segment || '[' in segment }

  predicate DoubleStar(segment: string) {
    exists i :: 0 <= i < |segment| - 1 && segment[i] == '*' && segment[i + 1] == '*'
  }

  lemma DoubleStarIsGlob(segment: string)
    requires DoubleStar(segment)
    ensures Glob(segment)
  {
  }

  predicate Exact(scope: Scope) {
    !scope.directory && forall s <- scope.segments :: !Glob(s)
  }

  /** The files a scope can stand for, reading its wildcards as widely as
      possible: a wildcard segment stands for any name, `**` for any rest of a path. */
  predicate MayCover(scope: Scope, file: seq<string>)
    decreases |scope.segments|
  {
    if scope.segments == [] then file == [] || scope.directory
    else
      && file != []
      && var s := scope.segments[0];
         DoubleStar(s) || ((Glob(s) || s == file[0]) && MayCover(scope.(segments := scope.segments[1..]), file[1..]))
  }

  /** From segment `i` on, some file may be covered by both. */
  predicate Meet(left: Scope, right: Scope, i: nat)
    requires i <= |left.segments| && i <= |right.segments|
    decreases |left.segments| - i
  {
    if i == |left.segments| || i == |right.segments| then
      if |left.segments| == |right.segments| then true
      else if |left.segments| < |right.segments| then left.directory
      else right.directory
    else
      var l, r := left.segments[i], right.segments[i];
      DoubleStar(l) || DoubleStar(r) || ((l == r || Glob(l) || Glob(r)) && Meet(left, right, i + 1))
  }

  function From(scope: Scope, i: nat): Scope
    requires i <= |scope.segments|
  {
    scope.(segments := scope.segments[i..])
  }

  /** Some file that the scope covers; wildcards are read as themselves. */
  lemma {:induction false} CoversItself(scope: Scope)
    ensures MayCover(scope, scope.segments)
    decreases |scope.segments|
  {
    if scope.segments != [] {
      CoversItself(scope.(segments := scope.segments[1..]));
    }
  }

  lemma {:induction false} MeetWitness(left: Scope, right: Scope, i: nat) returns (file: seq<string>)
    requires i <= |left.segments| && i <= |right.segments| && Meet(left, right, i)
    ensures MayCover(From(left, i), file) && MayCover(From(right, i), file)
    decreases |left.segments| - i
  {
    var l, r := From(left, i), From(right, i);
    if i == |left.segments| {
      file := r.segments;
      CoversItself(r);
    } else if i == |right.segments| {
      file := l.segments;
      CoversItself(l);
    } else if DoubleStar(left.segments[i]) {
      file := r.segments;
      CoversItself(r);
    } else if DoubleStar(right.segments[i]) {
      file := l.segments;
      CoversItself(l);
    } else {
      var rest := MeetWitness(left, right, i + 1);
      file := [if Glob(left.segments[i]) then right.segments[i] else left.segments[i]] + rest;
      assert file[1..] == rest;
      assert l.(segments := l.segments[1..]) == From(left, i + 1) && r.(segments := r.segments[1..]) == From(right, i + 1);
    }
  }

  lemma {:induction false} CoveredMeets(left: Scope, right: Scope, i: nat, file: seq<string>)
    requires i <= |left.segments| && i <= |right.segments|
    requires MayCover(From(left, i), file) && MayCover(From(right, i), file)
    ensures Meet(left, right, i)
    decreases |left.segments| - i
  {
    var l, r := From(left, i), From(right, i);
    if i < |left.segments| && i < |right.segments| && !DoubleStar(left.segments[i]) && !DoubleStar(right.segments[i]) {
      assert l.(segments := l.segments[1..]) == From(left, i + 1) && r.(segments := r.segments[1..]) == From(right, i + 1);
      CoveredMeets(left, right, i + 1, file[1..]);
    }
  }

  predicate Overlap(left: Scope, right: Scope) {
    left.segments == [] || right.segments == [] || Meet(left, right, 0)
  }

  predicate BothMayCover(left: Scope, right: Scope, file: seq<string>) {
    MayCover(left, file) && MayCover(right, file)
  }

  /** Two scopes clash exactly when some file may be covered by both. */
  lemma OverlapIsExact(left: Scope, right: Scope)
    requires left.segments != [] && right.segments != []
    ensures Overlap(left, right) <==> exists file :: BothMayCover(left, right, file)
  {
    assert From(left, 0) == left && From(right, 0) == right;
    if Overlap(left, right) {
      var file := MeetWitness(left, right, 0);
      assert BothMayCover(left, right, file);
    }
    forall file | BothMayCover(left, right, file) ensures Meet(left, right, 0) {
      CoveredMeets(left, right, 0, file);
    }
  }

  method PathsCouldOverlap(left: Scope, right: Scope) returns (overlap: bool)
    ensures overlap == Overlap(left, right)
  {
    if left.segments == [] || right.segments == [] {
      return true;
    }
    var shared := if |left.segments| < |right.segments| then |left.segments| else |right.segments|;
    for i := 0 to shared
      invariant Meet(left, right, 0) == Meet(left, right, i)
    {
      var l, r := left.segments[i], right.segments[i];
      if DoubleStar(l) || DoubleStar(r) {
        return true;
      }
      if l != r && !Glob(l) && !Glob(r) {
        return false;
      }
    }
    if |left.segments| == |right.segments| {
      return true;
    }
    overlap := if |left.segments| < |right.segments| then left.directory else right.directory;
  }

  predicate Conflict(left: Claim, right: Claim) {
    match (left, right)
    case (Named(a, x), Named(b, y)) => a == b && (x == Write || y == Write)
    case (Files(a, x), Files(b, y)) =>
      if Exact(a) && Exact(b) then a == b && (x == Write || y == Write) else Overlap(a, b)
    case _ => false
  }

  lemma {:induction false} MeetSymmetric(left: Scope, right: Scope, i: nat)
    requires i <= |left.segments| && i <= |right.segments|
    ensures Meet(left, right, i) == Meet(right, left, i)
    decreases |left.segments| - i
  {
    if i < |left.segments| && i < |right.segments| {
      MeetSymmetric(left, right, i + 1);
    }
  }

  lemma ConflictSymmetric(left: Claim, right: Claim)
    ensures Conflict(left, right) == Conflict(right, left)
  {
    if left.Files? && right.Files? {
      MeetSymmetric(left.scope, right.scope, 0);
    }
  }

  lemma {:induction false} ExactCovers(scope: Scope, file: seq<string>)
    requires Exact(scope) && MayCover(scope, file)
    ensures file == scope.segments
    decreases |scope.segments|
  {
    if scope.segments != [] {
      var rest := scope.(segments := scope.segments[1..]);
      if DoubleStar(scope.segments[0]) {
        DoubleStarIsGlob(scope.segments[0]);
      }
      ExactCovers(rest, file[1..]);
      assert file == [file[0]] + file[1..];
    }
  }

  /** No clash means no harm: a file both claims may cover is only read by both. */
  lemma ConflictSound(left: Claim, right: Claim, file: seq<string>)
    requires left.Files? && right.Files? && MayCover(left.scope, file) && MayCover(right.scope, file)
    requires !Conflict(left, right)
    ensures left.access == Read && right.access == Read
  {
    assert From(left.scope, 0) == left.scope && From(right.scope, 0) == right.scope;
    CoveredMeets(left.scope, right.scope, 0, file);
    ExactCovers(left.scope, file);
    ExactCovers(right.scope, file);
  }

  /** Named claims clash exactly when they name one resource and one of them
      writes it, and a named resource never clashes with files. */
  lemma NamedConflictIff(name: string, other: string, x: Access, y: Access)
    ensures Conflict(Named(name, x), Named(other, y)) <==> name == other && !(x == Read && y == Read)
    ensures forall scope :: !Conflict(Named(name, x), Files(scope, y)) && !Conflict(Files(scope, y), Named(name, x))
  {
  }

  /** Files clash exactly when some file may be covered by both, except that two
      exact paths to one file may both read it. */
  lemma FilesConflictIff(a: Scope, b: Scope, x: Access, y: Access)
    requires a.segments != [] && b.segments != []
    ensures Conflict(Files(a, x), Files(b, y)) <==>
              && (exists file :: BothMayCover(a, b, file))
              && !(x == Read && y == Read && Exact(a) && Exact(b))
  {
    OverlapIsExact(a, b);
    if Exact(a) && Exact(b) {
      if file :| BothMayCover(a, b, file) {
        ExactCovers(a, file);
        ExactCovers(b, file);
      }
      if a == b {
        CoversItself(a);
        assert BothMayCover(a, b, a.segments);
      }
    }
  }
}
