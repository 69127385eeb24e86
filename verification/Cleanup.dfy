/** Removing a worktree behind a durable reservation, and restoring it, with a
    crash possible after every durable effect. */
module Cleanup {
  import opened Results

  datatype Removal = Removal(path: string, branch: string, head: string, snapshot: string, removed: bool)

  /** The thread record, the branch it retains, and what Git and the disk say
      about the worktree. Git shows a registered worktree at its branch's head;
      `whole` says that the directory has everything that head has, `linked` that
      it still has its `.git` file, without which Git lists it as prunable. */
  datatype State = State(
    path: string, branch: string, snapshot: string, removal: Option<Removal>,
    head: string, snapshotIntact: bool, exists_: bool, whole: bool, linked: bool, registered: bool, locked: bool)

  /** `git worktree remove` deletes the directory, file by file and at some point
      its `.git` file, and then its registration. */
  const REMOVE_RESERVED: nat := 1
  const REMOVE_STARTED: nat := 2
  const REMOVE_UNLINKED: nat := 3
  const REMOVE_DELETED: nat := 4
  const REMOVE_UNREGISTERED: nat := 5
  const REMOVE_DONE: nat := 6

  /** `git worktree add` registers the worktree locked, makes the directory with
      its `.git` file, fills it, file by file, and unlocks. */
  const RESTORE_REGISTERED: nat := 1
  const RESTORE_STARTED: nat := 2
  const RESTORE_FILLED: nat := 3
  const RESTORE_UNLOCKED: nat := 4
  const RESTORE_DONE: nat := 5

  /** A registration that is locked or prunable is refused. */
  predicate Registered(s: State) { s.registered && !s.locked && s.linked }

  /** What is checked before the reservation; `quiet` stands for stopped writers,
      no process reference, an unchanged source and no other owner. */
  predicate MayRemove(s: State, quiet: bool) {
    quiet && s.exists_ && s.branch != "" && Registered(s) && s.snapshotIntact
  }

  function NewRemoval(s: State): Removal { Removal(s.path, s.branch, s.head, s.snapshot, false) }

  /** Removal that dies after `cut` effects. `allowed` says whether the second
      checks and Git itself let the worktree go. */
  function RemoveTo(s: State, quiet: bool, allowed: bool, cut: nat): State {
    if !MayRemove(s, quiet) || cut < REMOVE_RESERVED then s
    else
      var r := s.(removal := Some(NewRemoval(s)));
      if !allowed || cut < REMOVE_STARTED then r
      else if cut < REMOVE_UNLINKED then r.(whole := false)
      else if cut < REMOVE_DELETED then r.(whole := false, linked := false)
      else
        var gone := r.(exists_ := false, whole := false, linked := false);
        if cut < REMOVE_UNREGISTERED then gone
        else if cut < REMOVE_DONE then gone.(registered := false)
        else gone.(registered := false, removal := Some(NewRemoval(s).(removed := true)))
  }

  /** What restoring checks before it changes anything; it does not look inside
      a directory that is there. */
  predicate MayRestore(s: State) {
    && s.removal.Some? && s.branch == s.removal.value.branch && s.head == s.removal.value.head && s.snapshotIntact
    && (if s.exists_ then Registered(s) else !s.registered)
  }

  function Restored(s: State): State
    requires s.removal.Some?
  {
    s.(exists_ := true, whole := s.exists_ ==> s.whole, linked := true, registered := true, locked := false, path := s.removal.value.path, removal := None)
  }

  /** Restoring that dies after `cut` effects. */
  function RestoreTo(s: State, cut: nat): State {
    if !MayRestore(s) then s
    else if s.exists_ then if cut < 1 then s else Restored(s)
    else if cut < RESTORE_REGISTERED then s
    else
      var r := s.(registered := true, locked := true);
      if cut < RESTORE_STARTED then r
      else if cut < RESTORE_FILLED then r.(exists_ := true, whole := false, linked := true)
      else if cut < RESTORE_UNLOCKED then r.(exists_ := true, whole := true, linked := true)
      else if cut < RESTORE_DONE then r.(exists_ := true, whole := true, linked := true, locked := false)
      else Restored(s)
  }

  class Worktree {
    var path: string
    var removal: Option<Removal>
    var exists_: bool
    var whole: bool
    var linked: bool
    var registered: bool
    var locked: bool
    const branch: string
    const snapshot: string
    var head: string
    var snapshotIntact: bool

    function Now(): State
      reads this
    {
      State(path, branch, snapshot, removal, head, snapshotIntact, exists_, whole, linked, registered, locked)
    }

    /** The reservation is durable before Git is asked to remove anything. */
    method Remove(quiet: bool, allowed: bool, cut: nat) returns (done: bool)
      requires Recorded(Now())
      modifies this
      ensures Now() == RemoveTo(old(Now()), quiet, allowed, cut) && Recorded(Now())
      ensures done <==> MayRemove(old(Now()), quiet) && allowed && cut >= REMOVE_DONE
    {
      if !quiet || !exists_ || branch == "" || !registered || locked || !linked || !snapshotIntact || cut < REMOVE_RESERVED {
        return false;
      }
      var reserved := Removal(path, branch, head, snapshot, false);
      removal := Some(reserved);
      if !allowed || cut < REMOVE_STARTED {
        return false;
      }
      whole := false;
      if cut < REMOVE_UNLINKED {
        return false;
      }
      linked := false;
      if cut < REMOVE_DELETED {
        return false;
      }
      exists_ := false;
      if cut < REMOVE_UNREGISTERED {
        return false;
      }
      registered := false;
      if cut < REMOVE_DONE {
        return false;
      }
      removal := Some(reserved.(removed := true));
      return true;
    }

    method Restore(cut: nat) returns (done: bool)
      requires Recorded(Now())
      modifies this
      ensures Now() == RestoreTo(old(Now()), cut) && Recorded(Now())
      ensures done <==> MayRestore(old(Now())) && cut >= if old(exists_) then 1 else RESTORE_DONE
    {
      if removal.None? || branch != removal.value.branch || head != removal.value.head || !snapshotIntact {
        return false;
      }
      if exists_ {
        if !registered || locked || !linked || cut < 1 {
          return false;
        }
      } else {
        if registered || cut < RESTORE_REGISTERED {
          return false;
        }
        registered, locked := true, true;
        if cut < RESTORE_STARTED {
          return false;
        }
        exists_, whole, linked := true, false, true;
        if cut < RESTORE_FILLED {
          return false;
        }
        whole := true;
        if cut < RESTORE_UNLOCKED {
          return false;
        }
        locked := false;
        if cut < RESTORE_DONE {
          return false;
        }
      }
      path := removal.value.path;
      locked := false;
      removal := None;
      return true;
    }
  }

  // ---------------------------------------------------------------- every run

  datatype Call =
    | Remove(quiet: bool, allowed: bool, removeCut: nat)
    | Restore(restoreCut: nat)
    | BranchMoves(newHead: string)
    | SnapshotDamaged

  function After(s: State, call: Call): State {
    match call
    case Remove(quiet, allowed, cut) => RemoveTo(s, quiet, allowed, cut)
    case Restore(cut) => RestoreTo(s, cut)
    case BranchMoves(head) => s.(head := head)
    case SnapshotDamaged => s.(snapshotIntact := false)
  }

  function Run(s: State, calls: seq<Call>): State
    decreases |calls|
  {
    if calls == [] then s else Run(After(s, calls[0]), calls[1..])
  }

  /** An absent worktree has a durable removal record naming its path. */
  predicate Recorded(s: State) {
    !s.exists_ ==> s.removal.Some? && s.removal.value.path == s.path && s.removal.value.branch == s.branch
  }

  /** Disk and registration agree. */
  predicate Agree(s: State) { s.exists_ == s.registered && !s.locked && (s.exists_ ==> s.linked) }

  /** And what is there is all there, as it is unless Git itself was cut short. */
  predicate Consistent(s: State) { Agree(s) && (s.exists_ ==> s.whole) }

  /** The process died, if at all, before or after a Git command, not inside one. */
  predicate GitWhole(call: Call) {
    match call
    case Remove(_, _, cut) => cut != REMOVE_STARTED && cut != REMOVE_UNLINKED && cut != REMOVE_DELETED
    case Restore(cut) => cut != RESTORE_REGISTERED && cut != RESTORE_STARTED && cut != RESTORE_FILLED
    case _ => true
  }

  /** Whatever is called, and wherever it dies, an absent worktree is recorded. */
  lemma {:induction false} AbsentIsRecorded(s: State, calls: seq<Call>)
    requires Recorded(s)
    ensures Recorded(Run(s, calls))
    decreases |calls|
  {
    if calls != [] {
      AbsentIsRecorded(After(s, calls[0]), calls[1..]);
    }
  }

  lemma {:induction false} WholeGitIsConsistent(s: State, calls: seq<Call>)
    requires Consistent(s) && forall i :: 0 <= i < |calls| ==> GitWhole(calls[i])
    ensures Consistent(Run(s, calls))
    decreases |calls|
  {
    if calls != [] {
      assert GitWhole(calls[0]);
      WholeGitIsConsistent(After(s, calls[0]), calls[1..]);
    }
  }

  /** After any run in which Git was not cut short, a worktree that is gone comes
      back by one restore, provided its branch did not move and its snapshot is intact. */
  lemma GoneComesBack(s: State, calls: seq<Call>)
    requires Recorded(s) && Consistent(s) && forall i :: 0 <= i < |calls| ==> GitWhole(calls[i])
    requires var t := Run(s, calls); !t.exists_ && t.snapshotIntact && (t.removal.Some? ==> t.removal.value.head == t.head)
    ensures var t := Run(s, calls); t.removal.Some? && RestoreTo(t, RESTORE_DONE) == Restored(t) && Restored(t).whole
  {
    AbsentIsRecorded(s, calls);
    WholeGitIsConsistent(s, calls);
  }

  /** Interrupted restores, one after the other. */
  function RestoreRepeatedly(s: State, cuts: seq<nat>): State
    decreases |cuts|
  {
    if cuts == [] then s else RestoreRepeatedly(RestoreTo(s, cuts[0]), cuts[1..])
  }

  /** However often restoring dies outside Git, one more complete restore ends in
      the one restored state: present and whole, registered at the recorded head,
      record cleared. */
  lemma {:induction false} RestoreConverges(s: State, cuts: seq<nat>)
    requires MayRestore(s) && Consistent(s) && forall i :: 0 <= i < |cuts| ==> GitWhole(Restore(cuts[i]))
    ensures RestoreTo(RestoreRepeatedly(s, cuts), RESTORE_DONE) == Restored(s) && Restored(s).whole
    decreases |cuts|
  {
    if cuts != [] {
      assert GitWhole(Restore(cuts[0]));
      var t := RestoreTo(s, cuts[0]);
      if t.removal.Some? {
        assert MayRestore(t) && Consistent(t) && Restored(t) == Restored(s);
        RestoreConverges(t, cuts[1..]);
      } else {
        StaysRestored(t, cuts[1..]);
      }
    }
  }

  lemma {:induction false} StaysRestored(s: State, cuts: seq<nat>)
    requires s.removal.None?
    ensures RestoreRepeatedly(s, cuts) == s
    decreases |cuts|
  {
    if cuts != [] {
      StaysRestored(s, cuts[1..]);
    }
  }

  /** Restoring a recorded worktree works exactly when disk and Git agree, the
      branch has not moved and the snapshot is intact; otherwise nothing changes. */
  lemma RestoreWorksIff(s: State)
    requires s.removal.Some? && s.removal.value.branch == s.branch && (s.locked ==> s.registered)
    ensures RestoreTo(s, RESTORE_DONE).removal.None? <==> Agree(s) && s.head == s.removal.value.head && s.snapshotIntact
    ensures RestoreTo(s, RESTORE_DONE).removal.Some? ==> RestoreTo(s, RESTORE_DONE) == s
  {
  }

  /** A directory that a restore would take for the worktree has everything. */
  predicate LooksRight(s: State) { s.exists_ && Registered(s) ==> s.whole }

  /** A removal that dies inside Git's deletion, before the `.git` file is gone. */
  predicate Hollows(s: State, call: Call) {
    call.Remove? && MayRemove(s, call.quiet) && call.allowed && call.removeCut == REMOVE_STARTED
  }

  lemma {:induction false} RunSnoc(s: State, calls: seq<Call>, call: Call)
    ensures Run(s, calls + [call]) == After(Run(s, calls), call)
    decreases |calls|
  {
    if calls == [] {
      assert [call][1..] == [] && calls + [call] == [call];
    } else {
      assert (calls + [call])[1..] == calls[1..] + [call];
      RunSnoc(After(s, calls[0]), calls[1..], call);
    }
  }

  lemma LooksRightStep(s: State, call: Call)
    requires LooksRight(s)
    ensures LooksRight(After(s, call)) <==> !Hollows(s, call)
  {
  }

  lemma {:induction false} LooksRightSoFar(s: State, calls: seq<Call>, n: nat)
    requires LooksRight(s) && n <= |calls| && forall k :: 0 <= k < n ==> !Hollows(Run(s, calls[..k]), calls[k])
    ensures LooksRight(Run(s, calls[..n]))
    decreases n
  {
    if n > 0 {
      LooksRightSoFar(s, calls, n - 1);
      assert calls[..n] == calls[..n - 1] + [calls[n - 1]];
      RunSnoc(s, calls[..n - 1], calls[n - 1]);
      LooksRightStep(Run(s, calls[..n - 1]), calls[n - 1]);
    } else {
      assert calls[..0] == [];
    }
  }

  /** Over every run of calls and crash points, what a restore would accept has
      everything the whole way exactly if no removal died inside Git's deletion
      before the `.git` file was gone. */
  lemma RestoredIsWholeIff(s: State, calls: seq<Call>)
    requires LooksRight(s)
    ensures (forall k :: 0 <= k <= |calls| ==> LooksRight(Run(s, calls[..k]))) <==>
            (forall k :: 0 <= k < |calls| ==> !Hollows(Run(s, calls[..k]), calls[k]))
  {
    if forall k :: 0 <= k < |calls| ==> !Hollows(Run(s, calls[..k]), calls[k]) {
      forall k | 0 <= k <= |calls| ensures LooksRight(Run(s, calls[..k])) {
        LooksRightSoFar(s, calls, k);
      }
    } else {
      var k :| 0 <= k < |calls| && Hollows(Run(s, calls[..k]), calls[k]);
      assert calls[..k + 1] == calls[..k] + [calls[k]];
      RunSnoc(s, calls[..k], calls[k]);
      HollowedLooksWrong(Run(s, calls[..k]), calls[k]);
    }
  }

  lemma HollowedLooksWrong(s: State, call: Call)
    requires Hollows(s, call)
    ensures !LooksRight(After(s, call))
  {
  }

  /** A restore of what looks right ends whole. */
  lemma RestoredIsWhole(s: State)
    requires MayRestore(s) && LooksRight(s)
    ensures RestoreTo(s, RESTORE_DONE).removal.None? && RestoreTo(s, RESTORE_DONE).whole
  {
  }

  /** Git cut short while it deletes: before the `.git` file is gone the next
      restore clears the record over a directory that has lost files; after that
      Git calls the worktree prunable, and no restore does anything. */
  lemma {:induction false} CutInsideDeletion(s: State, cuts: seq<nat>)
    requires Consistent(s) && MayRemove(s, true)
    ensures var t := RestoreTo(RemoveTo(s, true, true, REMOVE_STARTED), RESTORE_DONE);
            t.removal.None? && t.exists_ && Registered(t) && !t.whole
    ensures var t := RemoveTo(s, true, true, REMOVE_UNLINKED); t.exists_ && RestoreRepeatedly(t, cuts) == t
    decreases |cuts|
  {
    if cuts != [] {
      CutInsideDeletion(s, cuts[1..]);
    }
  }

  /** Git cut short between deleting and unregistering leaves a worktree that no
      restore brings back. */
  lemma {:induction false} CutInsideGit(s: State, cuts: seq<nat>)
    requires Recorded(s) && Consistent(s) && MayRemove(s, true)
    ensures var t := RemoveTo(s, true, true, REMOVE_DELETED);
            !t.exists_ && RestoreRepeatedly(t, cuts) == t
    decreases |cuts|
  {
    var t := RemoveTo(s, true, true, REMOVE_DELETED);
    if cuts != [] {
      CutInsideGit(s, cuts[1..]);
    }
  }

  // ---------------------------------------------------------------- what a removal may touch

  /** What a removal asks of a worktree before it reserves it. */
  predicate Removable(s: State) {
    s.exists_ && s.registered && !s.locked && s.linked && s.snapshotIntact && s.branch != ""
  }

  /** Wherever it dies, a removal leaves a busy or untidy worktree alone, and
      touches any other only once a record stands that names its path, branch,
      head and snapshot; record, directory and registration are all it changes.
      The record says removed only of a worktree that is gone, and a removal that
      nothing stops gets there. */
  lemma RemoveTouches(s: State, quiet: bool, allowed: bool, cut: nat)
    ensures var t := RemoveTo(s, quiet, allowed, cut);
            && t == s.(removal := t.removal, exists_ := t.exists_, whole := t.whole, linked := t.linked, registered := t.registered)
            && (t != s ==> quiet && Removable(s) && exists removed :: t.removal == Some(Removal(s.path, s.branch, s.head, s.snapshot, removed)))
            && (t != s.(removal := t.removal) ==> allowed)
            && (t != s && t.removal.value.removed ==> !t.exists_ && !t.registered)
            && (quiet && Removable(s) && allowed && cut >= 6 ==>
                  !t.exists_ && !t.registered && t.removal == Some(Removal(s.path, s.branch, s.head, s.snapshot, true)))
  {
    var t := RemoveTo(s, quiet, allowed, cut);
    if t != s {
      assert t.removal == Some(Removal(s.path, s.branch, s.head, s.snapshot, t.removal.value.removed));
    }
  }

  lemma TakenBy(s: State, call: Call)
    requires s.exists_ && !After(s, call).exists_
    ensures call.Remove? && call.quiet && call.allowed && Removable(s)
    ensures exists removed :: After(s, call).removal == Some(Removal(s.path, s.branch, s.head, s.snapshot, removed))
  {
    RemoveTouches(s, call.quiet, call.allowed, call.removeCut);
  }

  lemma StaysGone(s: State, call: Call)
    requires !s.exists_ && !After(s, call).exists_
    ensures After(s, call).removal == s.removal
  {
  }

  /** Over every run of calls and crash points, a worktree that was there and is
      gone was taken by a removal that found it quiet and tidy, and the record
      names the path, branch, head and snapshot it had then. */
  lemma {:induction false} GoneWasRemoved(s: State, calls: seq<Call>) returns (k: nat)
    requires s.exists_ && !Run(s, calls).exists_
    ensures k < |calls| && calls[k].Remove? && calls[k].quiet && calls[k].allowed && Removable(Run(s, calls[..k]))
    ensures var was, now := Run(s, calls[..k]), Run(s, calls);
            exists removed :: now.removal == Some(Removal(was.path, was.branch, was.head, was.snapshot, removed))
    decreases |calls|
  {
    var n := |calls| - 1;
    var before := Run(s, calls[..n]);
    assert calls == calls[..n] + [calls[n]];
    RunSnoc(s, calls[..n], calls[n]);
    if before.exists_ {
      k := n;
      TakenBy(before, calls[n]);
    } else {
      k := GoneWasRemoved(s, calls[..n]);
      assert calls[..n][..k] == calls[..k];
      StaysGone(before, calls[n]);
    }
  }
}
