/** Project ownership handed around an isolated check: given up to a scratch
    fence before it, taken back after it, or lost. */
module CheckOwnership {
  import opened LockNames
  import opened Results
  import opened GuardAcquisition
  import K = LockKernel

  datatype Slot = Owned(project: K.Guard) | Narrowed(check: K.Guard) | Lost

  predicate SlotHolds(mine: Table, slot: Slot, p: Project, scratch: Resource) {
    match slot
    case Owned(g) => g.ProjectGuard? && g.project == p && HoldsGuard(mine, g)
    case Narrowed(c) => c.CheckGuard? && c.project == p && c.resource == scratch && HoldsGuard(mine, c)
    case Lost => true
  }

  ghost function Handles(slot: Slot): set<nat> {
    match slot
    case Owned(g) => K.HandlesOf(g)
    case Narrowed(c) => K.HandlesOf(c)
    case Lost => {}
  }

  class Ownership {
    const locks: Locks
    const project: Project
    const scratch: Resource
    var slot: Slot
    /** The locks this process holds for anything else. */
    ghost var around: Table

    /** The process holds exactly the slot's guard and what it held besides. */
    ghost predicate Valid()
      reads this, locks
    {
      && locks.Valid()
      && SlotHolds(locks.mine, slot, project, scratch)
      && Handles(slot) !! around.Keys
      && locks.mine.Keys == around.Keys + Handles(slot)
      && (forall h :: h in around ==> locks.mine[h] == around[h])
    }

    constructor (locks: Locks, guard: K.Guard, scratch: Resource)
      requires locks.Valid() && guard.ProjectGuard? && HoldsGuard(locks.mine, guard)
      ensures Valid() && slot == Owned(guard) && this.locks == locks && project == guard.project && this.scratch == scratch
      ensures around == locks.mine - K.HandlesOf(guard)
    {
      this.locks := locks;
      this.project := guard.project;
      this.scratch := scratch;
      slot := Owned(guard);
      around := locks.mine - K.HandlesOf(guard);
    }

    /** Whether an outcome may be recorded: exactly then the project's lock is
        held exclusively, and the root shared. */
    method Held() returns (held: bool)
      requires Valid()
      ensures held <==> slot.Owned?
      ensures held ==> Has(locks.mine, slot.project.projectLock, EffectLock(project), Exclusive)
                       && Has(locks.mine, slot.project.rootLock, RootLock(project.root), Shared)
    {
      held := slot.Owned?;
    }

    /** Drops whatever guard the slot has. */
    method Drop()
      requires Valid()
      modifies this`slot, locks`mine
      ensures Valid() && slot == Lost && locks.mine == around
    {
      if slot.Owned? {
        locks.ReleaseAll([slot.project.projectLock, slot.project.rootLock]);
      } else if slot.Narrowed? {
        locks.ReleaseAll([slot.check.fenceLock, slot.check.rootLock]);
      }
      slot := Lost;
      assert locks.mine == around;
    }

    /** Before the check. Ownership becomes the scratch fence and the shared
        root; if the fence is taken, ownership stays as it was. Releasing twice
        loses the guard. */
    method Release() returns (ok: bool)
      requires Valid()
      modifies this`slot, locks`mine, locks`next
      ensures Valid()
      ensures ok <==> old(slot).Owned? && ValidResource(scratch) && CanLock(old(locks.mine), locks.others, FenceLock(project.root, scratch), Exclusive)
      ensures ok ==> slot.Narrowed? && slot.check.rootLock == old(slot).project.rootLock
      ensures ok ==> locks.mine.Keys == old(locks.mine).Keys - {old(slot).project.projectLock} + {slot.check.fenceLock}
      ensures !ok && old(slot).Owned? ==> slot == old(slot) && locks.mine == old(locks.mine)
      ensures !old(slot).Owned? ==> slot == Lost && locks.mine == around
    {
      if !slot.Owned? {
        Drop();
        return false;
      }
      var guard := slot.project;
      var fence := locks.FenceUnder(guard, scratch);
      if fence.Err? {
        return false;
      }
      var check := locks.Narrow(guard, fence.value);
      slot := Narrowed(check);
      return true;
    }

    /** After the check. The guard comes back before the claim is looked at, so
        a claim that no longer holds still leaves the project owned; when the
        wait runs out nothing is held. At no attempt had another process the
        root exclusively. */
    method Reacquire(wait: nat, stateIsDirectory: bool, sameIdentity: bool, claimHolds: bool) returns (ok: bool)
      requires Valid()
      modifies this`slot, locks
      ensures Valid() && old(locks.seen) <= locks.seen
      ensures ok <==> old(slot).Narrowed? && slot.Owned? && claimHolds
      ensures !old(slot).Narrowed? ==> slot == Lost
      ensures slot == Lost || slot.Owned?
      ensures slot == Lost ==> locks.mine == around
      ensures old(slot).Narrowed? ==>
        var base := old(locks.mine) - {old(slot).check.fenceLock};
        var attempts := [old(locks.others)] + locks.seen[|old(locks.seen)|..];
        var free := stateIsDirectory && ProjectFree(base, attempts[|attempts| - 1], project);
        && FirstFree(base, attempts, project, stateIsDirectory)
        && (slot.Owned? <==> sameIdentity && free) && (slot == Lost && !free ==> locks.clock >= old(locks.clock) + wait)
      ensures old(slot).Narrowed? ==> forall i :: |old(locks.seen)| <= i < |locks.seen| ==> RootShared(locks.seen[i], project.root)
    {
      if !slot.Narrowed? {
        Drop();
        return false;
      }
      var check := slot.check;
      slot := Lost;
      var widened := locks.Widen(check, wait, stateIsDirectory, sameIdentity);
      if widened.Err? {
        assert locks.mine == around;
        return false;
      }
      slot := Owned(widened.value);
      return claimHolds;
    }
  }
}
