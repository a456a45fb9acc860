/**
 What one client knows about sub-account access, and the pacing it shares
 between all its subscriptions. Each function is one section of the client's lock.
 */
module Access {
  import opened Numbers

  /** A point on the client's monotonic clock, in milliseconds. */
  type Instant = nat

  datatype Timing = Timing(attemptSpacing: nat, readInterval: nat)

  /** One sub-account update: access removed, or given. */
  datatype Update = Update(id: u64, removed: bool)

  datatype Access = Access(
    removed: set<u64>,
    nextRead: Option<nat>,
    lastRead: Option<Instant>,
    nextAttemptAt: Option<Instant>)

  const NOTHING_KNOWN := Access({}, None, None, None)

  function Noted(access: Access, update: Update): Access {
    if update.id == 0 then access
    else if update.removed then access.(removed := access.removed + {update.id})
    else access.(removed := access.removed - {update.id})
  }

  function SlotAt(access: Access, now: Instant): Instant {
    match access.nextAttemptAt
    case Some(at) => Max(at, now)
    case None => now
  }

  function Reserved(access: Access, now: Instant, timing: Timing): Access {
    access.(nextAttemptAt := Some(SlotAt(access, now) + timing.attemptSpacing))
  }

  /** When a read created now may send its request. */
  function ReadDue(access: Access, now: Instant, timing: Timing): Instant {
    match access.lastRead
    case Some(at) => Max(at + timing.readInterval, now)
    case None => now
  }

  function ReadStarted(access: Access, now: Instant): Access {
    access.(nextRead := None, lastRead := Some(now))
  }

  class SubaccountAccess {
    const timing: Timing
    var removed: set<u64>
    var nextRead: Option<nat>
    var lastRead: Option<Instant>
    var nextAttemptAt: Option<Instant>

    ghost function View(): Access
      reads this
    {
      Access(removed, nextRead, lastRead, nextAttemptAt)
    }

    constructor (timing: Timing)
      ensures this.timing == timing && View() == NOTHING_KNOWN
    {
      this.timing := timing;
      removed, nextRead, lastRead, nextAttemptAt := {}, None, None, None;
    }

    method NoteUpdate(update: Update)
      modifies this
      ensures View() == Noted(old(View()), update)
      ensures forall id :: id in removed <==> if id == update.id && id != 0 then update.removed else id in old(removed)
    {
      if update.id == 0 {
        return;
      }
      if update.removed {
        removed := removed + {update.id};
      } else {
        removed := removed - {update.id};
      }
    }

    method SeenRemoved(id: u64) returns (seen: bool)
      ensures seen <==> id in View().removed
    {
      seen := id in removed;
    }

    method ReserveAttempt(now: Instant) returns (wait: nat)
      modifies this
      ensures now + wait == SlotAt(old(View()), now)
      ensures now + wait == if old(nextAttemptAt).Some? then Max(now, old(nextAttemptAt).value) else now
      ensures nextAttemptAt == Some(now + wait + timing.attemptSpacing)
      ensures View() == Reserved(old(View()), now, timing)
    {
      var slot := now;
      if nextAttemptAt.Some? && nextAttemptAt.value > now {
        slot := nextAttemptAt.value;
      }
      nextAttemptAt := Some(slot + timing.attemptSpacing);
      wait := slot - now;
    }

    /**
     Joins the read that has not sent its request yet, or becomes the creator
     of read `newRead`, with the wait before its request.
     */
    method JoinRead(now: Instant, newRead: nat) returns (read: nat, create: Option<nat>)
      modifies this
      ensures old(View()).nextRead.Some? ==>
                read == old(View()).nextRead.value && create == None && View() == old(View())
      ensures old(View()).nextRead.None? ==>
                && read == newRead && create.Some? && now + create.value == ReadDue(old(View()), now, timing)
                && now + create.value
                     == (if old(lastRead).Some? then Max(now, old(lastRead).value + timing.readInterval) else now)
                && View() == old(View()).(nextRead := Some(newRead))
    {
      if nextRead.Some? {
        return nextRead.value, None;
      }
      nextRead := Some(newRead);
      var wait := 0;
      if lastRead.Some? && lastRead.value + timing.readInterval > now {
        wait := lastRead.value + timing.readInterval - now;
      }
      return newRead, Some(wait);
    }

    method StartRead(now: Instant)
      modifies this
      ensures View() == ReadStarted(old(View()), now) && nextRead == None && lastRead == Some(now)
    {
      nextRead := None;
      lastRead := Some(now);
    }
  }
}
