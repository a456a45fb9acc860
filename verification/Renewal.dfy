/** Token renewal on one private connection: what is due, which commands await a reply, and their IDs. */
module Renewal {
  import opened Numbers
  import opened Access

  datatype Kind = Connection | Subscription

  const IDS: nat := 0x1_0000_0000
  const FIRST_ID: u32 := 3
  /** IDs run from 3 to 2^32 - 1 and start over. */
  const PERIOD: nat := IDS - FIRST_ID

  datatype Renewer = Renewer(due: map<Kind, Instant>, pending: map<u32, Kind>, nextId: u32)

  const NEW_RENEWER := Renewer(map[], map[], FIRST_ID)

  function Scheduled(r: Renewer, kind: Kind, answered: Instant, expiry: Option<u32>, unit: nat): Renewer {
    match expiry
    case None => r
    case Some(ttl) => r.(due := r.due[kind := answered + unit * ttl])
  }

  function DueKinds(r: Renewer, now: Instant): set<Kind> {
    set kind | kind in r.due && r.due[kind] <= now
  }

  function Started(r: Renewer, now: Instant): Renewer {
    r.(due := r.due - DueKinds(r, now))
  }

  /** `wrapping_add(1).max(3)` on a `u32`. */
  function IdAfter(id: u32): u32 {
    Max((id + 1) % IDS, FIRST_ID)
  }

  function Commanded(r: Renewer, kind: Kind): Renewer {
    r.(pending := r.pending[r.nextId := kind], nextId := IdAfter(r.nextId))
  }

  /** A reply to `id`; one that answers no renewal changes nothing. */
  function Replied(r: Renewer, id: u32, refused: bool, expiry: Option<u32>, now: Instant, unit: nat): Renewer {
    if id !in r.pending then r
    else
      var taken := r.(pending := r.pending - {id});
      if refused then taken else Scheduled(taken, r.pending[id], now, expiry, unit)
  }

  lemma TwoKinds(kinds: set<Kind>)
    ensures forall kind <- kinds :: kind == Connection || kind == Subscription
    ensures kinds == {} <==> Connection !in kinds && Subscription !in kinds
  {
    if kind :| kind in kinds {
      assert kind == Connection || kind == Subscription;
    }
  }

  class TokenRenewer {
    const unit: nat
    var due: map<Kind, Instant>
    var fetches: set<Kind>
    var pending: map<u32, Kind>
    var nextId: u32

    ghost function View(): Renewer
      reads this
    {
      Renewer(due, pending, nextId)
    }

    constructor (unit: nat)
      ensures this.unit == unit && View() == NEW_RENEWER && fetches == {}
      ensures due == map[] && pending == map[] && nextId == 3
    {
      this.unit := unit;
      due, fetches, pending, nextId := map[], {}, map[], FIRST_ID;
    }

    method Schedule(kind: Kind, answered: Instant, expiry: Option<u32>)
      modifies this`due
      ensures View() == Scheduled(old(View()), kind, answered, expiry, unit)
      ensures due == if expiry.None? then old(due) else old(due)[kind := answered + unit * expiry.value]
    {
      if expiry.Some? {
        due := due[kind := answered + unit * expiry.value];
      }
    }

    method NextDue() returns (next: Option<Instant>)
      ensures next.None? <==> due == map[]
      ensures next.Some? ==> next.value in due.Values && forall kind <- due :: next.value <= due[kind]
    {
      TwoKinds(due.Keys);
      next := None;
      if Connection in due {
        next := Some(due[Connection]);
      }
      if Subscription in due && (next.None? || due[Subscription] < next.value) {
        next := Some(due[Subscription]);
      }
    }

    /** Starts a token fetch for every renewal that is due; `aborted` names those whose earlier fetch it stops. */
    method StartDue(now: Instant) returns (started: set<Kind>, aborted: set<Kind>)
      modifies this`due, this`fetches
      ensures started == DueKinds(old(View()), now) && View() == Started(old(View()), now)
      ensures forall kind :: kind in started <==> kind in old(due) && old(due)[kind] <= now
      ensures due == old(due) - started && fetches == old(fetches) + started && aborted == old(fetches) * started
    {
      started, aborted := {}, {};
      TwoKinds(DueKinds(View(), now));
      var kinds := [Connection, Subscription];
      for k := 0 to 2
        invariant forall kind :: kind in started <==> kind in kinds[..k] && kind in DueKinds(old(View()), now)
        invariant View() == old(View()).(due := old(due) - started)
        invariant fetches == old(fetches) + started && aborted == old(fetches) * started
      {
        var kind := kinds[k];
        assert kinds[..k + 1] == kinds[..k] + [kind];
        if kind in due && due[kind] <= now {
          due := due - {kind};
          if kind in fetches {
            aborted := aborted + {kind};
          }
          fetches := fetches + {kind};
          started := started + {kind};
        }
      }
      assert kinds[..2] == kinds && kinds[0] == Connection && kinds[1] == Subscription;
      assert started == DueKinds(old(View()), now);
    }

    method Command(kind: Kind) returns (id: u32)
      modifies this`pending, this`nextId
      ensures id == old(nextId) && View() == Commanded(old(View()), kind)
      ensures pending == old(pending)[id := kind] && nextId == if id < 2 || id == 0xFFFF_FFFF then 3 else id + 1
    {
      id := nextId;
      nextId := if nextId + 1 == IDS then FIRST_ID else if nextId + 1 < FIRST_ID then FIRST_ID else nextId + 1;
      pending := pending[id := kind];
    }

    method TakeReply(id: u32, refused: bool, expiry: Option<u32>, now: Instant)
      returns (taken: Option<Result<(), Kind>>)
      modifies this`pending, this`due
      ensures View() == Replied(old(View()), id, refused, expiry, now, unit)
      ensures pending == old(pending) - {id}
      ensures due == if id !in old(pending) || refused || expiry.None? then old(due)
                     else old(due)[old(pending)[id] := now + unit * expiry.value]
      ensures taken == if id !in old(pending) then None
                       else Some(if refused then Err(old(pending)[id]) else Ok(()))
    {
      if id !in pending {
        return None;
      }
      var kind := pending[id];
      pending := pending - {id};
      if refused {
        return Some(Err(kind));
      }
      Schedule(kind, now, expiry);
      taken := Some(Ok(()));
    }
  }

  // ----- the IDs of one connection -----

  /** The ID of the `n`th renewal command. */
  function NthId(n: nat): u32 {
    if n == 0 then FIRST_ID else IdAfter(NthId(n - 1))
  }

  lemma {:induction false} NthIdIs(n: nat)
    ensures NthId(n) == FIRST_ID + n % PERIOD
  {
    if n > 0 {
      NthIdIs(n - 1);
      var q, r := (n - 1) / PERIOD, (n - 1) % PERIOD;
      if r + 1 < PERIOD {
        RemainderIs(n, PERIOD, q, r + 1);
        RemainderIs(NthId(n - 1) + 1, IDS, 0, NthId(n - 1) + 1);
      } else {
        RemainderIs(n, PERIOD, q + 1, 0);
        RemainderIs(NthId(n - 1) + 1, IDS, 1, 0);
      }
    }
  }

  /** No renewal takes the ID 1 or 2 of the setup commands, and IDs repeat only after a whole period. */
  lemma IdsAreDistinct(m: nat, n: nat)
    ensures NthId(m) >= 3
    ensures m < n < m + PERIOD ==> NthId(m) != NthId(n)
    ensures NthId(m + PERIOD) == NthId(m)
  {
    NthIdIs(m);
    NthIdIs(n);
    NthIdIs(m + PERIOD);
    RemainderIs(m + PERIOD, PERIOD, m / PERIOD + 1, m % PERIOD);
    if m < n < m + PERIOD && m % PERIOD == n % PERIOD {
      SmallMultiple(n / PERIOD - m / PERIOD, PERIOD, n - m);
    }
  }

  lemma RemainderIs(n: int, p: int, q: int, r: int)
    requires n == p * q + r && 0 <= r < p
    ensures n % p == r
  {
    var k := n / p - q;
    assert n == p * (n / p) + n % p;
    assert p * k == p * (n / p) - p * q;
    SmallMultiple(k, p, r - n % p);
  }

  lemma SmallMultiple(k: int, p: int, small: int)
    requires p > 0 && p * k == small && -p < small < p
    ensures k == 0 && small == 0
  {
    MultipleIsFar(k, p);
  }

  lemma MultipleIsFar(k: int, p: int)
    requires p > 0
    ensures k >= 1 ==> p * k >= p
    ensures k <= -1 ==> p * k <= -p
  {
  }
}
