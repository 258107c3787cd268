/**
 * The correlation store (internal/storage/correlation.go): an in-memory table
 * from correlation id to the reply slot of the HTTP request waiting on it,
 * with a deadline per id. Each locked operation of the source is one atomic
 * step here; the periodic cleanup goroutine is modelled as one tick, Sweep.
 */
module Storage {
  import opened Models

  /** Durations and instants are integers counting nanoseconds, as Go's time.Duration. */
  const Second: int := 1_000_000_000
  const Minute: int := 60 * Second

  /**
   * What a reply slot holds. The source uses an unbuffered channel: a send
   * hands over a response, a close makes the reader see nil. Here a slot is a
   * write-once cell.
   */
  datatype Outcome = Pending | Delivered(response: CaptureResponse) | Closed

  /** A reply slot (the source's `chan *CaptureResponse`), shared by reference. */
  class Slot {
    var outcome: Outcome

    /** A freshly made slot holds nothing yet. */
    constructor ()
      ensures outcome == Pending
    {
      outcome := Pending;
    }

    /** Sends a response on the slot; a slot is written at most once. */
    method Deliver(response: CaptureResponse)
      requires outcome == Pending
      modifies this
      ensures outcome == Delivered(response)
    {
      outcome := Delivered(response);
    }

    /** Closes the slot; a waiting reader then sees a nil response. */
    method Close()
      requires outcome == Pending
      modifies this
      ensures outcome == Closed
    {
      outcome := Closed;
    }
  }

  /** The ids whose deadline is strictly before `now` (Go's `now.After(expiry)`). */
  function Expired(expiries: map<string, int>, now: int): (ids: set<string>)
    ensures ids <= expiries.Keys
  {
    set id | id in expiries && expiries[id] < now
  }

  /** An entry whose deadline is `now` or later is not expired, even at its deadline. */
  lemma ExpiredExactly(expiries: map<string, int>, now: int, id: string)
    requires id in expiries
    ensures id in Expired(expiries, now) <==> expiries[id] < now
  {
  }

  /** After removing the expired ids, nothing left is expired at the same instant. */
  lemma SweepIdempotent(expiries: map<string, int>, now: int)
    ensures Expired(expiries - Expired(expiries, now), now) == {}
  {
  }

  class CorrelationStore {
    /** Reply slot per correlation id. */
    var channels: map<string, Slot>
    /** Deadline per correlation id. */
    var expiries: map<string, int>
    /** Time-to-live given to every entry when it is set. */
    const expiryDuration: int

    /** Both maps have the same ids, and no slot is stored under two ids. */
    ghost predicate Wellformed()
      reads this
    {
      && channels.Keys == expiries.Keys
      && (forall a, b :: a in channels && b in channels && a != b ==> channels[a] != channels[b])
    }

    /** The store invariant: well-formed, and every stored slot is still unwritten. */
    ghost predicate Valid()
      reads this, channels.Values
    {
      && Wellformed()
      && (forall id :: id in channels ==> channels[id].outcome == Pending)
    }

    /** NewCorrelationStore: an empty store with the given time-to-live. */
    constructor (expiryDuration: int)
      ensures Valid()
      ensures channels == map[] && expiries == map[]
      ensures this.expiryDuration == expiryDuration
    {
      channels := map[];
      expiries := map[];
      this.expiryDuration := expiryDuration;
    }

    /**
     * Registers `ch` under `id` with deadline `now + expiryDuration`,
     * replacing any earlier entry for `id`. The slot must be one nobody has
     * written and that no other id holds (callers pass a newly made one).
     */
    method Set(id: string, ch: Slot, now: int)
      requires Valid()
      requires ch.outcome == Pending
      requires forall k :: k in channels && k != id ==> channels[k] != ch
      modifies this
      ensures Valid()
      ensures channels == old(channels)[id := ch]
      ensures expiries == old(expiries)[id := now + expiryDuration]
    {
      channels := channels[id := ch];
      expiries := expiries[id := now + expiryDuration];
    }

    /** Looks up the slot of `id`; reports whether it is present and changes nothing. */
    method Get(id: string) returns (ch: Slot?, found: bool)
      ensures found <==> id in channels
      ensures found ==> ch == channels[id]
      ensures !found ==> ch == null
    {
      found := id in channels;
      ch := if found then channels[id] else null;
    }

    /** Removes `id` from both maps; removing an absent id changes nothing. */
    method Delete(id: string)
      requires Wellformed()
      modifies this
      ensures Wellformed()
      ensures channels == old(channels) - {id}
      ensures expiries == old(expiries) - {id}
    {
      channels := channels - {id};
      expiries := expiries - {id};
    }

    /**
     * One tick of the cleanup loop: every entry whose deadline is strictly
     * before `now` is removed and its slot closed; the removed ids are
     * returned. Surviving entries keep their slot, deadline and state.
     */
    method Sweep(now: int) returns (expired: set<string>)
      requires Valid()
      modifies this, channels.Values
      ensures Valid()
      ensures expired == Expired(old(expiries), now)
      ensures channels == old(channels) - expired
      ensures expiries == old(expiries) - expired
      ensures forall id :: id in expired ==> old(channels)[id].outcome == Closed
    {
      var keys := expiries.Keys;
      ghost var visited: set<string> := {};
      expired := {};
      while keys != {}
        invariant keys !! visited && keys + visited == old(expiries).Keys
        invariant expired == Expired(old(expiries), now) * visited
        invariant channels == old(channels) - expired
        invariant expiries == old(expiries) - expired
        invariant forall id :: id in expired ==> old(channels)[id].outcome == Closed
        invariant forall id :: id in channels ==> channels[id].outcome == Pending
        decreases keys
      {
        var id :| id in keys;
        if expiries[id] < now {
          assert channels[id] == old(channels)[id] && old(channels)[id] in old(channels).Values;
          channels[id].Close();
          channels := channels - {id};
          expiries := expiries - {id};
          expired := expired + {id};
        }
        keys := keys - {id};
        visited := visited + {id};
      }
    }
  }
}
