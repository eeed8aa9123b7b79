/**
 * The reservation table (`LockList` in src/rpc/helper.go, and the
 * exchanger's private copy `lock`/`unlock`/`sweep` in src/charlie/main.go,
 * which is the same code): a map from a coin to the instant its reservation
 * expires. Instants and durations are integers in one unit of time.
 */
module Locks {
  import opened Coins

  /**
   * `lock` may take `key` at `now`: there is no entry, or the entry's
   * expiry lies strictly before `now` (`old.Sub(now) < 0`).
   */
  predicate Free(entries: map<CoinKey, int>, key: CoinKey, now: int) {
    key !in entries || entries[key] < now
  }

  /** The entries a sweep at `now` keeps: those whose expiry is not before `now`. */
  function Live(entries: map<CoinKey, int>, now: int): map<CoinKey, int> {
    map k | k in entries && entries[k] >= now :: entries[k]
  }

  class LockTable {
    /** Coin -> expiry instant. */
    var entries: map<CoinKey, int>
    /** How long a new reservation lasts (`utxoLockDuration`). */
    var duration: nat

    constructor (d: nat)
      ensures entries == map[] && duration == d
    {
      entries := map[];
      duration := d;
    }

    /** `SetUtxoLockDuration`. */
    method SetDuration(d: nat)
      modifies this`duration
      ensures duration == d
    {
      duration := d;
    }

    /** `Lock`: reserve `key` until `now + duration` unless a live reservation exists. */
    method Lock(key: CoinKey, now: int) returns (ok: bool)
      modifies this`entries
      ensures ok <==> Free(old(entries), key, now)
      ensures entries == if ok then old(entries)[key := now + duration] else old(entries)
    {
      var expiry := now + duration;
      if key !in entries {
        // new lock
        entries := entries[key := expiry];
        return true;
      }
      if entries[key] - now < 0 {
        // exists but expired: lock again
        entries := entries[key := expiry];
        return true;
      }
      return false;
    }

    /** `Unlock`: delete the entry of `key`, whatever it holds. */
    method Unlock(key: CoinKey)
      modifies this`entries
      ensures entries == old(entries) - {key}
    {
      entries := entries - {key};
    }

    /** `Sweep`: delete every entry whose expiry lies strictly before `now`. */
    method Sweep(now: int)
      modifies this`entries
      ensures entries == Live(old(entries), now)
    {
      ghost var start := entries;
      var pending := entries.Keys;
      while pending != {}
        invariant pending <= start.Keys
        invariant entries == map k | k in start && (k in pending || start[k] >= now) :: start[k]
        decreases pending
      {
        var k :| k in pending;
        if entries[k] - now < 0 {
          entries := entries - {k};
        }
        pending := pending - {k};
      }
    }

    /** `UnlockUnspentList`: unlock the key of every listed coin. */
    method UnlockUnspentList(ul: seq<Unspent>)
      modifies this`entries
      ensures entries == old(entries) - KeysOf(ul)
    {
      for i := 0 to |ul|
        invariant entries == old(entries) - KeysOf(ul[..i])
      {
        KeysOfAppend(ul[..i], ul[i]);
        assert ul[..i + 1] == ul[..i] + [ul[i]];
        Unlock(Key(ul[i]));
      }
      assert ul[..|ul|] == ul;
    }
  }

  /**
   * A reservation taken at `t` lasts through `t + d`: the key can be taken
   * again exactly at the instants strictly after `t + d`, and a sweep keeps it
   * exactly until then.
   */
  lemma ReservationLifetime(entries: map<CoinKey, int>, key: CoinKey, t: int, d: nat, later: int)
    ensures Free(entries[key := t + d], key, later) <==> later > t + d
    ensures key in Live(entries[key := t + d], later) <==> later <= t + d
  {
  }

  /** A sweep removes only entries that `lock` would overwrite anyway, so it never frees a live reservation. */
  lemma SweepPreservesFreedom(entries: map<CoinKey, int>, key: CoinKey, now: int)
    ensures Free(Live(entries, now), key, now) <==> Free(entries, key, now)
  {
  }
}
