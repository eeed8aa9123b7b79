/**
 * The coin selectors of src/rpc/helper.go: `SearchUnspent`, the greedy
 * "fund more than N" selector, and `SearchMinimalUnspent`, the single
 * "loopback" coin selector. Each loop is given first as a function over the
 * sorted candidates (the specification), then as the method that runs it
 * against a `LockTable`; the lemmas state what the source promises.
 */
module Selectors {
  import opened Wrappers
  import opened Coins
  import opened Locks

  /**
   * The filters applied before a lock is attempted: the coin carries an asset
   * commitment exactly when a blinded coin is wanted, and it is spendable or
   * solvable.
   */
  predicate Eligible(u: Unspent, blinding: bool) {
    (u.assetCommitment != "") == blinding && (u.spendable || u.solvable)
  }

  datatype SelectError =
    | ListUnspentFailed   // the `listunspent` call failed
    | InsufficientFunds   // "no sufficient utxo"
    | NoUtxo              // "no utxo [asset]"

  /** What a selector returns: its coins (returned alongside an error too) and the error, if any. */
  datatype Selection = Selection(coins: seq<Unspent>, error: Option<SelectError>)

  /** The state of a funding loop: the running total, the coins taken, the lock table. */
  datatype Scan = Scan(total: int, picked: seq<Unspent>, locks: map<CoinKey, int>)

  // ---------------------------------------------------------------------
  // SearchUnspent
  // ---------------------------------------------------------------------

  /**
   * The loop of `SearchUnspent` from candidate `i` on: stop once the total
   * strictly exceeds the request; skip a coin that fails the filters or whose
   * lock is refused; otherwise lock it and take it.
   */
  function FundFrom(ul: seq<Unspent>, i: nat, st: Scan, request: int, blinding: bool, now: int, d: nat): Scan
    requires i <= |ul|
    decreases |ul| - i
  {
    if i == |ul| || request < st.total then st
    else if Eligible(ul[i], blinding) && Free(st.locks, Key(ul[i]), now) then
      FundFrom(ul, i + 1, Scan(st.total + ul[i].amount, st.picked + [ul[i]], st.locks[Key(ul[i]) := now + d]),
               request, blinding, now, d)
    else
      FundFrom(ul, i + 1, st, request, blinding, now, d)
  }

  /**
   * `SearchUnspent` as a function of the lock table before the call: the
   * selection and the lock table after it. Candidates are sorted by
   * descending `Less`; when the total does not exceed the request, every
   * coin taken is unlocked again.
   */
  function SearchUnspentSpec(locks: map<CoinKey, int>, listed: Option<seq<Unspent>>, request: int,
                             blinding: bool, now: int, d: nat): (Selection, map<CoinKey, int>)
  {
    match listed
    case None => (Selection([], Some(ListUnspentFailed)), locks)
    case Some(raw) =>
      var st := FundFrom(Sort(raw, true), 0, Scan(0, [], locks), request, blinding, now, d);
      if request >= st.total then (Selection(st.picked, Some(InsufficientFunds)), st.locks - KeysOf(st.picked))
      else (Selection(st.picked, None), st.locks)
  }

  /**
   * `SearchUnspent`: `listed` is the outcome of the `listunspent` call (None
   * when it failed) and `now` the clock reading every lock of this call uses.
   */
  method SearchUnspent(ll: LockTable, listed: Option<seq<Unspent>>, request: int, blinding: bool, now: int)
    returns (sel: Selection)
    modifies ll`entries
    ensures (sel, ll.entries) == SearchUnspentSpec(old(ll.entries), listed, request, blinding, now, ll.duration)
  {
    if listed.None? {
      return Selection([], Some(ListUnspentFailed));
    }
    var ul := Sort(listed.value, true);
    var total, utxos := Fund(ll, ul, request, blinding, now);
    if request >= total {
      ll.UnlockUnspentList(utxos);
      return Selection(utxos, Some(InsufficientFunds));
    }
    return Selection(utxos, None);
  }

  /** The loop of `SearchUnspent` over the sorted candidates: the total and the coins taken. */
  method Fund(ll: LockTable, ul: seq<Unspent>, request: int, blinding: bool, now: int)
    returns (total: int, utxos: seq<Unspent>)
    modifies ll`entries
    ensures Scan(total, utxos, ll.entries) == FundFrom(ul, 0, Scan(0, [], old(ll.entries)), request, blinding, now, ll.duration)
  {
    total := 0;
    utxos := [];
    ghost var goal := FundFrom(ul, 0, Scan(0, [], ll.entries), request, blinding, now, ll.duration);
    var i := 0;
    while i < |ul| && request >= total
      invariant 0 <= i <= |ul|
      invariant FundFrom(ul, i, Scan(total, utxos, ll.entries), request, blinding, now, ll.duration) == goal
    {
      var u := ul[i];
      if blinding && u.assetCommitment == "" {
      } else if !blinding && u.assetCommitment != "" {
      } else if !(u.spendable || u.solvable) {
      } else {
        var ok := ll.Lock(Key(u), now);
        if ok {
          total := total + u.amount;
          utxos := utxos + [u];
        }
      }
      i := i + 1;
    }
  }

  /** The keys of the coins of `s` from index `n` on. */
  ghost function KeysFrom(s: seq<Unspent>, n: nat): set<CoinKey> {
    set j | n <= j < |s| :: Key(s[j])
  }

  /** The coins one run of the funding loop takes extend the ones already taken. */
  lemma {:induction false} FundFromPrefix(ul: seq<Unspent>, i: nat, st: Scan, request: int, blinding: bool, now: int, d: nat, r: Scan)
    requires i <= |ul|
    requires r == FundFrom(ul, i, st, request, blinding, now, d)
    ensures |st.picked| <= |r.picked| && r.picked[..|st.picked|] == st.picked
    decreases |ul| - i
  {
    if i == |ul| || request < st.total {
    } else if Eligible(ul[i], blinding) && Free(st.locks, Key(ul[i]), now) {
      var u := ul[i];
      var st' := Scan(st.total + u.amount, st.picked + [u], st.locks[Key(u) := now + d]);
      FundFromPrefix(ul, i + 1, st', request, blinding, now, d, r);
      assert r.picked[..|st.picked|] == r.picked[..|st'.picked|][..|st.picked|];
    } else {
      FundFromPrefix(ul, i + 1, st, request, blinding, now, d, r);
    }
  }

  /**
   * The total of one run of the funding loop stays the sum of the coins
   * taken, and the total before the last coin taken did not exceed the
   * request.
   */
  lemma {:induction false} FundFromTotal(ul: seq<Unspent>, i: nat, st: Scan, request: int, blinding: bool, now: int, d: nat, r: Scan)
    requires i <= |ul|
    requires r == FundFrom(ul, i, st, request, blinding, now, d)
    requires st.total == Sum(st.picked)
    ensures && r.total == Sum(r.picked)
      && (|st.picked| == |r.picked| ==> r.total == st.total)
      && (|st.picked| < |r.picked| ==> r.total - r.picked[|r.picked| - 1].amount <= request)
    decreases |ul| - i
  {
    if i == |ul| || request < st.total {
    } else if Eligible(ul[i], blinding) && Free(st.locks, Key(ul[i]), now) {
      var u := ul[i];
      var st' := Scan(st.total + u.amount, st.picked + [u], st.locks[Key(u) := now + d]);
      SumSnoc(st.picked, u);
      FundFromTotal(ul, i + 1, st', request, blinding, now, d, r);
      FundFromPrefix(ul, i + 1, st', request, blinding, now, d, r);
      if |r.picked| == |st'.picked| {
        assert r.picked[|st.picked|] == r.picked[..|st'.picked|][|st.picked|] == u;
      }
    } else {
      FundFromTotal(ul, i + 1, st, request, blinding, now, d, r);
      FundFromPrefix(ul, i + 1, st, request, blinding, now, d, r);
    }
  }

  /**
   * Every coin one run of the funding loop takes passed the filters and was
   * free in the table the run started from, and no key is taken twice.
   */
  lemma {:induction false} FundFromTaken(ul: seq<Unspent>, i: nat, st: Scan, request: int, blinding: bool, now: int, d: nat, r: Scan)
    requires i <= |ul|
    requires r == FundFrom(ul, i, st, request, blinding, now, d)
    ensures && (forall j :: |st.picked| <= j < |r.picked| ==>
            Eligible(r.picked[j], blinding) && Free(st.locks, Key(r.picked[j]), now))
      && (forall j, k :: |st.picked| <= j < k < |r.picked| ==> Key(r.picked[j]) != Key(r.picked[k]))
    decreases |ul| - i
  {
    if i == |ul| || request < st.total {
    } else if Eligible(ul[i], blinding) && Free(st.locks, Key(ul[i]), now) {
      var u := ul[i];
      var n := |st.picked|;
      var st' := Scan(st.total + u.amount, st.picked + [u], st.locks[Key(u) := now + d]);
      FundFromPrefix(ul, i + 1, st', request, blinding, now, d, r);
      FundFromTaken(ul, i + 1, st', request, blinding, now, d, r);
      assert r.picked[..n + 1] == st'.picked;
      assert r.picked[n] == u by { assert r.picked[..n + 1][n] == r.picked[n]; }
      forall j | n <= j < |r.picked|
        ensures Eligible(r.picked[j], blinding) && Free(st.locks, Key(r.picked[j]), now)
        ensures j > n ==> Key(r.picked[j]) != Key(u)
      {
        if j > n {
          assert Free(st'.locks, Key(r.picked[j]), now);
        }
      }
      assert forall j :: n <= j < |r.picked| ==>
            Eligible(r.picked[j], blinding) && Free(st.locks, Key(r.picked[j]), now);
      assert forall j, k :: n <= j < k < |r.picked| ==> Key(r.picked[j]) != Key(r.picked[k]);
    } else {
      FundFromTaken(ul, i + 1, st, request, blinding, now, d, r);
      assert forall j :: |st.picked| <= j < |r.picked| ==>
            Eligible(r.picked[j], blinding) && Free(st.locks, Key(r.picked[j]), now);
    }
  }

  /**
   * The table after one run of the funding loop: the table it started from,
   * with the key of every coin taken reserved until `now + d`.
   */
  lemma {:induction false} FundFromLocks(ul: seq<Unspent>, i: nat, st: Scan, request: int, blinding: bool, now: int, d: nat, r: Scan)
    requires i <= |ul|
    requires r == FundFrom(ul, i, st, request, blinding, now, d)
    ensures && (forall k :: k in r.locks <==> k in st.locks || k in KeysFrom(r.picked, |st.picked|))
      && (forall k :: k in r.locks ==>
            r.locks[k] == if k in KeysFrom(r.picked, |st.picked|) then now + d else st.locks[k])
    decreases |ul| - i
  {
    if i == |ul| || request < st.total {
    } else if Eligible(ul[i], blinding) && Free(st.locks, Key(ul[i]), now) {
      var u := ul[i];
      var n := |st.picked|;
      var st' := Scan(st.total + u.amount, st.picked + [u], st.locks[Key(u) := now + d]);
      FundFromPrefix(ul, i + 1, st', request, blinding, now, d, r);
      FundFromLocks(ul, i + 1, st', request, blinding, now, d, r);
      assert r.picked[n] == r.picked[..n + 1][n] == u;
      assert KeysFrom(r.picked, n) == {Key(u)} + KeysFrom(r.picked, n + 1);
    } else {
      FundFromLocks(ul, i + 1, st, request, blinding, now, d, r);
    }
  }

  /**
   * A run of the funding loop that ends at or under the request took every
   * key that an eligible candidate free in the starting table carries.
   */
  lemma {:induction false} FundFromExhaustive(ul: seq<Unspent>, i: nat, st: Scan, request: int, blinding: bool, now: int, d: nat, r: Scan)
    requires i <= |ul|
    requires r == FundFrom(ul, i, st, request, blinding, now, d)
    ensures r.total <= request ==>
        forall j :: i <= j < |ul| && Eligible(ul[j], blinding) && Free(st.locks, Key(ul[j]), now) ==>
          Key(ul[j]) in KeysFrom(r.picked, |st.picked|)
    decreases |ul| - i
  {
    if i == |ul| {
    } else if request < st.total {
    } else if Eligible(ul[i], blinding) && Free(st.locks, Key(ul[i]), now) {
      var u := ul[i];
      var n := |st.picked|;
      var st' := Scan(st.total + u.amount, st.picked + [u], st.locks[Key(u) := now + d]);
      FundFromPrefix(ul, i + 1, st', request, blinding, now, d, r);
      FundFromExhaustive(ul, i + 1, st', request, blinding, now, d, r);
      assert r.picked[n] == r.picked[..n + 1][n] == u;
      assert KeysFrom(r.picked, n) == {Key(u)} + KeysFrom(r.picked, n + 1);
    } else {
      FundFromExhaustive(ul, i + 1, st, request, blinding, now, d, r);
    }
  }

  /**
   * Taking candidate `i` after coins that no later candidate precedes keeps
   * the coins taken in order, and no candidate after `i` precedes any of them.
   */
  lemma PickKeepsOrder(ul: seq<Unspent>, i: nat, picked: seq<Unspent>)
    requires i < |ul|
    requires Sorted(ul, true) && Sorted(picked, true)
    requires forall p, j :: p in picked && i <= j < |ul| ==> !Before(ul[j], p, true)
    ensures Sorted(picked + [ul[i]], true)
    ensures forall p, j :: p in picked + [ul[i]] && i + 1 <= j < |ul| ==> !Before(ul[j], p, true)
  {
    var s := picked + [ul[i]];
    forall a, b | 0 <= a < b < |s| ensures !Before(s[b], s[a], true) {
      if b == |picked| { assert s[a] in picked; }
    }
    forall p, j | p in s && i + 1 <= j < |ul| ensures !Before(ul[j], p, true) {
      if p != ul[i] { assert p in picked; }
    }
  }

  /**
   * The funding loop keeps the order of the candidates: from candidates
   * sorted by descending `Less` it takes a sub-multiset, in descending order.
   */
  lemma {:induction false} FundFromSorted(ul: seq<Unspent>, i: nat, st: Scan, request: int, blinding: bool, now: int, d: nat, r: Scan)
    requires i <= |ul|
    requires r == FundFrom(ul, i, st, request, blinding, now, d)
    requires Sorted(ul, true) && Sorted(st.picked, true)
    requires forall p, j :: p in st.picked && i <= j < |ul| ==> !Before(ul[j], p, true)
    ensures && Sorted(r.picked, true)
      && |st.picked| <= |r.picked|
      && multiset(r.picked) <= multiset(st.picked) + multiset(ul[i..])
    decreases |ul| - i
  {
    if i == |ul| || request < st.total {
    } else if Eligible(ul[i], blinding) && Free(st.locks, Key(ul[i]), now) {
      var u := ul[i];
      var st' := Scan(st.total + u.amount, st.picked + [u], st.locks[Key(u) := now + d]);
      PickKeepsOrder(ul, i, st.picked);
      FundFromSorted(ul, i + 1, st', request, blinding, now, d, r);
      assert ul[i..] == [u] + ul[i + 1..];
    } else {
      FundFromSorted(ul, i + 1, st, request, blinding, now, d, r);
      assert ul[i..] == [ul[i]] + ul[i + 1..];
    }
  }

  /**
   * `SearchUnspent` on a successful `listunspent`: the selection succeeds
   * exactly when the coins taken sum to strictly more than the request; every
   * coin taken passed the filters and was free before the call, and no coin
   * is taken twice.
   */
  lemma SearchUnspentTaken(locks: map<CoinKey, int>, raw: seq<Unspent>, request: int, blinding: bool, now: int, d: nat, sel: Selection)
    requires sel == SearchUnspentSpec(locks, Some(raw), request, blinding, now, d).0
    ensures
      && (sel.error.None? <==> Sum(sel.coins) > request)
      && (sel.error.Some? ==> sel.error == Some(InsufficientFunds))
      && (forall c :: c in sel.coins ==> Eligible(c, blinding) && Free(locks, Key(c), now))
      && (forall j, k :: 0 <= j < k < |sel.coins| ==> Key(sel.coins[j]) != Key(sel.coins[k]))
  {
    var ul := Sort(raw, true);
    var st0 := Scan(0, [], locks);
    var st := FundFrom(ul, 0, st0, request, blinding, now, d);
    FundFromTotal(ul, 0, st0, request, blinding, now, d, st);
    FundFromTaken(ul, 0, st0, request, blinding, now, d, st);
  }

  /**
   * A successful `SearchUnspent` returns coins in descending `Less` order,
   * drawn from the candidates, that sum to strictly more than the request
   * while all but the last sum to at most the request.
   */
  lemma SearchUnspentFunds(locks: map<CoinKey, int>, raw: seq<Unspent>, request: int, blinding: bool, now: int, d: nat, sel: Selection)
    requires sel == SearchUnspentSpec(locks, Some(raw), request, blinding, now, d).0
    ensures
      sel.error.None? ==>
        && Sorted(sel.coins, true)
        && multiset(sel.coins) <= multiset(raw)
        && Sum(sel.coins) > request
        && (|sel.coins| > 0 ==> Sum(sel.coins[..|sel.coins| - 1]) <= request)
  {
    var ul := Sort(raw, true);
    var st0 := Scan(0, [], locks);
    var st := FundFrom(ul, 0, st0, request, blinding, now, d);
    FundFromTotal(ul, 0, st0, request, blinding, now, d, st);
    FundFromPrefix(ul, 0, st0, request, blinding, now, d, st);
    FundFromSorted(ul, 0, st0, request, blinding, now, d, st);
    assert ul[0..] == ul;
    if |st.picked| > 0 {
      var n := |st.picked|;
      assert st.picked == st.picked[..n - 1] + [st.picked[n - 1]];
      SumSnoc(st.picked[..n - 1], st.picked[n - 1]);
    }
  }

  /**
   * After a successful `SearchUnspent` every coin returned is reserved until
   * `now + d`, and no other entry of the table changes.
   */
  lemma SearchUnspentReserves(locks: map<CoinKey, int>, raw: seq<Unspent>, request: int, blinding: bool, now: int, d: nat,
                              sel: Selection, after: map<CoinKey, int>)
    requires (sel, after) == SearchUnspentSpec(locks, Some(raw), request, blinding, now, d)
    ensures
      sel.error.None? ==>
        && (forall k :: k in after <==> k in locks || k in KeysOf(sel.coins))
        && (forall k :: k in after ==> after[k] == if k in KeysOf(sel.coins) then now + d else locks[k])
  {
    var ul := Sort(raw, true);
    var st0 := Scan(0, [], locks);
    var st := FundFrom(ul, 0, st0, request, blinding, now, d);
    FundFromLocks(ul, 0, st0, request, blinding, now, d, st);
    assert KeysFrom(st.picked, 0) == KeysOf(st.picked);
  }

  /**
   * A failed `SearchUnspent` (after a successful `listunspent`) leaves the
   * table as it was minus the keys of the coins it had taken, and no eligible
   * candidate that was free was left untaken.
   */
  lemma SearchUnspentReleases(locks: map<CoinKey, int>, raw: seq<Unspent>, request: int, blinding: bool, now: int, d: nat,
                              sel: Selection, after: map<CoinKey, int>)
    requires (sel, after) == SearchUnspentSpec(locks, Some(raw), request, blinding, now, d)
    ensures
      sel.error.Some? ==>
        && (forall k :: k in after <==> k in locks && k !in KeysOf(sel.coins))
        && (forall k :: k in after ==> after[k] == locks[k])
        && (forall c :: c in raw && Eligible(c, blinding) && Free(locks, Key(c), now) ==> Key(c) in KeysOf(sel.coins))
  {
    var ul := Sort(raw, true);
    var st0 := Scan(0, [], locks);
    var st := FundFrom(ul, 0, st0, request, blinding, now, d);
    FundFromLocks(ul, 0, st0, request, blinding, now, d, st);
    FundFromExhaustive(ul, 0, st0, request, blinding, now, d, st);
    assert KeysFrom(st.picked, 0) == KeysOf(st.picked);
    if request >= st.total {
      forall c | c in raw && Eligible(c, blinding) && Free(locks, Key(c), now) ensures Key(c) in KeysOf(st.picked) {
        assert c in multiset(ul);
        var j :| 0 <= j < |ul| && ul[j] == c;
      }
    }
  }

  // ---------------------------------------------------------------------
  // SearchMinimalUnspent
  // ---------------------------------------------------------------------

  /** The state of the first loop of `SearchMinimalUnspent`: the index of the last coin taken, and the table. */
  datatype LastScan = LastScan(found: Option<nat>, locks: map<CoinKey, int>)

  /**
   * The first loop of `SearchMinimalUnspent` from candidate `i` on. It has no
   * `break`: every coin that passes the filters and the lock is locked, and
   * the index of the last one is kept.
   */
  function LastPassing(ul: seq<Unspent>, i: nat, found: Option<nat>, locks: map<CoinKey, int>,
                       blinding: bool, now: int, d: nat): (r: LastScan)
    requires i <= |ul|
    requires found.Some? ==> found.value < i
    ensures r.found.Some? ==> r.found.value < |ul|
    ensures found.Some? ==> r.found.Some? && found.value <= r.found.value
    decreases |ul| - i
  {
    if i == |ul| then LastScan(found, locks)
    else if Eligible(ul[i], blinding) && Free(locks, Key(ul[i]), now) then
      LastPassing(ul, i + 1, Some(i), locks[Key(ul[i]) := now + d], blinding, now, d)
    else
      LastPassing(ul, i + 1, found, locks, blinding, now, d)
  }

  /**
   * The second loop: the candidates after the chosen one that have the same
   * amount; one that passes the filters and the lock replaces the chosen coin,
   * whose lock is released.
   */
  function TieScan(ul: seq<Unspent>, j: nat, min: Unspent, locks: map<CoinKey, int>,
                   blinding: bool, now: int, d: nat): (Unspent, map<CoinKey, int>)
    requires j <= |ul|
    decreases |ul| - j
  {
    if j == |ul| || ul[j].amount != min.amount then (min, locks)
    else if Eligible(ul[j], blinding) && Free(locks, Key(ul[j]), now) then
      TieScan(ul, j + 1, ul[j], locks[Key(ul[j]) := now + d] - {Key(min)}, blinding, now, d)
    else
      TieScan(ul, j + 1, min, locks, blinding, now, d)
  }

  /** `SearchMinimalUnspent` as a function of the lock table before the call. Candidates are sorted by ascending `Less`. */
  function SearchMinimalSpec(locks: map<CoinKey, int>, listed: Option<seq<Unspent>>,
                             blinding: bool, now: int, d: nat): (Selection, map<CoinKey, int>)
  {
    match listed
    case None => (Selection([], Some(ListUnspentFailed)), locks)
    case Some(raw) =>
      if |raw| == 0 then (Selection([], Some(NoUtxo)), locks)
      else
        var ul := Sort(raw, false);
        var first := LastPassing(ul, 0, None, locks, blinding, now, d);
        match first.found
        case None => (Selection([], Some(NoUtxo)), first.locks)
        case Some(start) =>
          if |ul| == start + 1 then (Selection([ul[start]], None), first.locks)
          else
            var (min, after) := TieScan(ul, start + 1, ul[start], first.locks, blinding, now, d);
            (Selection([min], None), after)
  }

  /** `SearchMinimalUnspent`, against the outcome of `listunspent` and one clock reading. */
  method SearchMinimalUnspent(ll: LockTable, listed: Option<seq<Unspent>>, blinding: bool, now: int)
    returns (sel: Selection)
    modifies ll`entries
    ensures (sel, ll.entries) == SearchMinimalSpec(old(ll.entries), listed, blinding, now, ll.duration)
  {
    if listed.None? {
      return Selection([], Some(ListUnspentFailed));
    }
    var raw := listed.value;
    if |raw| == 0 {
      return Selection([], Some(NoUtxo));
    }
    var ul := Sort(raw, false);
    var found := LockPassing(ll, ul, blinding, now);
    if found.None? {
      return Selection([], Some(NoUtxo));
    }
    var start := found.value;
    if |ul| == start + 1 {
      return Selection([ul[start]], None);
    }
    var minUnspent := TakeTies(ll, ul, start, blinding, now);
    return Selection([minUnspent], None);
  }

  /** The first loop of `SearchMinimalUnspent`: lock every candidate that passes, and keep the index of the last one. */
  method LockPassing(ll: LockTable, ul: seq<Unspent>, blinding: bool, now: int) returns (found: Option<nat>)
    modifies ll`entries
    ensures LastScan(found, ll.entries) == LastPassing(ul, 0, None, old(ll.entries), blinding, now, ll.duration)
  {
    found := None;
    ghost var first := LastPassing(ul, 0, None, ll.entries, blinding, now, ll.duration);
    for i := 0 to |ul|
      invariant found.Some? ==> found.value < i
      invariant LastPassing(ul, i, found, ll.entries, blinding, now, ll.duration) == first
    {
      var u := ul[i];
      if blinding && u.assetCommitment == "" {
      } else if !blinding && u.assetCommitment != "" {
      } else if !(u.spendable || u.solvable) {
      } else {
        var ok := ll.Lock(Key(u), now);
        if ok {
          found := Some(i);
        }
      }
    }
  }

  /**
   * The second loop of `SearchMinimalUnspent`: walk the candidates after
   * `start` that have its amount, moving the reservation to each one that
   * passes.
   */
  method TakeTies(ll: LockTable, ul: seq<Unspent>, start: nat, blinding: bool, now: int) returns (minUnspent: Unspent)
    requires start + 1 < |ul|
    modifies ll`entries
    ensures (minUnspent, ll.entries) == TieScan(ul, start + 1, ul[start], old(ll.entries), blinding, now, ll.duration)
  {
    minUnspent := ul[start];
    ghost var tie := TieScan(ul, start + 1, ul[start], ll.entries, blinding, now, ll.duration);
    var j := start + 1;
    while j < |ul| && ul[j].amount == minUnspent.amount
      invariant start + 1 <= j <= |ul|
      invariant TieScan(ul, j, minUnspent, ll.entries, blinding, now, ll.duration) == tie
    {
      var u := ul[j];
      if blinding && u.assetCommitment == "" {
      } else if !blinding && u.assetCommitment != "" {
      } else if !(u.spendable || u.solvable) {
      } else {
        var ok := ll.Lock(Key(u), now);
        if ok {
          ll.Unlock(Key(minUnspent));
          minUnspent := u;
        }
      }
      j := j + 1;
    }
  }

  /** Candidate `u` cannot be taken against table `m`: it fails the filters or its lock is refused. */
  predicate Blocked(u: Unspent, m: map<CoinKey, int>, blinding: bool, now: int) {
    !Eligible(u, blinding) || !Free(m, Key(u), now)
  }

  /**
   * The first loop only adds reservations: no entry disappears, and a key
   * whose lock would be refused stays refused.
   */
  lemma {:induction false} LastPassingGrows(ul: seq<Unspent>, i: nat, found: Option<nat>, locks: map<CoinKey, int>,
                                            blinding: bool, now: int, d: nat, r: LastScan)
    requires i <= |ul|
    requires found.Some? ==> found.value < i
    requires r == LastPassing(ul, i, found, locks, blinding, now, d)
    ensures forall k :: k in locks ==> k in r.locks
    ensures forall k :: !Free(locks, k, now) ==> !Free(r.locks, k, now)
    ensures r.found == found ==> r.locks == locks
    decreases |ul| - i
  {
    if i == |ul| {
    } else if Eligible(ul[i], blinding) && Free(locks, Key(ul[i]), now) {
      var locks' := locks[Key(ul[i]) := now + d];
      LastPassingGrows(ul, i + 1, Some(i), locks', blinding, now, d, r);
    } else {
      LastPassingGrows(ul, i + 1, found, locks, blinding, now, d, r);
    }
  }

  /**
   * When the first loop takes a coin from candidate `i` on, the last one it
   * takes passed the filters and was free in the table it started from.
   */
  lemma {:induction false} LastPassingPick(ul: seq<Unspent>, i: nat, found: Option<nat>, locks: map<CoinKey, int>,
                                           blinding: bool, now: int, d: nat, r: LastScan)
    requires i <= |ul|
    requires found.Some? ==> found.value < i
    requires r == LastPassing(ul, i, found, locks, blinding, now, d)
    ensures r.found != found ==>
      && r.found.Some? && i <= r.found.value
      && Eligible(ul[r.found.value], blinding)
      && Free(locks, Key(ul[r.found.value]), now)
    decreases |ul| - i
  {
    if i == |ul| {
    } else if Eligible(ul[i], blinding) && Free(locks, Key(ul[i]), now) {
      var locks' := locks[Key(ul[i]) := now + d];
      LastPassingPick(ul, i + 1, Some(i), locks', blinding, now, d, r);
      if r.found != Some(i) {
        assert Key(ul[r.found.value]) != Key(ul[i]);
      }
    } else {
      LastPassingPick(ul, i + 1, found, locks, blinding, now, d, r);
    }
  }

  /** Every eligible candidate free in the starting table ends up reserved until `now + d`. */
  lemma {:induction false} LastPassingReserves(ul: seq<Unspent>, i: nat, found: Option<nat>, locks: map<CoinKey, int>,
                                               blinding: bool, now: int, d: nat, r: LastScan)
    requires i <= |ul|
    requires found.Some? ==> found.value < i
    requires r == LastPassing(ul, i, found, locks, blinding, now, d)
    ensures forall j :: i <= j < |ul| && Eligible(ul[j], blinding) && Free(locks, Key(ul[j]), now) ==>
      Key(ul[j]) in r.locks && r.locks[Key(ul[j])] == now + d
    ensures forall k :: k in locks && !Free(locks, k, now) ==> k in r.locks && r.locks[k] == locks[k]
    decreases |ul| - i
  {
    LastPassingGrows(ul, i, found, locks, blinding, now, d, r);
    if i == |ul| {
    } else if Eligible(ul[i], blinding) && Free(locks, Key(ul[i]), now) {
      var locks' := locks[Key(ul[i]) := now + d];
      LastPassingReserves(ul, i + 1, Some(i), locks', blinding, now, d, r);
      assert !Free(locks', Key(ul[i]), now);
    } else {
      LastPassingReserves(ul, i + 1, found, locks, blinding, now, d, r);
    }
  }

  /** No candidate after the last coin the first loop takes could have been taken in the final table. */
  lemma {:induction false} LastPassingBlocked(ul: seq<Unspent>, i: nat, found: Option<nat>, locks: map<CoinKey, int>,
                                              blinding: bool, now: int, d: nat, r: LastScan)
    requires i <= |ul|
    requires found.Some? ==> found.value < i
    requires r == LastPassing(ul, i, found, locks, blinding, now, d)
    ensures forall j :: i <= j < |ul| && (r.found == found || (r.found.Some? && r.found.value < j)) ==>
      Blocked(ul[j], r.locks, blinding, now)
    decreases |ul| - i
  {
    if i == |ul| {
    } else if Eligible(ul[i], blinding) && Free(locks, Key(ul[i]), now) {
      var locks' := locks[Key(ul[i]) := now + d];
      LastPassingBlocked(ul, i + 1, Some(i), locks', blinding, now, d, r);
      LastPassingPick(ul, i + 1, Some(i), locks', blinding, now, d, r);
    } else {
      LastPassingBlocked(ul, i + 1, found, locks, blinding, now, d, r);
      LastPassingGrows(ul, i + 1, found, locks, blinding, now, d, r);
      LastPassingPick(ul, i + 1, found, locks, blinding, now, d, r);
    }
  }

  /**
   * With distinct keys, no candidate after the last coin the first loop takes
   * was eligible and free in the table the loop started from; when the loop
   * takes nothing from `i` on, no candidate from `i` on was.
   */
  lemma {:induction false} LastPassingLast(ul: seq<Unspent>, i: nat, found: Option<nat>, locks: map<CoinKey, int>,
                                           blinding: bool, now: int, d: nat, r: LastScan)
    requires i <= |ul|
    requires found.Some? ==> found.value < i
    requires DistinctKeys(ul)
    requires r == LastPassing(ul, i, found, locks, blinding, now, d)
    ensures r.found == found ==> forall j :: i <= j < |ul| ==> Blocked(ul[j], locks, blinding, now)
    ensures r.found != found ==>
      r.found.Some? && forall j :: r.found.value < j < |ul| ==> Blocked(ul[j], locks, blinding, now)
    decreases |ul| - i
  {
    if i == |ul| {
    } else if Eligible(ul[i], blinding) && Free(locks, Key(ul[i]), now) {
      var locks' := locks[Key(ul[i]) := now + d];
      LastPassingLast(ul, i + 1, Some(i), locks', blinding, now, d, r);
      LastPassingPick(ul, i + 1, Some(i), locks', blinding, now, d, r);
      forall j | i < j < |ul| ensures Free(locks', Key(ul[j]), now) == Free(locks, Key(ul[j]), now) {
        assert Key(ul[i]) != Key(ul[j]);
      }
    } else {
      LastPassingLast(ul, i + 1, found, locks, blinding, now, d, r);
    }
  }

  /**
   * Every entry the first loop adds or changes is reserved until `now + d`,
   * was free before, and belongs to an eligible candidate.
   */
  lemma {:induction false} LastPassingChanges(ul: seq<Unspent>, i: nat, found: Option<nat>, locks: map<CoinKey, int>,
                                              blinding: bool, now: int, d: nat, r: LastScan)
    requires i <= |ul|
    requires found.Some? ==> found.value < i
    requires r == LastPassing(ul, i, found, locks, blinding, now, d)
    ensures forall k :: k in r.locks && !(k in locks && r.locks[k] == locks[k]) ==>
      r.locks[k] == now + d && Free(locks, k, now) &&
      exists j :: i <= j < |ul| && Key(ul[j]) == k && Eligible(ul[j], blinding)
    decreases |ul| - i
  {
    if i == |ul| {
    } else if Eligible(ul[i], blinding) && Free(locks, Key(ul[i]), now) {
      var locks' := locks[Key(ul[i]) := now + d];
      LastPassingChanges(ul, i + 1, Some(i), locks', blinding, now, d, r);
      LastPassingReserves(ul, i + 1, Some(i), locks', blinding, now, d, r);
      assert !Free(locks', Key(ul[i]), now);
      forall k | k in r.locks && !(k in locks && r.locks[k] == locks[k])
        ensures r.locks[k] == now + d && Free(locks, k, now) &&
          exists j :: i <= j < |ul| && Key(ul[j]) == k && Eligible(ul[j], blinding)
      {
        if k != Key(ul[i]) {
          assert !(k in locks' && r.locks[k] == locks'[k]);
        }
      }
    } else {
      LastPassingChanges(ul, i + 1, found, locks, blinding, now, d, r);
    }
  }

  /** With a fixed clock the tie loop changes nothing when no candidate after the chosen one can be taken. */
  lemma {:induction false} TieScanIdle(ul: seq<Unspent>, j: nat, min: Unspent, locks: map<CoinKey, int>,
                                       blinding: bool, now: int, d: nat)
    requires j <= |ul|
    requires forall k :: j <= k < |ul| ==> Blocked(ul[k], locks, blinding, now)
    ensures TieScan(ul, j, min, locks, blinding, now, d) == (min, locks)
    decreases |ul| - j
  {
    if j < |ul| && ul[j].amount == min.amount {
      TieScanIdle(ul, j + 1, min, locks, blinding, now, d);
    }
  }

  /**
   * `SearchMinimalUnspent` on a successful `listunspent` succeeds exactly
   * when some candidate passes the filters and is free; when it fails it
   * returns no coin and leaves the table unchanged.
   */
  lemma SearchMinimalUnspentSucceeds(locks: map<CoinKey, int>, raw: seq<Unspent>, blinding: bool, now: int, d: nat,
                                     sel: Selection, after: map<CoinKey, int>)
    requires (sel, after) == SearchMinimalSpec(locks, Some(raw), blinding, now, d)
    ensures
      && (sel.error.None? <==> exists c :: c in raw && Eligible(c, blinding) && Free(locks, Key(c), now))
      && (sel.error.Some? ==> sel.coins == [] && after == locks)
  {
    if |raw| > 0 {
      var ul := Sort(raw, false);
      var first := LastPassing(ul, 0, None, locks, blinding, now, d);
      LastPassingPick(ul, 0, None, locks, blinding, now, d, first);
      LastPassingBlocked(ul, 0, None, locks, blinding, now, d, first);
      LastPassingGrows(ul, 0, None, locks, blinding, now, d, first);
      if first.found.None? {
        forall c | c in raw ensures !(Eligible(c, blinding) && Free(locks, Key(c), now)) {
          assert c in multiset(ul);
          var j :| 0 <= j < |ul| && ul[j] == c;
          assert Blocked(ul[j], first.locks, blinding, now);
        }
      } else {
        assert ul[first.found.value] in multiset(raw);
      }
    }
  }

  /**
   * A successful `SearchMinimalUnspent` returns exactly one coin: the LAST
   * candidate in ascending `Less` order that passed the filters and the lock
   * (the first loop has no `break`), not necessarily the smallest. It was free
   * before the call and is now reserved until `now + d`; no later candidate
   * could have been taken; and the tie loop changes nothing.
   */
  lemma SearchMinimalUnspentPicksLast(locks: map<CoinKey, int>, raw: seq<Unspent>, blinding: bool, now: int, d: nat,
                                      sel: Selection, after: map<CoinKey, int>)
    requires (sel, after) == SearchMinimalSpec(locks, Some(raw), blinding, now, d)
    ensures
      var ul := Sort(raw, false);
      var first := LastPassing(ul, 0, None, locks, blinding, now, d);
      sel.error.None? ==>
        && first.found.Some?
        && sel.coins == [ul[first.found.value]]
        && after == first.locks
        && Eligible(sel.coins[0], blinding)
        && Free(locks, Key(sel.coins[0]), now)
        && Key(sel.coins[0]) in after && after[Key(sel.coins[0])] == now + d
        && (forall j :: first.found.value < j < |ul| ==> Blocked(ul[j], after, blinding, now))
  {
    if |raw| > 0 {
      var ul := Sort(raw, false);
      var first := LastPassing(ul, 0, None, locks, blinding, now, d);
      LastPassingPick(ul, 0, None, locks, blinding, now, d, first);
      LastPassingBlocked(ul, 0, None, locks, blinding, now, d, first);
      LastPassingReserves(ul, 0, None, locks, blinding, now, d, first);
      if first.found.Some? {
        var start := first.found.value;
        if |ul| != start + 1 {
          TieScanIdle(ul, start + 1, ul[start], first.locks, blinding, now, d);
        }
        assert sel == Selection([ul[start]], None) && after == first.locks;
        assert Eligible(ul[start], blinding) && Free(locks, Key(ul[start]), now);
        assert Key(ul[start]) in after && after[Key(ul[start])] == now + d;
      } else {
        assert sel.error.Some?;
      }
    }
  }

  /**
   * When `listunspent` reports each output once, the coin returned is the
   * last candidate in ascending order that was eligible and free BEFORE the
   * call: every later candidate was ineligible or already reserved. So no
   * eligible coin that was free is larger by `Less` than the one returned.
   */
  lemma SearchMinimalUnspentIsLast(locks: map<CoinKey, int>, raw: seq<Unspent>, blinding: bool, now: int, d: nat,
                                   sel: Selection, after: map<CoinKey, int>)
    requires (sel, after) == SearchMinimalSpec(locks, Some(raw), blinding, now, d)
    requires DistinctKeys(raw)
    ensures
      var ul := Sort(raw, false);
      var first := LastPassing(ul, 0, None, locks, blinding, now, d);
      sel.error.None? ==>
        && first.found.Some?
        && sel.coins == [ul[first.found.value]]
        && Eligible(ul[first.found.value], blinding)
        && Free(locks, Key(ul[first.found.value]), now)
        && (forall j :: first.found.value < j < |ul| ==> Blocked(ul[j], locks, blinding, now))
        && (forall c :: c in raw && Eligible(c, blinding) && Free(locks, Key(c), now) ==> !Less(sel.coins[0], c))
  {
    if |raw| > 0 {
      var ul := Sort(raw, false);
      var first := LastPassing(ul, 0, None, locks, blinding, now, d);
      SearchMinimalUnspentPicksLast(locks, raw, blinding, now, d, sel, after);
      DistinctKeysPermutation(raw, ul);
      LastPassingLast(ul, 0, None, locks, blinding, now, d, first);
      if first.found.Some? {
        NoneLargerAfter(ul, first.found.value, locks, blinding, now);
        forall c | c in raw ensures c in ul {
          assert c in multiset(ul);
        }
      }
    }
  }

  /** In an ascending list, a coin after which every candidate is blocked is not below any unblocked candidate. */
  lemma NoneLargerAfter(ul: seq<Unspent>, s: nat, locks: map<CoinKey, int>, blinding: bool, now: int)
    requires Sorted(ul, false)
    requires s < |ul|
    requires forall j :: s < j < |ul| ==> Blocked(ul[j], locks, blinding, now)
    ensures forall c :: c in ul && !Blocked(c, locks, blinding, now) ==> !Less(ul[s], c)
  {
    forall c | c in ul && !Blocked(c, locks, blinding, now) ensures !Less(ul[s], c) {
      var j :| 0 <= j < |ul| && ul[j] == c;
    }
  }

  /**
   * `SearchMinimalUnspent` leaves every eligible candidate that was free
   * reserved until `now + d`, even those it does not return; it removes no
   * entry, and every entry it adds or changes belongs to such a candidate.
   */
  lemma SearchMinimalUnspentReserves(locks: map<CoinKey, int>, raw: seq<Unspent>, blinding: bool, now: int, d: nat,
                                     sel: Selection, after: map<CoinKey, int>)
    requires (sel, after) == SearchMinimalSpec(locks, Some(raw), blinding, now, d)
    ensures
      sel.error.None? ==>
        && (forall c :: c in raw && Eligible(c, blinding) && Free(locks, Key(c), now) ==>
              Key(c) in after && after[Key(c)] == now + d)
        && (forall k :: k in locks ==> k in after)
        && (forall k :: k in after && !(k in locks && after[k] == locks[k]) ==>
              after[k] == now + d && Free(locks, k, now) &&
              exists c :: c in raw && Key(c) == k && Eligible(c, blinding))
  {
    if |raw| > 0 {
      var ul := Sort(raw, false);
      var first := LastPassing(ul, 0, None, locks, blinding, now, d);
      SearchMinimalUnspentPicksLast(locks, raw, blinding, now, d, sel, after);
      LastPassingGrows(ul, 0, None, locks, blinding, now, d, first);
      LastPassingReserves(ul, 0, None, locks, blinding, now, d, first);
      LastPassingChanges(ul, 0, None, locks, blinding, now, d, first);
      forall c | c in raw && Eligible(c, blinding) && Free(locks, Key(c), now)
        ensures Key(c) in first.locks && first.locks[Key(c)] == now + d
      {
        assert c in multiset(ul);
        var j :| 0 <= j < |ul| && ul[j] == c;
      }
      forall k | k in first.locks && !(k in locks && first.locks[k] == locks[k])
        ensures exists c :: c in raw && Key(c) == k && Eligible(c, blinding)
      {
        var j :| 0 <= j < |ul| && Key(ul[j]) == k && Eligible(ul[j], blinding);
        assert ul[j] in multiset(raw);
      }
    }
  }

  /**
   * `SearchMinimalUnspent` never touches a live reservation: an entry whose
   * lock would be refused keeps its expiry, whatever `listunspent` answered.
   */
  lemma SearchMinimalKeepsLive(locks: map<CoinKey, int>, listed: Option<seq<Unspent>>, blinding: bool, now: int, d: nat,
                               sel: Selection, after: map<CoinKey, int>)
    requires (sel, after) == SearchMinimalSpec(locks, listed, blinding, now, d)
    ensures forall k :: k in locks && !Free(locks, k, now) ==> k in after && after[k] == locks[k]
  {
    if listed.Some? {
      SearchMinimalUnspentSucceeds(locks, listed.value, blinding, now, d, sel, after);
      SearchMinimalUnspentReserves(locks, listed.value, blinding, now, d, sel, after);
    }
  }

  /**
   * The selector does not return the smallest eligible coin: with two free
   * blinded coins of amounts 1 and 5 it returns the one of 5, and the coin of
   * 1 stays reserved.
   */
  lemma MinimalTakesLastNotSmallest(small: Unspent, large: Unspent, now: int, d: nat)
    requires small == Unspent("a", 0, 1, 1, true, true, "c")
    requires large == Unspent("b", 0, 5, 1, true, true, "c")
    ensures var (sel, after) := SearchMinimalSpec(map[], Some([small, large]), true, now, d);
      sel == Selection([large], None) && Key(small) in after
  {
    assert Sort([], false) == [];
    assert [large][1..] == [];
    assert Sort([large], false) == [large];
    assert [small, large][1..] == [large];
    assert Sort([small, large], false) == [small, large];
    var ul := [small, large];
    var m1 := map[Key(small) := now + d];
    var m2 := m1[Key(large) := now + d];
    assert Key(small) != Key(large);
    assert LastPassing(ul, 2, Some(1), m2, true, now, d) == LastScan(Some(1), m2);
    assert LastPassing(ul, 1, Some(0), m1, true, now, d) == LastScan(Some(1), m2);
    assert LastPassing(ul, 0, None, map[], true, now, d) == LastScan(Some(1), m2);
  }
}
