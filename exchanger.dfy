/**
 * The exchanger (src/charlie/main.go): it quotes a fixed rate, funds the
 * requested side of a swap from its own coins, builds the argument list of
 * the transaction template, and settles a submitted transaction. Its lock
 * table is its own copy of the reservation table (`LockTable`); its coin
 * selector differs from the shared one in that it locks a coin BEFORE
 * testing whether it is spendable.
 */
module Exchanger {
  import opened Wrappers
  import opened Coins
  import opened Locks
  import opened TxArgs
  import Selectors

  type Pos = n: int | n > 0 witness 1

  /**
   * One entry of the fixed rate table. The rate (a float in the source) is
   * the rational `rateNum / rateDen`: one unit of the offered asset buys
   * `rateNum / rateDen` units of the requested asset.
   */
  datatype RateTuple = RateTuple(rateNum: Pos, rateDen: Pos, min: int, max: int, unit: int, fee: int)

  /** The exchanger's answer to an offer request. */
  datatype OfferResponse = OfferResponse(fee: int, assetLabel: string, cost: int, transaction: string)

  datatype RateError =
    | NoExchangeSource(offer: string)       // no row for the offered asset
    | CannotExchange(requestAsset: string)  // no column for the requested asset
    | BelowMinimum(cost: int)
    | AboveMaximum(cost: int)

  /** Division truncating toward zero, as a Go conversion of a float to `int64` does. */
  function TruncDiv(a: int, b: Pos): int {
    if a >= 0 then a / b else -((-a) / b)
  }

  /** `int64(float64(requestAmount) / rate)`: the amount of the offered asset asked for `amount`. */
  function Cost(amount: int, t: RateTuple): int {
    TruncDiv(amount * t.rateDen, t.rateNum)
  }

  /**
   * The cost is the requested amount divided by the rate, truncated toward
   * zero: for a non-negative amount it is the largest integer whose value
   * at the rate does not exceed the amount.
   */
  lemma CostTruncates(amount: int, t: RateTuple)
    ensures amount >= 0 ==> Cost(amount, t) * t.rateNum <= amount * t.rateDen < (Cost(amount, t) + 1) * t.rateNum
    ensures amount < 0 ==> Cost(amount, t) == -Cost(-amount, t)
  {
    if amount < 0 {
      assert -amount * t.rateDen == -(amount * t.rateDen);
    }
  }

  /** The rate table the exchanger starts from: AKISKY offered for MELON at 0.5, min 100, max 200000, unit 20, fee 15. */
  function DefaultRateTable(): map<string, map<string, RateTuple>> {
    map["AKISKY" := map["MELON" := RateTuple(1, 2, 100, 200000, 20, 15)]]
  }

  /**
   * `lookupRate`. It fails when the table has no row for the offered asset
   * or no entry for the requested one under it, and when the cost falls
   * outside `[min, max]`; otherwise it answers the entry's fee, the offered
   * asset, the cost and an empty transaction.
   */
  function LookupRate(table: map<string, map<string, RateTuple>>, requestAsset: string, requestAmount: int,
                      offer: string): (r: Result<OfferResponse, RateError>)
    ensures r.Success? <==>
      offer in table && requestAsset in table[offer] &&
      table[offer][requestAsset].min <= Cost(requestAmount, table[offer][requestAsset]) <= table[offer][requestAsset].max
    ensures r == Failure(NoExchangeSource(offer)) <==> offer !in table
    ensures r == Failure(CannotExchange(requestAsset)) <==> offer in table && requestAsset !in table[offer]
    ensures r.Success? ==>
      var t := table[offer][requestAsset];
      r.value == OfferResponse(t.fee, offer, Cost(requestAmount, t), "") && t.min <= r.value.cost <= t.max
  {
    if offer !in table then Failure(NoExchangeSource(offer))
    else if requestAsset !in table[offer] then Failure(CannotExchange(requestAsset))
    else
      var t := table[offer][requestAsset];
      var cost := Cost(requestAmount, t);
      if cost < t.min then Failure(BelowMinimum(cost))
      else if t.max < cost then Failure(AboveMaximum(cost))
      else Success(OfferResponse(t.fee, offer, cost, ""))
  }

  /** With the default table, 1000 MELON cost 2000 AKISKY with a fee of 15, and 10 MELON are below the minimum. */
  lemma DefaultQuote()
    ensures LookupRate(DefaultRateTable(), "MELON", 1000, "AKISKY") == Success(OfferResponse(15, "AKISKY", 2000, ""))
    ensures LookupRate(DefaultRateTable(), "MELON", 10, "AKISKY") == Failure(BelowMinimum(20))
    ensures LookupRate(DefaultRateTable(), "AKISKY", 1000, "MELON") == Failure(NoExchangeSource("MELON"))
  {
    assert Cost(1000, RateTuple(1, 2, 100, 200000, 20, 15)) == 2000;
    assert Cost(10, RateTuple(1, 2, 100, 200000, 20, 15)) == 20;
  }

  // ---------------------------------------------------------------------
  // searchUnspent
  // ---------------------------------------------------------------------

  /**
   * The loop of the exchanger's `searchUnspent` from candidate `i` on: stop
   * once the total strictly exceeds the request; skip a coin whose lock is
   * refused; lock every other coin, and then take it only if it is
   * spendable or solvable (a coin that is neither stays locked).
   */
  function ExFundFrom(ul: seq<Unspent>, i: nat, st: Selectors.Scan, request: int, now: int, d: nat): Selectors.Scan
    requires i <= |ul|
    decreases |ul| - i
  {
    if i == |ul| || request < st.total then st
    else if !Free(st.locks, Key(ul[i]), now) then ExFundFrom(ul, i + 1, st, request, now, d)
    else
      var locks := st.locks[Key(ul[i]) := now + d];
      if !(ul[i].spendable || ul[i].solvable) then
        ExFundFrom(ul, i + 1, Selectors.Scan(st.total, st.picked, locks), request, now, d)
      else
        ExFundFrom(ul, i + 1, Selectors.Scan(st.total + ul[i].amount, st.picked + [ul[i]], locks), request, now, d)
  }

  /** `searchUnspent` as a function of the lock table before the call: the selection and the table after it. */
  function ExSearchSpec(locks: map<CoinKey, int>, listed: Option<seq<Unspent>>, request: int, now: int, d: nat)
    : (Selectors.Selection, map<CoinKey, int>)
  {
    match listed
    case None => (Selectors.Selection([], Some(Selectors.ListUnspentFailed)), locks)
    case Some(raw) =>
      var st := ExFundFrom(Sort(raw, true), 0, Selectors.Scan(0, [], locks), request, now, d);
      if request >= st.total then
        (Selectors.Selection(st.picked, Some(Selectors.InsufficientFunds)), st.locks - KeysOf(st.picked))
      else (Selectors.Selection(st.picked, None), st.locks)
  }

  /** `searchUnspent`, against the outcome of `listunspent` and one clock reading. */
  method SearchUnspent(ll: LockTable, listed: Option<seq<Unspent>>, request: int, now: int)
    returns (sel: Selectors.Selection)
    modifies ll`entries
    ensures (sel, ll.entries) == ExSearchSpec(old(ll.entries), listed, request, now, ll.duration)
  {
    if listed.None? {
      return Selectors.Selection([], Some(Selectors.ListUnspentFailed));
    }
    var ul := Sort(listed.value, true);
    var total, utxos := ExFund(ll, ul, request, now);
    if request >= total {
      ll.UnlockUnspentList(utxos);
      return Selectors.Selection(utxos, Some(Selectors.InsufficientFunds));
    }
    return Selectors.Selection(utxos, None);
  }

  /** The exchanger's loop over the sorted candidates: the total and the coins taken. */
  method ExFund(ll: LockTable, ul: seq<Unspent>, request: int, now: int) returns (total: int, utxos: seq<Unspent>)
    modifies ll`entries
    ensures Selectors.Scan(total, utxos, ll.entries) ==
      ExFundFrom(ul, 0, Selectors.Scan(0, [], old(ll.entries)), request, now, ll.duration)
  {
    total := 0;
    utxos := [];
    ghost var goal := ExFundFrom(ul, 0, Selectors.Scan(0, [], ll.entries), request, now, ll.duration);
    var i := 0;
    while i < |ul| && request >= total
      invariant 0 <= i <= |ul|
      invariant ExFundFrom(ul, i, Selectors.Scan(total, utxos, ll.entries), request, now, ll.duration) == goal
    {
      var u := ul[i];
      var ok := ll.Lock(Key(u), now);
      if ok && (u.spendable || u.solvable) {
        total := total + u.amount;
        utxos := utxos + [u];
      }
      i := i + 1;
    }
  }

  /** The coins one run of the exchanger's loop takes extend the ones already taken. */
  lemma {:induction false} ExFundFromPrefix(ul: seq<Unspent>, i: nat, st: Selectors.Scan, request: int, now: int, d: nat,
                                            r: Selectors.Scan)
    requires i <= |ul|
    requires r == ExFundFrom(ul, i, st, request, now, d)
    ensures |st.picked| <= |r.picked| && r.picked[..|st.picked|] == st.picked
    decreases |ul| - i
  {
    if i == |ul| || request < st.total {
    } else if !Free(st.locks, Key(ul[i]), now) {
      ExFundFromPrefix(ul, i + 1, st, request, now, d, r);
    } else {
      var u := ul[i];
      var locks := st.locks[Key(u) := now + d];
      if !(u.spendable || u.solvable) {
        ExFundFromPrefix(ul, i + 1, Selectors.Scan(st.total, st.picked, locks), request, now, d, r);
      } else {
        var st' := Selectors.Scan(st.total + u.amount, st.picked + [u], locks);
        ExFundFromPrefix(ul, i + 1, st', request, now, d, r);
        assert r.picked[..|st.picked|] == r.picked[..|st'.picked|][..|st.picked|];
      }
    }
  }

  /**
   * The total of one run stays the sum of the coins taken, and the total
   * before the last coin taken did not exceed the request.
   */
  lemma {:induction false} ExFundFromTotal(ul: seq<Unspent>, i: nat, st: Selectors.Scan, request: int, now: int, d: nat,
                                           r: Selectors.Scan)
    requires i <= |ul|
    requires r == ExFundFrom(ul, i, st, request, now, d)
    requires st.total == Sum(st.picked)
    ensures r.total == Sum(r.picked)
    ensures |st.picked| == |r.picked| ==> r.total == st.total
    ensures |st.picked| < |r.picked| ==> r.total - r.picked[|r.picked| - 1].amount <= request
    decreases |ul| - i
  {
    if i == |ul| || request < st.total {
    } else if !Free(st.locks, Key(ul[i]), now) {
      ExFundFromTotal(ul, i + 1, st, request, now, d, r);
    } else {
      var u := ul[i];
      var locks := st.locks[Key(u) := now + d];
      if !(u.spendable || u.solvable) {
        ExFundFromTotal(ul, i + 1, Selectors.Scan(st.total, st.picked, locks), request, now, d, r);
      } else {
        var st' := Selectors.Scan(st.total + u.amount, st.picked + [u], locks);
        SumSnoc(st.picked, u);
        ExFundFromTotal(ul, i + 1, st', request, now, d, r);
        ExFundFromPrefix(ul, i + 1, st', request, now, d, r);
        if |r.picked| == |st'.picked| {
          assert r.picked[|st.picked|] == r.picked[..|st'.picked|][|st.picked|] == u;
        }
      }
    }
  }

  /**
   * Every coin one run takes is spendable or solvable and was free in the
   * table the run started from, and no key is taken twice.
   */
  lemma {:induction false} ExFundFromTaken(ul: seq<Unspent>, i: nat, st: Selectors.Scan, request: int, now: int, d: nat,
                                           r: Selectors.Scan)
    requires i <= |ul|
    requires r == ExFundFrom(ul, i, st, request, now, d)
    ensures forall j :: |st.picked| <= j < |r.picked| ==>
      (r.picked[j].spendable || r.picked[j].solvable) && Free(st.locks, Key(r.picked[j]), now)
    ensures forall j, k :: |st.picked| <= j < k < |r.picked| ==> Key(r.picked[j]) != Key(r.picked[k])
    decreases |ul| - i
  {
    if i == |ul| || request < st.total {
    } else if !Free(st.locks, Key(ul[i]), now) {
      ExFundFromTaken(ul, i + 1, st, request, now, d, r);
    } else {
      var u := ul[i];
      var n := |st.picked|;
      var locks := st.locks[Key(u) := now + d];
      if !(u.spendable || u.solvable) {
        var st' := Selectors.Scan(st.total, st.picked, locks);
        ExFundFromTaken(ul, i + 1, st', request, now, d, r);
        forall j | n <= j < |r.picked| ensures Free(st.locks, Key(r.picked[j]), now) {
          assert Free(st'.locks, Key(r.picked[j]), now);
        }
      } else {
        var st' := Selectors.Scan(st.total + u.amount, st.picked + [u], locks);
        ExFundFromPrefix(ul, i + 1, st', request, now, d, r);
        ExFundFromTaken(ul, i + 1, st', request, now, d, r);
        assert r.picked[..n + 1] == st'.picked;
        assert r.picked[n] == u by { assert r.picked[..n + 1][n] == r.picked[n]; }
        forall j | n <= j < |r.picked|
          ensures (r.picked[j].spendable || r.picked[j].solvable) && Free(st.locks, Key(r.picked[j]), now)
          ensures j > n ==> Key(r.picked[j]) != Key(u)
        {
          if j > n {
            assert Free(st'.locks, Key(r.picked[j]), now);
          }
        }
      }
    }
  }

  /**
   * One run only adds or renews reservations: no entry disappears, a
   * reservation that was live stays as it was, and every entry it adds or
   * changes is reserved until `now + d`, was free, and belongs to a
   * candidate from `i` on.
   */
  lemma {:induction false} ExFundFromGrows(ul: seq<Unspent>, i: nat, st: Selectors.Scan, request: int, now: int, d: nat,
                                           r: Selectors.Scan)
    requires i <= |ul|
    requires r == ExFundFrom(ul, i, st, request, now, d)
    ensures forall k :: k in st.locks ==> k in r.locks
    ensures forall k :: k in st.locks && !Free(st.locks, k, now) ==> r.locks[k] == st.locks[k]
    ensures forall k :: k in r.locks && !(k in st.locks && r.locks[k] == st.locks[k]) ==>
      r.locks[k] == now + d && Free(st.locks, k, now) && exists j :: i <= j < |ul| && Key(ul[j]) == k
    decreases |ul| - i
  {
    if i == |ul| || request < st.total {
    } else if !Free(st.locks, Key(ul[i]), now) {
      ExFundFromGrows(ul, i + 1, st, request, now, d, r);
    } else {
      var u := ul[i];
      var locks := st.locks[Key(u) := now + d];
      var st' := if !(u.spendable || u.solvable) then Selectors.Scan(st.total, st.picked, locks)
                 else Selectors.Scan(st.total + u.amount, st.picked + [u], locks);
      ExFundFromGrows(ul, i + 1, st', request, now, d, r);
      assert !Free(st'.locks, Key(u), now);
      forall k | k in r.locks && !(k in st.locks && r.locks[k] == st.locks[k])
        ensures r.locks[k] == now + d && Free(st.locks, k, now) && exists j :: i <= j < |ul| && Key(ul[j]) == k
      {
        if k != Key(u) {
          assert !(k in st'.locks && r.locks[k] == st'.locks[k]);
        }
      }
    }
  }

  /**
   * A run that ends at or under the request reached every candidate: each
   * candidate free in the starting table is now reserved until `now + d`.
   */
  lemma {:induction false} ExFundFromReached(ul: seq<Unspent>, i: nat, st: Selectors.Scan, request: int, now: int, d: nat,
                                             r: Selectors.Scan)
    requires i <= |ul|
    requires r == ExFundFrom(ul, i, st, request, now, d)
    ensures r.total <= request ==>
      forall j :: i <= j < |ul| && Free(st.locks, Key(ul[j]), now) ==>
        Key(ul[j]) in r.locks && r.locks[Key(ul[j])] == now + d
    decreases |ul| - i
  {
    if i == |ul| || request < st.total {
    } else if !Free(st.locks, Key(ul[i]), now) {
      ExFundFromReached(ul, i + 1, st, request, now, d, r);
    } else {
      var u := ul[i];
      var locks := st.locks[Key(u) := now + d];
      if !(u.spendable || u.solvable) {
        var st' := Selectors.Scan(st.total, st.picked, locks);
        ExFundFromReached(ul, i + 1, st', request, now, d, r);
        ExFundFromGrows(ul, i + 1, st', request, now, d, r);
        assert !Free(st'.locks, Key(u), now);
      } else {
        var st' := Selectors.Scan(st.total + u.amount, st.picked + [u], locks);
        ExFundFromReached(ul, i + 1, st', request, now, d, r);
        ExFundFromGrows(ul, i + 1, st', request, now, d, r);
        assert !Free(st'.locks, Key(u), now);
      }
    }
  }

  /** The exchanger's loop keeps the order of the candidates and takes a sub-multiset of them. */
  lemma {:induction false} ExFundFromSorted(ul: seq<Unspent>, i: nat, st: Selectors.Scan, request: int, now: int, d: nat,
                                            r: Selectors.Scan)
    requires i <= |ul|
    requires r == ExFundFrom(ul, i, st, request, now, d)
    requires Sorted(ul, true) && Sorted(st.picked, true)
    requires forall p, j :: p in st.picked && i <= j < |ul| ==> !Before(ul[j], p, true)
    ensures Sorted(r.picked, true)
    ensures multiset(r.picked) <= multiset(st.picked) + multiset(ul[i..])
    decreases |ul| - i
  {
    assert ul[i..] == if i == |ul| then [] else [ul[i]] + ul[i + 1..];
    if i == |ul| || request < st.total {
    } else if !Free(st.locks, Key(ul[i]), now) {
      ExFundFromSorted(ul, i + 1, st, request, now, d, r);
    } else {
      var u := ul[i];
      var locks := st.locks[Key(u) := now + d];
      if !(u.spendable || u.solvable) {
        ExFundFromSorted(ul, i + 1, Selectors.Scan(st.total, st.picked, locks), request, now, d, r);
      } else {
        var st' := Selectors.Scan(st.total + u.amount, st.picked + [u], locks);
        Selectors.PickKeepsOrder(ul, i, st.picked);
        ExFundFromSorted(ul, i + 1, st', request, now, d, r);
      }
    }
  }

  /**
   * The exchanger's `searchUnspent` on a successful `listunspent`: it
   * succeeds exactly when the coins taken sum to strictly more than the
   * request, and every coin taken is spendable or solvable and was free
   * before the call, no coin twice.
   */
  lemma ExSearchTaken(locks: map<CoinKey, int>, raw: seq<Unspent>, request: int, now: int, d: nat)
    ensures var sel := ExSearchSpec(locks, Some(raw), request, now, d).0;
      && (sel.error.None? <==> Sum(sel.coins) > request)
      && (sel.error.Some? ==> sel.error == Some(Selectors.InsufficientFunds))
      && (forall c :: c in sel.coins ==> (c.spendable || c.solvable) && Free(locks, Key(c), now))
      && (forall j, k :: 0 <= j < k < |sel.coins| ==> Key(sel.coins[j]) != Key(sel.coins[k]))
  {
    var ul := Sort(raw, true);
    var st0 := Selectors.Scan(0, [], locks);
    var st := ExFundFrom(ul, 0, st0, request, now, d);
    ExFundFromTotal(ul, 0, st0, request, now, d, st);
    ExFundFromTaken(ul, 0, st0, request, now, d, st);
    forall c | c in st.picked ensures (c.spendable || c.solvable) && Free(locks, Key(c), now) {
      var j :| 0 <= j < |st.picked| && st.picked[j] == c;
    }
  }

  /**
   * A successful selection of the exchanger is in descending `Less` order,
   * drawn from the candidates, and all its coins but the last sum to at most
   * the request.
   */
  lemma ExSearchFunds(locks: map<CoinKey, int>, raw: seq<Unspent>, request: int, now: int, d: nat)
    ensures var sel := ExSearchSpec(locks, Some(raw), request, now, d).0;
      sel.error.None? ==>
        && Sorted(sel.coins, true)
        && multiset(sel.coins) <= multiset(raw)
        && (|sel.coins| > 0 ==> Sum(sel.coins[..|sel.coins| - 1]) <= request)
  {
    var ul := Sort(raw, true);
    var st0 := Selectors.Scan(0, [], locks);
    var st := ExFundFrom(ul, 0, st0, request, now, d);
    var sel := ExSearchSpec(locks, Some(raw), request, now, d).0;
    assert sel.coins == st.picked && (sel.error.None? <==> request < st.total);
    if sel.error.None? {
      ExFundFromTotal(ul, 0, st0, request, now, d, st);
      ExFundFromSorted(ul, 0, st0, request, now, d, st);
      assert ul[0..] == ul;
      assert multiset(ul) == multiset(raw);
    }
  }

  /**
   * The locks the exchanger's `searchUnspent` leaves behind. It removes no
   * reservation except, on failure, those of the coins it had taken; every
   * entry it adds or renews is reserved until `now + d` for a candidate that
   * was free. On failure, every candidate that was free and is neither
   * spendable nor solvable stays reserved (a leaked lock) unless a coin taken
   * carries the same key.
   */
  lemma ExSearchLocks(locks: map<CoinKey, int>, raw: seq<Unspent>, request: int, now: int, d: nat)
    ensures var (sel, after) := ExSearchSpec(locks, Some(raw), request, now, d);
      && (forall k :: k in locks && k !in KeysOf(sel.coins) ==> k in after)
      && (forall k :: k in after && !(k in locks && after[k] == locks[k]) ==>
            after[k] == now + d && Free(locks, k, now) && exists c :: c in raw && Key(c) == k)
      && (sel.error.Some? ==>
            && (forall k :: k in KeysOf(sel.coins) ==> k !in after)
            && (forall c :: c in raw && Free(locks, Key(c), now) && !(c.spendable || c.solvable) && Key(c) !in KeysOf(sel.coins)
                  ==> Key(c) in after && after[Key(c)] == now + d))
  {
    var ul := Sort(raw, true);
    var st0 := Selectors.Scan(0, [], locks);
    var st := ExFundFrom(ul, 0, st0, request, now, d);
    ExFundFromGrows(ul, 0, st0, request, now, d, st);
    ExFundFromReached(ul, 0, st0, request, now, d, st);
    forall k | k in st.locks && !(k in locks && st.locks[k] == locks[k])
      ensures exists c :: c in raw && Key(c) == k
    {
      var j :| 0 <= j < |ul| && Key(ul[j]) == k;
      assert ul[j] in multiset(raw);
    }
    if request >= st.total {
      forall c | c in raw && Free(locks, Key(c), now) && !(c.spendable || c.solvable)
        ensures Key(c) in st.locks && st.locks[Key(c)] == now + d
      {
        assert c in multiset(ul);
        var j :| 0 <= j < |ul| && ul[j] == c;
      }
    }
  }

  // ---------------------------------------------------------------------
  // createTransactionTemplate and doSubmit
  // ---------------------------------------------------------------------

  datatype TemplateError = OfferAddressFailed | ChangeAddressFailed | BuilderFailed

  /** One `in=txid:vout:amount` argument per coin, in order. */
  function InputsWithAmount(utxos: seq<Unspent>): (ins: seq<Directive>)
    ensures |ins| == |utxos|
    ensures forall j :: 0 <= j < |utxos| ==> ins[j] == InWithAmount(utxos[j].txid, utxos[j].vout, utxos[j].amount)
  {
    if utxos == [] then []
    else InputsWithAmount(utxos[..|utxos| - 1]) + [InWithAmount(utxos[|utxos| - 1].txid, utxos[|utxos| - 1].vout, utxos[|utxos| - 1].amount)]
  }

  /** The loop of `createTransactionTemplate` that appends one input argument per coin. */
  method AppendInputsWithAmount(params: seq<Directive>, utxos: seq<Unspent>) returns (out: seq<Directive>)
    ensures out == params + InputsWithAmount(utxos)
  {
    out := params;
    for i := 0 to |utxos|
      invariant out == params + InputsWithAmount(utxos[..i])
    {
      assert utxos[..i + 1][..i] == utxos[..i];
      out := out + [InWithAmount(utxos[i].txid, utxos[i].vout, utxos[i].amount)];
    }
    assert utxos[..|utxos|] == utxos;
  }

  /**
   * The argument list of `createTransactionTemplate`. `addrOffer` and
   * `addrChange` are the outcomes of the two `getnewaddress` calls (None
   * when the call failed); the second call is made only when the change is
   * positive. The list is: the configured option when not empty, `-create`,
   * the inputs, an output of `cost` in the offered asset, and a change output
   * of (total - requested) in the requested asset only when that is positive.
   */
  method CreateTransactionTemplate(requestAsset: string, requestAmount: int, offer: string, cost: int,
                                   utxos: seq<Unspent>, assetIds: map<string, string>, txOption: string,
                                   addrOffer: Option<string>, addrChange: Option<string>)
    returns (r: Result<seq<Directive>, TemplateError>)
    ensures r == TemplateArgs(requestAsset, requestAmount, offer, cost, utxos, assetIds, txOption, addrOffer, addrChange)
    ensures var change := Sum(utxos) - requestAmount;
      && (addrOffer.None? ==> r == Failure(OfferAddressFailed))
      && (addrOffer.Some? && change > 0 && addrChange.None? ==> r == Failure(ChangeAddressFailed))
      && (r.Success? <==> addrOffer.Some? && (change > 0 ==> addrChange.Some?))
      && (r.Success? ==>
            r.value == (if txOption != "" then [Flag(txOption)] else [])
                       + [Create]
                       + InputsWithAmount(utxos)
                       + [OutAddr(cost, addrOffer.value, AssetId(assetIds, offer))]
                       + (if change > 0 then [OutAddr(change, addrChange.value, AssetId(assetIds, requestAsset))] else []))
  {
    var total := GetAmount(utxos);
    var change := total - requestAmount;
    if addrOffer.None? {
      return Failure(OfferAddressFailed);
    }
    var params: seq<Directive> := if txOption != "" then [Flag(txOption)] else [];
    params := params + [Create];
    params := AppendInputsWithAmount(params, utxos);
    params := params + [OutAddr(cost, addrOffer.value, AssetId(assetIds, offer))];
    var changeOut: seq<Directive> := [];
    if 0 < change {
      if addrChange.None? {
        return Failure(ChangeAddressFailed);
      }
      changeOut := [OutAddr(change, addrChange.value, AssetId(assetIds, requestAsset))];
    }
    return Success(params + changeOut);
  }

  /** The argument list `createTransactionTemplate` hands to the builder, or the address call that failed. */
  function TemplateArgs(requestAsset: string, requestAmount: int, offer: string, cost: int, utxos: seq<Unspent>,
                        assetIds: map<string, string>, txOption: string, addrOffer: Option<string>,
                        addrChange: Option<string>): Result<seq<Directive>, TemplateError>
  {
    var change := Sum(utxos) - requestAmount;
    if addrOffer.None? then Failure(OfferAddressFailed)
    else if change > 0 && addrChange.None? then Failure(ChangeAddressFailed)
    else Success((if txOption != "" then [Flag(txOption)] else []) + [Create] + InputsWithAmount(utxos)
                 + [OutAddr(cost, addrOffer.value, AssetId(assetIds, offer))]
                 + (if change > 0 then [OutAddr(change, addrChange.value, AssetId(assetIds, requestAsset))] else []))
  }

  /** `strings.TrimRight(out, "\n")`: the builder's output without its trailing newlines. */
  function TrimNewlines(out: string): (t: string)
    ensures t <= out
    ensures t == [] || t[|t| - 1] != '\n'
    ensures forall i :: |t| <= i < |out| ==> out[i] == '\n'
    decreases |out|
  {
    if out != [] && out[|out| - 1] == '\n' then TrimNewlines(out[..|out| - 1]) else out
  }

  /**
   * The template balances the requested asset. Every successful argument
   * list ends with an output: when the coins hold more than the request, the
   * change output in the requested asset, whose amount plus the request is
   * what the list's inputs carry; otherwise the payment of `cost` in the
   * offered asset.
   */
  lemma TemplateChange(requestAsset: string, requestAmount: int, offer: string, cost: int, utxos: seq<Unspent>,
                       assetIds: map<string, string>, txOption: string, addrOffer: Option<string>,
                       addrChange: Option<string>, t: Result<seq<Directive>, TemplateError>)
    requires t == TemplateArgs(requestAsset, requestAmount, offer, cost, utxos, assetIds, txOption, addrOffer, addrChange)
    ensures t.Success? ==> |t.value| > 0 && t.value[|t.value| - 1].OutAddr?
    ensures t.Success? && Sum(utxos) > requestAmount ==>
      && t.value[|t.value| - 1].asset == AssetId(assetIds, requestAsset)
      && t.value[|t.value| - 1].amount + requestAmount == InputTotal(t.value)
    ensures t.Success? && Sum(utxos) <= requestAmount ==>
      t.value[|t.value| - 1] == OutAddr(cost, addrOffer.value, AssetId(assetIds, offer))
  {
    if t.Success? {
      var change := Sum(utxos) - requestAmount;
      var opt: seq<Directive> := if txOption != "" then [Flag(txOption)] else [];
      var changeOut: seq<Directive> :=
        if change > 0 then [OutAddr(change, addrChange.value, AssetId(assetIds, requestAsset))] else [];
      var pay := OutAddr(cost, addrOffer.value, AssetId(assetIds, offer));
      assert t.value == opt + [Create] + InputsWithAmount(utxos) + [pay] + changeOut;
      TemplateShape(opt, InputsWithAmount(utxos), pay, changeOut);
      InputTotalIsSum(utxos);
    }
  }

  /**
   * A template's inputs carry all its input amounts, and it ends with the
   * change output when there is one, else with the payment.
   */
  lemma TemplateShape(opt: seq<Directive>, ins: seq<Directive>, pay: Directive, changeOut: seq<Directive>)
    requires forall i :: 0 <= i < |opt| ==> !opt[i].InWithAmount?
    requires !pay.InWithAmount?
    requires |changeOut| <= 1 && forall i :: 0 <= i < |changeOut| ==> !changeOut[i].InWithAmount?
    ensures var args := opt + [Create] + ins + [pay] + changeOut;
      && InputTotal(args) == InputTotal(ins)
      && args[|args| - 1] == (if changeOut == [] then pay else changeOut[0])
  {
    var head := opt + [Create];
    var tail := [pay] + changeOut;
    assert opt + [Create] + ins + [pay] + changeOut == head + ins + tail;
    InputTotalAppend(head, ins);
    InputTotalAppend(head + ins, tail);
    InputTotalNone(head);
    InputTotalNone(tail);
  }

  /** The amounts the `in=` arguments carry. */
  function InputTotal(args: seq<Directive>): int {
    if args == [] then 0
    else InputTotal(args[..|args| - 1]) + (if args[|args| - 1].InWithAmount? then args[|args| - 1].amount else 0)
  }

  lemma {:induction false} InputTotalIsSum(utxos: seq<Unspent>)
    ensures InputTotal(InputsWithAmount(utxos)) == Sum(utxos)
  {
    if utxos != [] {
      var init := utxos[..|utxos| - 1];
      InputTotalIsSum(init);
      assert InputsWithAmount(utxos)[..|utxos| - 1] == InputsWithAmount(init);
    }
  }

  lemma {:induction false} InputTotalAppend(a: seq<Directive>, b: seq<Directive>)
    ensures InputTotal(a + b) == InputTotal(a) + InputTotal(b)
    decreases |b|
  {
    if b == [] {
      assert a + b == a;
    } else {
      var b' := b[..|b| - 1];
      assert (a + b)[..|a + b| - 1] == a + b';
      InputTotalAppend(a, b');
    }
  }

  /** Arguments other than `in=txid:vout:amount` carry no input amount. */
  lemma {:induction false} InputTotalNone(args: seq<Directive>)
    requires forall i :: 0 <= i < |args| ==> !args[i].InWithAmount?
    ensures InputTotal(args) == 0
  {
    if args != [] {
      InputTotalNone(args[..|args| - 1]);
    }
  }

  datatype SubmitError = DecodeFailed | SignFailed | BroadcastFailed

  /** The keys a sequence of transaction inputs mentions. */
  function InputKeys(ins: seq<CoinKey>): (ks: set<CoinKey>)
    ensures forall k :: k in ks <==> k in ins
  {
    set k | k in ins
  }

  /**
   * `doSubmit`'s settlement: `vin` is the outcome of `decoderawtransaction`
   * (the inputs of the submitted transaction, None when decoding failed),
   * `signed` whether `signrawtransaction` succeeded, and `broadcast` the
   * outcome of `sendrawtransaction`. Only after a successful broadcast are
   * the inputs unlocked; on any failure the table is untouched.
   */
  method Submit(ll: LockTable, vin: Option<seq<CoinKey>>, signed: bool, broadcast: Option<string>)
    returns (r: Result<string, SubmitError>)
    modifies ll`entries
    ensures r.Success? <==> vin.Some? && signed && broadcast.Some?
    ensures vin.None? ==> r == Failure(DecodeFailed)
    ensures vin.Some? && !signed ==> r == Failure(SignFailed)
    ensures vin.Some? && signed && broadcast.None? ==> r == Failure(BroadcastFailed)
    ensures r.Success? ==> r.value == broadcast.value && ll.entries == old(ll.entries) - InputKeys(vin.value)
    ensures r.Failure? ==> ll.entries == old(ll.entries)
  {
    if vin.None? {
      return Failure(DecodeFailed);
    }
    if !signed {
      return Failure(SignFailed);
    }
    if broadcast.None? {
      return Failure(BroadcastFailed);
    }
    var ins := vin.value;
    for i := 0 to |ins|
      invariant ll.entries == old(ll.entries) - InputKeys(ins[..i])
    {
      assert InputKeys(ins[..i + 1]) == InputKeys(ins[..i]) + {ins[i]} by {
        assert ins[..i + 1] == ins[..i] + [ins[i]];
      }
      ll.Unlock(ins[i]);
    }
    assert ins[..|ins|] == ins;
    return Success(broadcast.value);
  }

  // ---------------------------------------------------------------------
  // doOffer
  // ---------------------------------------------------------------------

  /** The exchanger's configuration: the rate table, the asset-label map and the extra template option. */
  datatype Config = Config(rateTable: map<string, map<string, RateTuple>>, assetIds: map<string, string>, txOption: string)

  /**
   * How `doOffer` answers. A missing offer or a failed rate lookup is
   * answered as a normal reply carrying the error text; a failed coin
   * selection, address call or build is an error of the handler. An offer
   * carries the quotation with the builder's transaction, and the argument
   * list the builder was run with.
   */
  datatype OfferReply =
    | Offered(response: OfferResponse, args: seq<Directive>)
    | OfferMissing
    | RateRefused(rateError: RateError)
    | SelectionFailed(selectError: Selectors.SelectError)
    | TemplateFailed(templateError: TemplateError)

  /**
   * `doOffer` after the request body has been decoded into the requested
   * asset and amount and the optional offered asset. `addrOffer` and
   * `addrChange` are the outcomes of the two `getnewaddress` calls, and
   * `build` runs the external template builder on an argument list (None
   * when the command fails). A failed selection, address call or build is an
   * error of the handler, which leaves the selected coins reserved.
   */
  method DoOffer(ll: LockTable, cfg: Config, requestAsset: string, requestAmount: int, offer: Option<string>,
                 listed: Option<seq<Unspent>>, now: int, addrOffer: Option<string>, addrChange: Option<string>,
                 build: seq<Directive> -> Option<string>)
    returns (reply: OfferReply)
    modifies ll`entries
    ensures offer.None? ==> reply == OfferMissing && ll.entries == old(ll.entries)
    ensures offer.Some? && LookupRate(cfg.rateTable, requestAsset, requestAmount, offer.value).Failure? ==>
      reply == RateRefused(LookupRate(cfg.rateTable, requestAsset, requestAmount, offer.value).error) &&
      ll.entries == old(ll.entries)
    ensures offer.Some? && LookupRate(cfg.rateTable, requestAsset, requestAmount, offer.value).Success? ==>
      var quote := LookupRate(cfg.rateTable, requestAsset, requestAmount, offer.value).value;
      var (sel, after) := ExSearchSpec(old(ll.entries), listed, requestAmount, now, ll.duration);
      && ll.entries == after
      && (sel.error.Some? ==> reply == SelectionFailed(sel.error.value))
      && (sel.error.None? ==>
            var t := TemplateArgs(requestAsset, requestAmount, offer.value, quote.cost, sel.coins,
                                  cfg.assetIds, cfg.txOption, addrOffer, addrChange);
            && (t.Failure? ==> reply == TemplateFailed(t.error))
            && (t.Success? && build(t.value).None? ==> reply == TemplateFailed(BuilderFailed))
            && (t.Success? && build(t.value).Some? ==>
                  reply == Offered(quote.(transaction := TrimNewlines(build(t.value).value)), t.value)))
  {
    if offer.None? {
      return OfferMissing;
    }
    var quote := LookupRate(cfg.rateTable, requestAsset, requestAmount, offer.value);
    if quote.Failure? {
      return RateRefused(quote.error);
    }
    var sel := SearchUnspent(ll, listed, requestAmount, now);
    if sel.error.Some? {
      return SelectionFailed(sel.error.value);
    }
    var tx := CreateTransactionTemplate(requestAsset, requestAmount, offer.value, quote.value.cost, sel.coins,
                                        cfg.assetIds, cfg.txOption, addrOffer, addrChange);
    if tx.Failure? {
      return TemplateFailed(tx.error);
    }
    var out := build(tx.value);
    if out.None? {
      return TemplateFailed(BuilderFailed);
    }
    return Offered(quote.value.(transaction := TrimNewlines(out.value)), tx.value);
  }
}
