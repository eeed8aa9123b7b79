/**
 * Unspent outputs (coins) as the ledger's `listunspent` reports them, their
 * ordering (`UnspentList.Less`), their sum (`GetAmount`) and their asset
 * commitments (`GetCommitments`), from src/rpc/helper.go.
 */
module Coins {

  /** One entry of a `listunspent` answer. Amounts are in the ledger's smallest unit. */
  datatype Unspent = Unspent(
    txid: string,
    vout: int,
    amount: int,
    confirmations: int,
    spendable: bool,
    solvable: bool,
    assetCommitment: string)

  /**
   * The identity of a coin. The source keys its lock table by the text
   * `txid:vout`; since a decimal integer never contains ':', that text
   * determines the pair, so the pair is used directly.
   */
  datatype CoinKey = CoinKey(txid: string, vout: int)

  function Key(u: Unspent): CoinKey {
    CoinKey(u.txid, u.vout)
  }

  /** The keys of the coins of a list. */
  function KeysOf(ul: seq<Unspent>): (ks: set<CoinKey>)
    ensures forall i :: 0 <= i < |ul| ==> Key(ul[i]) in ks
    ensures forall k :: k in ks ==> exists i :: 0 <= i < |ul| && Key(ul[i]) == k
  {
    set i | 0 <= i < |ul| :: Key(ul[i])
  }

  lemma KeysOfConcat(a: seq<Unspent>, b: seq<Unspent>)
    ensures KeysOf(a) <= KeysOf(a + b) && KeysOf(b) <= KeysOf(a + b)
  {
    forall i | 0 <= i < |a| ensures Key(a[i]) in KeysOf(a + b) {
      assert (a + b)[i] == a[i];
    }
    forall i | 0 <= i < |b| ensures Key(b[i]) in KeysOf(a + b) {
      assert (a + b)[|a| + i] == b[i];
    }
  }

  lemma KeysOfAppend(a: seq<Unspent>, u: Unspent)
    ensures KeysOf(a + [u]) == KeysOf(a) + {Key(u)}
  {
    var b := a + [u];
    assert forall i :: 0 <= i < |a| ==> b[i] == a[i];
    assert b[|a|] == u;
  }

  /** No two coins of the list share a key: `listunspent` reports each output once. */
  predicate DistinctKeys(ul: seq<Unspent>) {
    forall a, b :: 0 <= a < b < |ul| ==> Key(ul[a]) != Key(ul[b])
  }

  /** A list with distinct keys holds each coin at most once. */
  lemma {:induction false} DistinctKeysOnce(ul: seq<Unspent>, u: Unspent)
    requires DistinctKeys(ul)
    ensures multiset(ul)[u] <= 1
  {
    if ul != [] {
      var t := ul[1..];
      assert ul == [ul[0]] + t;
      forall a, b | 0 <= a < b < |t| ensures Key(t[a]) != Key(t[b]) {
        assert t[a] == ul[a + 1] && t[b] == ul[b + 1];
      }
      DistinctKeysOnce(t, u);
      forall k | 0 <= k < |t| ensures t[k] != ul[0] {
        assert t[k] == ul[k + 1];
      }
      assert ul[0] !in t;
    }
  }

  /** Distinct keys survive any reordering, a sort in particular. */
  lemma DistinctKeysPermutation(s: seq<Unspent>, t: seq<Unspent>)
    requires DistinctKeys(s)
    requires multiset(s) == multiset(t)
    ensures DistinctKeys(t)
  {
    forall a, b | 0 <= a < b < |t| ensures Key(t[a]) != Key(t[b]) {
      assert t == t[..b] + t[b..];
      assert t[..b][a] == t[a] && t[b..][0] == t[b];
      assert multiset(t) == multiset(t[..b]) + multiset(t[b..]);
      DistinctKeysOnce(s, t[a]);
      assert t[a] in multiset(s) && t[b] in multiset(s);
      var p :| 0 <= p < |s| && s[p] == t[a];
      var q :| 0 <= q < |s| && s[q] == t[b];
    }
  }

  /** `UnspentList.Less`: smaller amount first, then fewer confirmations. */
  predicate Less(a: Unspent, b: Unspent) {
    if a.amount < b.amount then true
    else if a.amount > b.amount then false
    else a.confirmations < b.confirmations
  }

  /**
   * The order a sort produces: ascending by `Less`, or, for
   * `sort.Sort(sort.Reverse(...))`, descending.
   */
  predicate Before(a: Unspent, b: Unspent, descending: bool) {
    if descending then Less(b, a) else Less(a, b)
  }

  ghost predicate Sorted(s: seq<Unspent>, descending: bool) {
    forall i, j :: 0 <= i < j < |s| ==> !Before(s[j], s[i], descending)
  }

  /** "Not before" is transitive: `Less` orders coins by a pair of integers. */
  lemma NotBeforeTransitive(a: Unspent, b: Unspent, c: Unspent, descending: bool)
    requires !Before(b, a, descending) && !Before(c, b, descending)
    ensures !Before(c, a, descending)
  {
  }

  lemma SortedCons(h: Unspent, t: seq<Unspent>, descending: bool)
    requires Sorted(t, descending)
    requires forall j :: 0 <= j < |t| ==> !Before(t[j], h, descending)
    ensures Sorted([h] + t, descending)
  {
    var r := [h] + t;
    forall i, j | 0 <= i < j < |r| ensures !Before(r[j], r[i], descending) {
      assert r[j] == t[j - 1];
      if i > 0 { assert r[i] == t[i - 1]; }
    }
  }

  function Insert(x: Unspent, s: seq<Unspent>, descending: bool): (r: seq<Unspent>)
    requires Sorted(s, descending)
    ensures Sorted(r, descending)
    ensures multiset(r) == multiset(s) + multiset{x}
    ensures forall z :: z in r ==> z == x || z in s
  {
    if s == [] then [x]
    else if !Before(s[0], x, descending) then
      assert forall k :: 0 <= k < |s| ==> !Before(s[k], x, descending) by {
        forall k | 0 <= k < |s| ensures !Before(s[k], x, descending) {
          if k > 0 { NotBeforeTransitive(x, s[0], s[k], descending); }
        }
      }
      SortedCons(x, s, descending);
      [x] + s
    else
      var rest := Insert(x, s[1..], descending);
      assert s == [s[0]] + s[1..];
      assert forall j :: 0 <= j < |rest| ==> !Before(rest[j], s[0], descending) by {
        forall j | 0 <= j < |rest| ensures !Before(rest[j], s[0], descending) {
          if rest[j] != x {
            assert rest[j] in rest;
            assert rest[j] in s[1..];
            var k :| 0 <= k < |s[1..]| && s[1..][k] == rest[j];
            assert s[k + 1] == rest[j];
          }
        }
      }
      SortedCons(s[0], rest, descending);
      [s[0]] + rest
  }

  /**
   * A sorted permutation of the candidates, standing for Go's `sort.Sort`.
   * Go's sort is not stable: coins equal in amount and confirmations may
   * come out in another order there; every property below holds for any
   * sorted permutation.
   */
  function Sort(s: seq<Unspent>, descending: bool): (r: seq<Unspent>)
    ensures Sorted(r, descending)
    ensures multiset(r) == multiset(s)
    ensures |r| == |s|
  {
    if s == [] then []
    else
      assert s == [s[0]] + s[1..];
      Insert(s[0], Sort(s[1..], descending), descending)
  }

  /** The total amount of a list of coins. */
  function Sum(ul: seq<Unspent>): int {
    if ul == [] then 0 else Sum(ul[..|ul| - 1]) + ul[|ul| - 1].amount
  }

  lemma SumSnoc(a: seq<Unspent>, u: Unspent)
    ensures Sum(a + [u]) == Sum(a) + u.amount
  {
    assert (a + [u])[..|a|] == a;
  }

  lemma {:induction false} SumAppend(a: seq<Unspent>, b: seq<Unspent>)
    ensures Sum(a + b) == Sum(a) + Sum(b)
    decreases |b|
  {
    if b == [] {
      assert a + b == a;
    } else {
      var b' := b[..|b| - 1];
      assert (a + b)[..|a + b| - 1] == a + b';
      SumAppend(a, b');
    }
  }

  /** `GetAmount` (also `getAmount` in the exchanger and in the trader). */
  method GetAmount(ul: seq<Unspent>) returns (total: int)
    ensures total == Sum(ul)
  {
    total := 0;
    for i := 0 to |ul|
      invariant total == Sum(ul[..i])
    {
      assert ul[..i + 1][..i] == ul[..i];
      total := total + ul[i].amount;
    }
    assert ul[..|ul|] == ul;
  }

  /** The asset commitment of every coin, in order. */
  function Commitments(utxos: seq<Unspent>): seq<string>
  {
    seq(|utxos|, i requires 0 <= i < |utxos| => utxos[i].assetCommitment)
  }

  /** `GetCommitments`: the asset commitment of every coin, in order, in a buffer of the list's length. */
  method GetCommitments(utxos: seq<Unspent>) returns (commitments: seq<string>)
    ensures |commitments| == |utxos|
    ensures forall i :: 0 <= i < |utxos| ==> commitments[i] == utxos[i].assetCommitment
    ensures commitments == Commitments(utxos)
  {
    var buffer := new string[|utxos|](_ => "");
    for i := 0 to |utxos|
      invariant forall j :: 0 <= j < i ==> buffer[j] == utxos[j].assetCommitment
    {
      buffer[i] := utxos[i].assetCommitment;
    }
    commitments := buffer[..];
  }
}
