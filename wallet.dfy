/**
 * The paying page: reading an invoice URI into the pay information it shows
 * (`getPayInfo`), and the affordability of each exchange offer against the
 * wallet's balances (`setExchangeRate`).
 *
 * A thrown exception ends the handler where it is thrown; the model reports
 * it as an outcome and keeps whatever the handler had assigned before it.
 */
module Wallet {
  import opened Wrappers
  import FormEncoding
  import Merchant

  /**
   * `s.split(sep)` with a one-character separator: the pieces between the
   * separators, in order; there is always at least one.
   */
  function Split(s: string, sep: char): (r: seq<string>)
    ensures |r| >= 1
    ensures forall i :: 0 <= i < |r| ==> sep !in r[i]
    decreases |s|
  {
    if s == [] then [[]]
    else
      var rest := Split(s[1..], sep);
      if s[0] == sep then [[]] + rest else [[s[0]] + rest[0]] + rest[1..]
  }

  /** The pieces put back together with the separator between them. */
  function Join(pieces: seq<string>, sep: char): string
  {
    if pieces == [] then [] else if |pieces| == 1 then pieces[0] else pieces[0] + [sep] + Join(pieces[1..], sep)
  }

  /** Splitting loses nothing: joining the pieces gives the text back. */
  lemma {:induction false} SplitJoin(s: string, sep: char)
    ensures Join(Split(s, sep), sep) == s
    decreases |s|
  {
    if s != [] {
      var rest := Split(s[1..], sep);
      SplitJoin(s[1..], sep);
      if s[0] == sep {
        assert Split(s, sep)[1..] == rest;
        assert s == [sep] + s[1..];
      } else {
        var r := Split(s, sep);
        if |rest| == 1 {
          assert s == [s[0]] + s[1..];
        } else {
          assert r[1..] == rest[1..];
          assert Join(rest, sep) == rest[0] + [sep] + Join(rest[1..], sep);
          assert s == [s[0]] + s[1..];
        }
      }
    }
  }

  /** Text holding no separator is one piece. */
  lemma {:induction false} SplitWhole(a: string, sep: char)
    requires sep !in a
    ensures Split(a, sep) == [a]
    decreases |a|
  {
    if a != [] {
      SplitWhole(a[1..], sep);
      assert a == [a[0]] + a[1..];
    }
  }

  /** The first piece ends at the first separator. */
  lemma {:induction false} SplitAt(a: string, sep: char, b: string)
    requires sep !in a
    ensures Split(a + [sep] + b, sep) == [a] + Split(b, sep)
    decreases |a|
  {
    var s := a + [sep] + b;
    if a == [] {
      assert s[1..] == b;
    } else {
      assert s[1..] == a[1..] + [sep] + b;
      SplitAt(a[1..], sep, b);
      assert a == [a[0]] + a[1..];
    }
  }

  // ---------------------------------------------------------------------------
  // getPayInfo
  // ---------------------------------------------------------------------------

  datatype PayOutcome =
    | Accepted  // the order is shown and an offer is asked for
    | Rejected  // the "Incorrect payment info format" alert; the pay information is emptied
    | Threw     // `q[1].split` or `decodeURIComponent` threw

  /** The pay information after the loop over `&`-pieces, and whether it was cut short by a throw. */
  datatype Filled = Filled(info: map<string, string>, threw: bool)

  /**
   * The loop over the `&`-pieces: a piece that splits on `=` into exactly
   * two parts stores its decoded value under its (undecoded) key, replacing
   * any earlier value; other pieces are skipped; a value that does not
   * decode stops everything.
   */
  function Fill(info: map<string, string>, pieces: seq<string>): Filled
    decreases |pieces|
  {
    if pieces == [] then Filled(info, false)
    else
      var kv := Split(pieces[0], '=');
      if |kv| != 2 then Fill(info, pieces[1..])
      else
        match FormEncoding.FormValue(kv[1])
        case None => Filled(info, true)
        case Some(v) => Fill(info[kv[0] := v], pieces[1..])
  }

  /** name, addr, price and asset are all present and non-empty (all four truthy). */
  predicate Complete(info: map<string, string>)
  {
    && "name" in info && info["name"] != []
    && "addr" in info && info["addr"] != []
    && "price" in info && info["price"] != []
    && "asset" in info && info["asset"] != []
  }

  /**
   * What `getPayInfo` makes of `uri`: the outcome and the pay information
   * it leaves. Only a URI whose text before the first `?` is exactly
   * `px:invoice` is read, and only the text up to the next `?`; anything
   * else empties the pay information.
   */
  function PayInfo(uri: string): (r: (PayOutcome, map<string, string>))
    ensures Split(uri, '?')[0] != "px:invoice" ==> r == (Rejected, map[])
    ensures r.0 == Accepted ==> Complete(r.1)
    ensures r.0 == Rejected ==> r.1 == map[]
  {
    var q := Split(uri, '?');
    if q[0] != "px:invoice" then (Rejected, map[])
    else if |q| < 2 then (Threw, map[])
    else
      var f := Fill(map[], Split(q[1], '&'));
      if f.threw then (Threw, f.info)
      else if Complete(f.info) then (Accepted, f.info)
      else (Rejected, map[])
  }

  /**
   * Pieces are taken in order, so a later piece for a key replaces an earlier
   * one, and a piece without exactly one `=` changes nothing.
   */
  lemma {:induction false} FillLastPieceWins(info: map<string, string>, pieces: seq<string>, p: string)
    requires !Fill(info, pieces).threw
    ensures var f := Fill(info, pieces).info;
      var kv := Split(p, '=');
      && (|kv| != 2 ==> Fill(info, pieces + [p]) == Filled(f, false))
      && (|kv| == 2 && FormEncoding.FormValue(kv[1]).Some? ==>
            Fill(info, pieces + [p]) == Filled(f[kv[0] := FormEncoding.FormValue(kv[1]).value], false))
    decreases |pieces|
  {
    var kv := Split(p, '=');
    if pieces == [] {
      assert [p][1..] == [];
    } else {
      assert (pieces + [p])[0] == pieces[0] && (pieces + [p])[1..] == pieces[1..] + [p];
      var kv0 := Split(pieces[0], '=');
      if |kv0| != 2 {
        FillLastPieceWins(info, pieces[1..], p);
      } else {
        FillLastPieceWins(info[kv0[0] := FormEncoding.FormValue(kv0[1]).value], pieces[1..], p);
      }
    }
  }

  /**
   * Without a throw, the keys of the pay information are the keys it
   * started with and those of the pieces that split into exactly two parts.
   */
  lemma {:induction false} FillKeys(info: map<string, string>, pieces: seq<string>)
    requires !Fill(info, pieces).threw
    ensures forall k :: k in Fill(info, pieces).info <==>
      k in info || exists i :: 0 <= i < |pieces| && |Split(pieces[i], '=')| == 2 && Split(pieces[i], '=')[0] == k
    decreases |pieces|
  {
    if pieces != [] {
      var kv := Split(pieces[0], '=');
      var next := if |kv| != 2 then info else info[kv[0] := FormEncoding.FormValue(kv[1]).value];
      FillKeys(next, pieces[1..]);
      forall k ensures k in Fill(info, pieces).info <==>
        k in info || exists i :: 0 <= i < |pieces| && |Split(pieces[i], '=')| == 2 && Split(pieces[i], '=')[0] == k
      {
        if exists i :: 1 <= i < |pieces| && |Split(pieces[i], '=')| == 2 && Split(pieces[i], '=')[0] == k {
          var i :| 1 <= i < |pieces| && |Split(pieces[i], '=')| == 2 && Split(pieces[i], '=')[0] == k;
          assert pieces[1..][i - 1] == pieces[i];
        }
        if exists i :: 0 <= i < |pieces[1..]| && |Split(pieces[1..][i], '=')| == 2 && Split(pieces[1..][i], '=')[0] == k {
          var i :| 0 <= i < |pieces[1..]| && |Split(pieces[1..][i], '=')| == 2 && Split(pieces[1..][i], '=')[0] == k;
          assert pieces[i + 1] == pieces[1..][i];
        }
      }
    }
  }

  class PayPage {
    /** The pay information the page holds. */
    var payinfo: map<string, string>

    constructor()
      ensures payinfo == map[]
    {
      payinfo := map[];
    }

    /** `getPayInfo` on the text `uri` of the address field. */
    method GetPayInfo(uri: string) returns (outcome: PayOutcome)
      modifies this`payinfo
      ensures (outcome, payinfo) == PayInfo(uri)
    {
      var q := Split(uri, '?');
      if q[0] == "px:invoice" {
        payinfo := map[];
        if |q| < 2 {
          return Threw;
        }
        var pieces := Split(q[1], '&');
        var i := 0;
        while i < |pieces|
          invariant 0 <= i <= |pieces|
          invariant Fill(payinfo, pieces[i..]) == Fill(map[], pieces)
        {
          assert pieces[i..][0] == pieces[i] && pieces[i..][1..] == pieces[i + 1..];
          var kv := Split(pieces[i], '=');
          if |kv| == 2 {
            var v := FormEncoding.FormValue(kv[1]);
            if v.None? {
              return Threw;
            }
            payinfo := payinfo[kv[0] := v.value];
          }
          i := i + 1;
        }
        if Complete(payinfo) {
          return Accepted;
        }
      }
      payinfo := map[];
      return Rejected;
    }
  }

  // ---------------------------------------------------------------------------
  // The invoice round trip
  // ---------------------------------------------------------------------------

  /**
   * The page reads back exactly what the merchant put in an invoice: the
   * URI is accepted with the four fields name, addr, price and asset, each
   * the text the merchant encoded, unless the name, the address or the asset
   * is empty, in which case it is rejected.
   */
  lemma InvoiceRoundTrip(name: string, addr: string, it: Merchant.Item)
    ensures var price := Merchant.PriceText(it.price);
      PayInfo(Merchant.InvoiceUri(name, addr, it)) ==
        if name != [] && addr != [] && it.asset != [] then
          (Accepted, map["addr" := addr, "asset" := it.asset, "name" := name, "price" := price])
        else (Rejected, map[])
  {
    ReadInvoice(name, addr, Merchant.PriceText(it.price), it.asset);
  }

  /** The same, for any non-empty price text. */
  lemma ReadInvoice(name: string, addr: string, price: string, asset: string)
    requires price != []
    ensures var query := Merchant.KeyField("addr", addr) + "&" + (Merchant.KeyField("asset", asset) + "&"
                         + (Merchant.KeyField("name", name) + "&" + Merchant.KeyField("price", price)));
      PayInfo("px:invoice?" + query) ==
        if name != [] && addr != [] && asset != [] then
          (Accepted, map["addr" := addr, "asset" := asset, "name" := name, "price" := price])
        else (Rejected, map[])
  {
    assert Delimiterless("addr") && Delimiterless("asset") && Delimiterless("name") && Delimiterless("price");
    ReadFields("addr", "asset", "name", "price", addr, asset, name, price);
    var query := Merchant.KeyField("addr", addr) + "&" + (Merchant.KeyField("asset", asset) + "&"
                 + (Merchant.KeyField("name", name) + "&" + Merchant.KeyField("price", price)));
    CompleteInvoice(addr, asset, name, price);
    ReadQuery(query, map["addr" := addr, "asset" := asset, "name" := name, "price" := price]);
  }

  /** Four `key=value` fields joined by `&` read back, in order, into the map of their values. */
  lemma ReadFields(k0: string, k1: string, k2: string, k3: string, v0: string, v1: string, v2: string, v3: string)
    requires Delimiterless(k0) && Delimiterless(k1) && Delimiterless(k2) && Delimiterless(k3)
    ensures var query := Merchant.KeyField(k0, v0) + "&" + (Merchant.KeyField(k1, v1) + "&"
                         + (Merchant.KeyField(k2, v2) + "&" + Merchant.KeyField(k3, v3)));
      && '?' !in query
      && Fill(map[], Split(query, '&')) == Filled(map[k0 := v0, k1 := v1, k2 := v2, k3 := v3], false)
  {
    var f0, f1, f2, f3 := Merchant.KeyField(k0, v0), Merchant.KeyField(k1, v1),
                          Merchant.KeyField(k2, v2), Merchant.KeyField(k3, v3);
    ReadField(k0, v0);
    ReadField(k1, v1);
    ReadField(k2, v2);
    ReadField(k3, v3);
    SplitPieces(f0, f1, f2, f3);
    FillFields(k0, k1, k2, k3, v0, v1, v2, v3);
  }

  /** A `px:invoice` URI whose query reads into `info` without a throw is accepted exactly when `info` is complete. */
  lemma ReadQuery(query: string, info: map<string, string>)
    requires '?' !in query
    requires Fill(map[], Split(query, '&')) == Filled(info, false)
    ensures PayInfo("px:invoice?" + query) == if Complete(info) then (Accepted, info) else (Rejected, map[])
  {
    SplitScheme(query);
  }

  /** Text holding none of the delimiters the page splits on. */
  predicate Delimiterless(key: string)
  {
    '?' !in key && '&' !in key && '=' !in key
  }

  lemma CompleteInvoice(addr: string, asset: string, name: string, price: string)
    requires price != []
    ensures Complete(map["addr" := addr, "asset" := asset, "name" := name, "price" := price])
        <==> name != [] && addr != [] && asset != []
  {
    var info := map["addr" := addr, "asset" := asset, "name" := name, "price" := price];
    assert info["addr"] == addr && info["asset"] == asset && info["name"] == name && info["price"] == price;
  }

  lemma SplitScheme(query: string)
    requires '?' !in query
    ensures Split("px:invoice?" + query, '?') == ["px:invoice", query]
  {
    SplitWhole(query, '?');
    SplitAt("px:invoice", '?', query);
    assert "px:invoice?" + query == "px:invoice" + ['?'] + query;
  }

  lemma SplitPieces(f0: string, f1: string, f2: string, f3: string)
    requires '&' !in f0 && '&' !in f1 && '&' !in f2 && '&' !in f3
    ensures Split(f0 + "&" + (f1 + "&" + (f2 + "&" + f3)), '&') == [f0, f1, f2, f3]
  {
    SplitWhole(f3, '&');
    SplitAt(f2, '&', f3);
    SplitAt(f1, '&', f2 + "&" + f3);
    SplitAt(f0, '&', f1 + "&" + (f2 + "&" + f3));
  }

  /** One `key=` field of the invoice splits on `=` into its key and escaped value, and the value decodes. */
  lemma ReadField(key: string, value: string)
    requires Delimiterless(key)
    ensures '?' !in Merchant.KeyField(key, value) && '&' !in Merchant.KeyField(key, value)
    ensures Split(Merchant.KeyField(key, value), '=') == [key, FormEncoding.QueryEscape(value)]
    ensures FormEncoding.FormValue(FormEncoding.QueryEscape(value)) == Some(value)
  {
    var e := FormEncoding.QueryEscape(value);
    FormEncoding.QueryEscapeAlphabet(value);
    FormEncoding.QueryEscapeRoundTrip(value);
    SplitWhole(e, '=');
    SplitAt(key, '=', e);
    assert Merchant.KeyField(key, value) == key + ['='] + e;
  }

  /** The loop over four fields stores each decoded value under its key, later keys last. */
  lemma FillFields(k0: string, k1: string, k2: string, k3: string, v0: string, v1: string, v2: string, v3: string)
    requires Split(Merchant.KeyField(k0, v0), '=') == [k0, FormEncoding.QueryEscape(v0)]
    requires Split(Merchant.KeyField(k1, v1), '=') == [k1, FormEncoding.QueryEscape(v1)]
    requires Split(Merchant.KeyField(k2, v2), '=') == [k2, FormEncoding.QueryEscape(v2)]
    requires Split(Merchant.KeyField(k3, v3), '=') == [k3, FormEncoding.QueryEscape(v3)]
    requires FormEncoding.FormValue(FormEncoding.QueryEscape(v0)) == Some(v0)
    requires FormEncoding.FormValue(FormEncoding.QueryEscape(v1)) == Some(v1)
    requires FormEncoding.FormValue(FormEncoding.QueryEscape(v2)) == Some(v2)
    requires FormEncoding.FormValue(FormEncoding.QueryEscape(v3)) == Some(v3)
    ensures Fill(map[], [Merchant.KeyField(k0, v0), Merchant.KeyField(k1, v1),
                         Merchant.KeyField(k2, v2), Merchant.KeyField(k3, v3)])
         == Filled(map[k0 := v0, k1 := v1, k2 := v2, k3 := v3], false)
  {
    var pieces := [Merchant.KeyField(k0, v0), Merchant.KeyField(k1, v1),
                   Merchant.KeyField(k2, v2), Merchant.KeyField(k3, v3)];
    var m1 := map[k0 := v0];
    var m2 := m1[k1 := v1];
    var m3 := m2[k2 := v2];
    var m4 := m3[k3 := v3];
    assert pieces[1..][1..] == pieces[2..] && pieces[2..][1..] == pieces[3..] && pieces[3..][1..] == [];
    assert Fill(m4, []) == Filled(m4, false);
    assert Fill(m3, pieces[3..]) == Filled(m4, false);
    assert Fill(m2, pieces[2..]) == Filled(m4, false);
    assert Fill(m1, pieces[1..]) == Filled(m4, false);
    assert Fill(map[], pieces) == Filled(m4, false);
  }

  // ---------------------------------------------------------------------------
  // setExchangeRate
  // ---------------------------------------------------------------------------

  /** The exchanger's offer for one asset, in that asset. */
  datatype Offer = Offer(cost: int, fee: int)

  /** What the page shows for one asset: the total to pay, what would remain, and whether the button is enabled. */
  datatype RateRow = RateRow(total: int, remainder: int, payable: bool)

  /**
   * The row for an offer against a balance: the total is cost plus fee, the
   * remainder the balance less the total, and the offer is payable exactly
   * when the remainder is not negative.
   */
  function Row(offer: Offer, balance: int): (r: RateRow)
    ensures r.total == offer.cost + offer.fee
    ensures r.payable <==> offer.cost + offer.fee <= balance
    ensures r.payable <==> r.remainder >= 0
    ensures r.total + r.remainder == balance
  {
    var total := offer.cost + offer.fee;
    RateRow(total, balance - total, total <= balance)
  }

  /**
   * `setExchangeRate`: a row for every offered asset, in an unspecified
   * order. An asset the wallet holds no entry for makes the handler throw
   * when it is reached, leaving only the rows drawn before it; the handler
   * throws exactly when some offered asset is missing from the wallet.
   */
  method SetExchangeRate(offer: Option<map<string, Offer>>, wallets: map<string, int>)
    returns (rows: map<string, RateRow>, threw: bool)
    ensures offer.None? ==> rows == map[] && !threw
    ensures offer.Some? ==>
      && (forall k :: k in rows ==> k in offer.value && k in wallets && rows[k] == Row(offer.value[k], wallets[k]))
      && (threw <==> exists k :: k in offer.value && k !in wallets)
      && (!threw ==> rows.Keys == offer.value.Keys)
  {
    rows, threw := map[], false;
    if offer.None? {
      return;
    }
    var todo := offer.value.Keys;
    while todo != {}
      invariant todo <= offer.value.Keys
      invariant rows.Keys == offer.value.Keys - todo
      invariant forall k :: k in rows ==> k in wallets && rows[k] == Row(offer.value[k], wallets[k])
      decreases todo
    {
      var key :| key in todo;
      if key !in wallets {
        threw := true;
        return;
      }
      rows := rows[key := Row(offer.value[key], wallets[key])];
      todo := todo - {key};
    }
  }
}
