/**
 * The merchant's order book: orders are created with an invoice URI for a
 * catalogue item, and a polling pass moves each pending order to paid once
 * enough has been received at its address, or to timed out once its
 * deadline has passed.
 *
 * Prices and received amounts are whole numbers; instants are Unix seconds.
 * The clock and the ledger query are inputs: `clock(i)` is the instant read
 * while the pass looks at the `i`-th order and `received(i)` the answer of
 * `getreceivedbyaddress` for it (`None` when the call fails).
 */
module Merchant {
  import opened Wrappers
  import FormEncoding

  /** The order statuses. */
  const Pending: int := 0
  const Paid: int := 1
  const Expired: int := -1

  datatype Item = Item(price: nat, asset: string, timeout: int)

  datatype Order = Order(item: string, addr: string, status: int, asset: string, price: nat,
                         timeout: int, lastModify: int)

  /** The shop's one item. */
  const Catalogue: map<string, Item> := map["Caramel Macchiato Coffee" := Item(200, "MELON", 60 * 60)]

  /**
   * What one polling pass does to one order, at instant `now` and with the
   * ledger's answer `received`: only a pending order moves; it times out
   * when its deadline is not after `now`, whatever was received, and
   * otherwise it is paid exactly when the query succeeded with at least its
   * price. Nothing but the status and the modification instant ever changes.
   */
  function Step(o: Order, now: int, received: Option<int>): (r: Order)
    ensures o.status != Pending ==> r == o
    ensures r.(status := o.status, lastModify := o.lastModify) == o
    ensures o.status == Pending && o.timeout <= now ==> r.status == Expired && r.lastModify == now
    ensures o.status == Pending && now < o.timeout ==>
      (r.status == Paid <==> received.Some? && received.value >= o.price)
    ensures r.status == Paid && o.status != Paid ==> r.lastModify == now
    ensures r.status == Pending ==> r == o
    ensures o.status == Pending && now < o.timeout && !(received.Some? && received.value >= o.price) ==> r == o
  {
    if o.status != Pending then o
    else if o.timeout <= now then o.(status := Expired, lastModify := now)
    else
      match received
      case None => o
      case Some(amount) => if amount >= o.price then o.(status := Paid, lastModify := now) else o
  }

  /** The order after a series of polling passes, one (instant, answer) pair per pass. */
  function Passes(o: Order, polls: seq<(int, Option<int>)>): Order
    decreases |polls|
  {
    if polls == [] then o else Passes(Step(o, polls[0].0, polls[0].1), polls[1..])
  }

  /** Paid and timed-out orders are final: no later pass touches them. */
  lemma {:induction false} SettledOrdersStay(o: Order, polls: seq<(int, Option<int>)>)
    requires o.status != Pending
    ensures Passes(o, polls) == o
  {
    if polls != [] {
      SettledOrdersStay(Step(o, polls[0].0, polls[0].1), polls[1..]);
    }
  }

  /**
   * Once a pass runs at or after an order's deadline, the order is settled:
   * after any series of passes holding one such pass it is paid or timed out.
   */
  lemma {:induction false} DeadlineSettles(o: Order, polls: seq<(int, Option<int>)>, k: nat)
    requires o.status in {Pending, Paid, Expired}
    requires k < |polls| && o.timeout <= polls[k].0
    ensures Passes(o, polls).status in {Paid, Expired}
    decreases k
  {
    var next := Step(o, polls[0].0, polls[0].1);
    if k == 0 {
      assert next.status in {Paid, Expired};
      SettledOrdersStay(next, polls[1..]);
    } else {
      assert polls[1..][k - 1] == polls[k];
      DeadlineSettles(next, polls[1..], k - 1);
    }
  }

  /** Text of a decimal numeral. */
  function DecimalDigits(n: nat): (r: string)
    ensures r != [] && forall i :: 0 <= i < |r| ==> '0' <= r[i] <= '9'
    ensures n > 0 ==> r[0] != '0'
  {
    if n < 10 then [('0' as int + n) as char] else DecimalDigits(n / 10) + [('0' as int + n % 10) as char]
  }

  /** The value of a numeral, as an inverse for `DecimalDigits`. */
  function DecimalValue(s: string): int
  {
    if s == [] then 0 else 10 * DecimalValue(s[..|s| - 1]) + (s[|s| - 1] as int - '0' as int)
  }

  lemma {:induction false} DecimalRoundTrip(n: nat)
    ensures DecimalValue(DecimalDigits(n)) == n
  {
    var r := DecimalDigits(n);
    if n >= 10 {
      DecimalRoundTrip(n / 10);
      assert r[..|r| - 1] == DecimalDigits(n / 10);
    }
  }

  function TrimZeros(s: string): (r: string)
    ensures |r| <= |s| && r == s[..|r|]
    ensures s != [] && s[0] != '0' ==> r != [] && r[0] == s[0]
  {
    if s != [] && s[|s| - 1] == '0' then TrimZeros(s[..|s| - 1]) else s
  }

  /**
   * `fmt.Sprintf("%v", price)` of a whole-number float: its numeral below a
   * million, and from a million on the shortest `d.ddde+XX` form.
   */
  function PriceText(p: nat): (r: string)
    ensures r != []
    ensures p < 1000000 ==> DecimalValue(r) == p
  {
    var ds := DecimalDigits(p);
    if p < 1000000 then
      DecimalRoundTrip(p);
      ds
    else
      var m := TrimZeros(ds);
      var e := |ds| - 1;
      [m[0]] + (if |m| > 1 then ['.'] + m[1..] else []) + "e+" + (if e < 10 then "0" else "") + DecimalDigits(e)
  }

  /** The invoice fields in the order the handler sets them. */
  function InvoiceFields(name: string, addr: string, it: Item): seq<(string, string)>
  {
    [("name", name), ("addr", addr), ("price", PriceText(it.price)), ("asset", it.asset)]
  }

  /**
   * The invoice URI handed out for an order: `px:invoice?`, then the fields
   * sorted by key (addr, asset, name, price), each `key=` and the escaped
   * value, joined with `&`. `InvoiceUriEncodes` shows this is `px:invoice?`
   * followed by `url.Values.Encode` of the fields as the handler sets them.
   */
  function InvoiceUri(name: string, addr: string, it: Item): string
  {
    "px:invoice?" + (KeyField("addr", addr) + "&" + (KeyField("asset", it.asset) + "&"
      + (KeyField("name", name) + "&" + KeyField("price", PriceText(it.price)))))
  }

  /** The invoice URI is `px:invoice?` followed by the form encoding of the invoice fields. */
  lemma InvoiceUriEncodes(name: string, addr: string, it: Item)
    ensures InvoiceUri(name, addr, it) == "px:invoice?" + FormEncoding.Encode(InvoiceFields(name, addr, it))
  {
    EncodeInvoiceFields(name, addr, PriceText(it.price), it.asset);
  }

  /** `key=` followed by the escaped value. */
  function KeyField(key: string, value: string): string
  {
    key + "=" + FormEncoding.QueryEscape(value)
  }

  /** Text that `QueryEscape` leaves as it is: letters, digits and `-_.~` only. */
  predicate Plain(key: string)
  {
    forall i :: 0 <= i < |key| ==> FormEncoding.Unreserved(key[i] as int)
  }

  /**
   * `url.Values.Encode` of the invoice fields, set in the order name, addr,
   * price, asset: sorted by key to addr, asset, name, price and joined with
   * `&`, each key kept as it is and each value escaped.
   */
  lemma EncodeInvoiceFields(name: string, addr: string, price: string, asset: string)
    ensures FormEncoding.Encode([("name", name), ("addr", addr), ("price", price), ("asset", asset)]) ==
      KeyField("addr", addr) + "&" + (KeyField("asset", asset) + "&" + (KeyField("name", name) + "&" + KeyField("price", price)))
  {
    assert FormEncoding.Before("asset", "price") && !FormEncoding.Before("asset", "addr");
    assert FormEncoding.Before("addr", "name") && FormEncoding.Before("asset", "name");
    assert !FormEncoding.Before("price", "name");
    assert Plain("name") && Plain("addr") && Plain("price") && Plain("asset");
    EncodeFourFields("name", "addr", "price", "asset", name, addr, price, asset);
  }

  /** The same for any four plain keys that `sort.Strings` puts in the order of the invoice keys. */
  lemma EncodeFourFields(kn: string, kad: string, kp: string, kas: string, n: string, ad: string, p: string, at: string)
    requires FormEncoding.Before(kas, kp) && !FormEncoding.Before(kas, kad)
    requires FormEncoding.Before(kad, kn) && FormEncoding.Before(kas, kn) && !FormEncoding.Before(kp, kn)
    requires Plain(kn) && Plain(kad) && Plain(kp) && Plain(kas)
    ensures FormEncoding.Encode([(kn, n), (kad, ad), (kp, p), (kas, at)]) ==
      KeyField(kad, ad) + "&" + (KeyField(kas, at) + "&" + (KeyField(kn, n) + "&" + KeyField(kp, p)))
  {
    var fields := [(kad, ad), (kas, at), (kn, n), (kp, p)];
    SortFourFields(kn, kad, kp, kas, n, ad, p, at);
    assert fields[1..][1..] == fields[2..] && fields[2..][1..] == fields[3..];
    assert FormEncoding.JoinFields(fields[3..]) == FormEncoding.Field(fields[3]);
    assert FormEncoding.JoinFields(fields[2..]) == FormEncoding.Field(fields[2]) + "&" + FormEncoding.JoinFields(fields[3..]);
    assert FormEncoding.JoinFields(fields[1..]) == FormEncoding.Field(fields[1]) + "&" + FormEncoding.JoinFields(fields[2..]);
    assert FormEncoding.JoinFields(fields) == FormEncoding.Field(fields[0]) + "&" + FormEncoding.JoinFields(fields[1..]);
    PlainField(kad, ad);
    PlainField(kas, at);
    PlainField(kn, n);
    PlainField(kp, p);
  }

  lemma PlainField(key: string, value: string)
    requires Plain(key)
    ensures FormEncoding.Field((key, value)) == KeyField(key, value)
  {
    FormEncoding.QueryEscapePlain(key);
  }

  /**
   * Insertion by key puts the fields set in the order name, addr, price,
   * asset into the order addr, asset, name, price.
   */
  lemma SortFourFields(kn: string, kad: string, kp: string, kas: string, n: string, ad: string, p: string, at: string)
    requires FormEncoding.Before(kas, kp) && !FormEncoding.Before(kas, kad)
    requires FormEncoding.Before(kad, kn) && FormEncoding.Before(kas, kn) && !FormEncoding.Before(kp, kn)
    ensures FormEncoding.SortFields([(kn, n), (kad, ad), (kp, p), (kas, at)]) == [(kad, ad), (kas, at), (kn, n), (kp, p)]
  {
    var fields := [(kn, n), (kad, ad), (kp, p), (kas, at)];
    var fas, fp, fad, fn := (kas, at), (kp, p), (kad, ad), (kn, n);
    assert fields[3..] == [fas] && fields[3..][1..] == [];
    assert FormEncoding.SortFields(fields[3..]) == [fas];
    assert fields[2..] == [fp] + fields[3..];
    assert FormEncoding.InsertField(fp, []) == [fp];
    assert FormEncoding.InsertField(fp, [fas]) == [fas, fp];
    assert FormEncoding.SortFields(fields[2..]) == [fas, fp];
    assert fields[1..] == [fad] + fields[2..];
    assert FormEncoding.SortFields(fields[1..]) == [fad, fas, fp];
    assert FormEncoding.InsertField(fn, [fp]) == [fn, fp];
    assert FormEncoding.InsertField(fn, [fas, fp]) == [fas, fn, fp];
  }

  /** What the order handler answers. */
  datatype Reply = Created(uri: string) | NotFound | AddressFailed

  class Shop {
    /** The catalogue, by item name. */
    const items: map<string, Item>
    /** Every order taken, in creation order. */
    var orders: seq<Order>

    /**
     * Every order is for a catalogue item at its price and in its asset, and
     * has one of the three statuses; a pending order's deadline is its
     * item's timeout after its creation, a timed-out order was settled no
     * earlier than its deadline and a paid order before it.
     */
    predicate Valid()
      reads this
    {
      forall i :: 0 <= i < |orders| ==> Consistent(orders[i])
    }

    predicate Consistent(o: Order)
      reads this
    {
      && o.item in items && o.price == items[o.item].price && o.asset == items[o.item].asset
      && o.status in {Pending, Paid, Expired}
      && (o.status == Pending ==> o.timeout == o.lastModify + items[o.item].timeout)
      && (o.status == Expired ==> o.timeout <= o.lastModify)
      && (o.status == Paid ==> o.lastModify < o.timeout)
    }

    constructor(catalogue: map<string, Item>)
      ensures items == catalogue && orders == []
      ensures Valid()
    {
      items := catalogue;
      orders := [];
    }

    /**
     * One polling pass over the order book: every order becomes what `Step`
     * makes of it at the instant read for it and with the answer the ledger
     * gave for it; the book keeps its length and its order.
     */
    method Poll(clock: nat -> int, received: nat -> Option<int>)
      requires Valid()
      modifies this`orders
      ensures Valid()
      ensures |orders| == |old(orders)|
      ensures forall i :: 0 <= i < |orders| ==> orders[i] == Step(old(orders)[i], clock(i), received(i))
    {
      var i := 0;
      while i < |orders|
        invariant 0 <= i <= |orders| == |old(orders)|
        invariant forall j :: 0 <= j < i ==> orders[j] == Step(old(orders)[j], clock(j), received(j))
        invariant forall j :: i <= j < |orders| ==> orders[j] == old(orders)[j]
        invariant Valid()
      {
        var o := orders[i];
        if o.status != Pending {
          i := i + 1;
          continue;
        }
        var now := clock(i);
        if o.timeout <= now {
          orders := orders[i := o.(status := Expired, lastModify := now)];
          i := i + 1;
          continue;
        }
        match received(i) {
          case None =>
          case Some(amount) =>
            if amount >= o.price {
              orders := orders[i := o.(status := Paid, lastModify := now)];
            }
        }
        i := i + 1;
      }
    }

    /**
     * Takes an order for `item` at instant `now`, `newAddr` being the
     * outcome of the ledger's new-address call. An unknown item is answered
     * not found and a failed address call with an error, and neither adds an
     * order; otherwise exactly one pending order is appended, due the item's
     * timeout after `now`, and the invoice URI for it is returned.
     */
    method OrderHandler(item: string, newAddr: Option<string>, now: int) returns (reply: Reply)
      requires Valid()
      modifies this`orders
      ensures Valid()
      ensures item !in items ==> reply == NotFound && orders == old(orders)
      ensures item in items && newAddr.None? ==> reply == AddressFailed && orders == old(orders)
      ensures item in items && newAddr.Some? ==>
        var it := items[item];
        && reply == Created(InvoiceUri(item, newAddr.value, it))
        && orders == old(orders) + [Order(item, newAddr.value, Pending, it.asset, it.price, now + it.timeout, now)]
    {
      var known := FindItem(item);
      if !known {
        return NotFound;
      }
      if newAddr.None? {
        return AddressFailed;
      }
      var it := items[item];
      var addr := newAddr.value;
      Append(Order(item, addr, Pending, it.asset, it.price, now + it.timeout, now));
      reply := Created(InvoiceUri(item, addr, it));
    }

    /** Adds a consistent order at the end of the book. */
    method Append(order: Order)
      requires Valid() && Consistent(order)
      modifies this`orders
      ensures Valid()
      ensures orders == old(orders) + [order]
    {
      orders := orders + [order];
      assert forall j :: 0 <= j < |old(orders)| ==> orders[j] == old(orders)[j];
    }

    /** The search of the handler's loop over the catalogue: whether some item carries the requested name. */
    method FindItem(item: string) returns (known: bool)
      ensures known <==> item in items
    {
      var keys := items.Keys;
      while keys != {}
        invariant keys <= items.Keys
        invariant item in items ==> item in keys
        decreases keys
      {
        var key :| key in keys;
        if key == item {
          return true;
        }
        keys := keys - {key};
      }
      return false;
    }
  }
}
