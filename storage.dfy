/**
  The in-memory order store. A JavaScript `Map` from order id to order is
  a finite map together with the order in which its keys were first set,
  which is the order in which the map yields its values.
*/
module Storage {
  import opened Wrappers
  import opened Schema

  /** No element occurs twice. */
  predicate Distinct<T(==)>(s: seq<T>) {
    forall i, j :: 0 <= i < j < |s| ==> s[i] != s[j]
  }

  /** Newest first: `createdAt` never increases along the sequence. */
  predicate NewestFirst(s: seq<Order>) {
    forall i, j :: 0 <= i < j < |s| ==> s[i].createdAt >= s[j].createdAt
  }

  /** The orders of `s` created at time `t`, in the order in which `s` holds them. */
  function WithCreatedAt(s: seq<Order>, t: int): seq<Order> {
    if s == [] then []
    else (if s[0].createdAt == t then [s[0]] else []) + WithCreatedAt(s[1..], t)
  }

  /**
    Puts `o` in front of the first order that is not newer than it. Among
    orders created at the same time, `o` lands first.
  */
  function InsertNewestFirst(o: Order, s: seq<Order>): (r: seq<Order>)
    ensures multiset(r) == multiset(s) + multiset{o}
  {
    if s == [] || o.createdAt >= s[0].createdAt then [o] + s
    else
      assert s == [s[0]] + s[1..];
      [s[0]] + InsertNewestFirst(o, s[1..])
  }

  /**
    The stable sort `getAllOrders` applies, by the comparator
    `b.createdAt - a.createdAt`: newest first, and orders created at the same
    time keep their relative order.
  */
  function SortNewestFirst(s: seq<Order>): (r: seq<Order>)
    ensures multiset(r) == multiset(s)
  {
    if s == [] then []
    else
      assert s == [s[0]] + s[1..];
      InsertNewestFirst(s[0], SortNewestFirst(s[1..]))
  }

  lemma {:induction false} InsertKeepsNewestFirst(o: Order, s: seq<Order>)
    requires NewestFirst(s)
    ensures NewestFirst(InsertNewestFirst(o, s))
  {
    if s != [] && o.createdAt < s[0].createdAt {
      var rest := InsertNewestFirst(o, s[1..]);
      InsertKeepsNewestFirst(o, s[1..]);
      forall x | x in rest
        ensures x.createdAt <= s[0].createdAt
      {
        assert x in multiset(rest);
        if x != o {
          assert x in multiset(s[1..]);
        }
      }
    }
  }

  /** The sort's output is newest first. */
  lemma {:induction false} SortIsNewestFirst(s: seq<Order>)
    ensures NewestFirst(SortNewestFirst(s))
  {
    if s != [] {
      SortIsNewestFirst(s[1..]);
      InsertKeepsNewestFirst(s[0], SortNewestFirst(s[1..]));
    }
  }

  lemma {:induction false} InsertWithCreatedAt(o: Order, s: seq<Order>, t: int)
    ensures WithCreatedAt(InsertNewestFirst(o, s), t)
         == (if o.createdAt == t then [o] else []) + WithCreatedAt(s, t)
  {
    var r := InsertNewestFirst(o, s);
    if s == [] || o.createdAt >= s[0].createdAt {
      assert r[1..] == s;
    } else {
      assert r[1..] == InsertNewestFirst(o, s[1..]);
      InsertWithCreatedAt(o, s[1..], t);
    }
  }

  /** The sort is stable: for every time, the orders created then come out in the order they went in. */
  lemma {:induction false} SortIsStable(s: seq<Order>)
    ensures forall t :: WithCreatedAt(SortNewestFirst(s), t) == WithCreatedAt(s, t)
  {
    if s != [] {
      SortIsStable(s[1..]);
      forall t
        ensures WithCreatedAt(SortNewestFirst(s), t) == WithCreatedAt(s, t)
      {
        InsertWithCreatedAt(s[0], SortNewestFirst(s[1..]), t);
      }
    }
  }

  lemma {:induction false} WithCreatedAtMembers(s: seq<Order>, t: int, x: Order)
    ensures x in WithCreatedAt(s, t) <==> x in s && x.createdAt == t
  {
    if s != [] {
      WithCreatedAtMembers(s[1..], t, x);
      assert s == [s[0]] + s[1..];
    }
  }

  lemma HeadIsNewest(s: seq<Order>, x: Order)
    requires NewestFirst(s) && x in s
    ensures s[0].createdAt >= x.createdAt
  {
    var i :| 0 <= i < |s| && s[i] == x;
  }

  lemma AgreeingInclude(a: seq<Order>, b: seq<Order>, x: Order)
    requires forall t :: WithCreatedAt(a, t) == WithCreatedAt(b, t)
    requires x in a
    ensures x in b
  {
    WithCreatedAtMembers(a, x.createdAt, x);
    WithCreatedAtMembers(b, x.createdAt, x);
  }

  /**
    Two newest-first sequences, each holding the other's first order and
    agreeing on the orders created at the first one's time, start with the
    same order.
  */
  lemma SameHead(a: seq<Order>, b: seq<Order>)
    requires NewestFirst(a) && NewestFirst(b)
    requires a != [] && b != [] && a[0] in b && b[0] in a
    requires WithCreatedAt(a, a[0].createdAt) == WithCreatedAt(b, a[0].createdAt)
    ensures a[0] == b[0]
  {
    var t := a[0].createdAt;
    HeadIsNewest(b, a[0]);
    HeadIsNewest(a, b[0]);
    assert b[0].createdAt == t;
    var A := WithCreatedAt(a, t);
    assert A == [a[0]] + WithCreatedAt(a[1..], t);
    assert A == [b[0]] + WithCreatedAt(b[1..], t);
    assert A[0] == a[0] && A[0] == b[0];
  }

  lemma SameTail(a: seq<Order>, b: seq<Order>, t: int)
    requires a != [] && b != [] && a[0] == b[0]
    requires WithCreatedAt(a, t) == WithCreatedAt(b, t)
    ensures WithCreatedAt(a[1..], t) == WithCreatedAt(b[1..], t)
  {
    var h := if a[0].createdAt == t then [a[0]] else [];
    assert WithCreatedAt(a, t) == h + WithCreatedAt(a[1..], t);
    assert WithCreatedAt(b, t) == h + WithCreatedAt(b[1..], t);
    assert WithCreatedAt(a[1..], t) == WithCreatedAt(a, t)[|h|..];
    assert WithCreatedAt(b[1..], t) == WithCreatedAt(b, t)[|h|..];
  }

  /**
    Newest-first order and the order among equal times pin a sequence down:
    two newest-first sequences that agree on the orders created at every
    time are equal.
  */
  lemma {:induction false} NewestFirstStableUnique(a: seq<Order>, b: seq<Order>)
    requires NewestFirst(a) && NewestFirst(b)
    requires forall t :: WithCreatedAt(a, t) == WithCreatedAt(b, t)
    ensures a == b
    decreases |a|
  {
    if a != [] {
      AgreeingInclude(a, b, a[0]);
    }
    if b != [] {
      AgreeingInclude(b, a, b[0]);
    }
    if a != [] && b != [] {
      assert WithCreatedAt(a, a[0].createdAt) == WithCreatedAt(b, a[0].createdAt);
      SameHead(a, b);
      forall t
        ensures WithCreatedAt(a[1..], t) == WithCreatedAt(b[1..], t)
      {
        SameTail(a, b, t);
      }
      NewestFirstStableUnique(a[1..], b[1..]);
      assert a == [a[0]] + a[1..] && b == [b[0]] + b[1..];
    }
  }

  /**
    The sort is the only newest-first arrangement that keeps orders created
    at the same time in their input order.
  */
  lemma SortIsTheStableNewestFirstOrder(s: seq<Order>, r: seq<Order>)
    requires NewestFirst(r)
    requires forall t :: WithCreatedAt(r, t) == WithCreatedAt(s, t)
    ensures r == SortNewestFirst(s)
  {
    SortIsNewestFirst(s);
    SortIsStable(s);
    NewestFirstStableUnique(r, SortNewestFirst(s));
  }

  /** `Array.from(map.values())`: the value of every key, in key order. */
  function ValuesInOrder(m: map<string, Order>, keys: seq<string>): (r: seq<Order>)
    requires forall k :: k in keys ==> k in m
    ensures |r| == |keys|
    ensures forall i :: 0 <= i < |keys| ==> r[i] == m[keys[i]]
  {
    if keys == [] then [] else [m[keys[0]]] + ValuesInOrder(m, keys[1..])
  }

  lemma {:induction false} DistinctCardinality(keys: seq<string>)
    requires Distinct(keys)
    ensures |set k | k in keys| == |keys|
  {
    if keys != [] {
      DistinctCardinality(keys[1..]);
      assert (set k | k in keys) == {keys[0]} + (set k | k in keys[1..]);
    }
  }

  lemma {:induction false} DistinctOccursOnce(s: seq<Order>, x: Order)
    requires Distinct(s) && x in s
    ensures multiset(s)[x] == 1
  {
    assert s == [s[0]] + s[1..];
    if s[0] == x {
      assert x !in s[1..];
    } else {
      DistinctOccursOnce(s[1..], x);
    }
  }

  /**
    The shape of the store: the keys are listed once each, exactly the keys
    of the map, and every order is stored under its own id.
  */
  ghost predicate WellKeyed(m: map<string, Order>, keys: seq<string>) {
    && Distinct(keys)
    && (forall k :: k in m <==> k in keys)
    && (forall k :: k in m ==> m[k].id == k)
  }

  lemma KeysCardinality(m: map<string, Order>, keys: seq<string>)
    requires WellKeyed(m, keys)
    ensures |m| == |keys|
  {
    DistinctCardinality(keys);
    assert m.Keys == set k | k in keys;
  }

  lemma ValuesDistinct(m: map<string, Order>, keys: seq<string>)
    requires WellKeyed(m, keys)
    ensures Distinct(ValuesInOrder(m, keys))
  {
    var values := ValuesInOrder(m, keys);
    forall i, j | 0 <= i < j < |values|
      ensures values[i] != values[j]
    {
      assert values[i].id == keys[i] && values[j].id == keys[j];
    }
  }

  /** The values of a well-keyed store hold every stored order exactly once and nothing else. */
  lemma ValuesExactlyOnce(m: map<string, Order>, keys: seq<string>)
    requires WellKeyed(m, keys)
    ensures |ValuesInOrder(m, keys)| == |m|
    ensures forall k :: k in m ==> multiset(ValuesInOrder(m, keys))[m[k]] == 1
    ensures forall o :: o in ValuesInOrder(m, keys) ==> o.id in m && m[o.id] == o
  {
    ValuesAreStored(m, keys);
    var values := ValuesInOrder(m, keys);
    KeysCardinality(m, keys);
    forall k | k in m
      ensures multiset(values)[m[k]] == 1
    {
      StoredOrderOccursOnce(m, keys, k);
    }
  }

  lemma ValuesAreStored(m: map<string, Order>, keys: seq<string>)
    requires WellKeyed(m, keys)
    ensures forall o :: o in ValuesInOrder(m, keys) ==> o.id in m && m[o.id] == o
  {
    var values := ValuesInOrder(m, keys);
    forall o | o in values
      ensures o.id in m && m[o.id] == o
    {
      var i :| 0 <= i < |values| && values[i] == o;
      assert o == m[keys[i]];
    }
  }

  lemma StoredOrderOccursOnce(m: map<string, Order>, keys: seq<string>, k: string)
    requires WellKeyed(m, keys) && k in m
    ensures multiset(ValuesInOrder(m, keys))[m[k]] == 1
  {
    var values := ValuesInOrder(m, keys);
    ValuesDistinct(m, keys);
    var i :| 0 <= i < |keys| && keys[i] == k;
    assert values[i] == m[k];
    DistinctOccursOnce(values, m[k]);
  }

  /**
    What `getAllOrders` promises about a well-keyed store: the sorted values
    are newest first, keep creation order among equal times, and hold every
    stored order exactly once and nothing else.
  */
  lemma SortedValues(m: map<string, Order>, keys: seq<string>)
    requires WellKeyed(m, keys)
    ensures var r := SortNewestFirst(ValuesInOrder(m, keys));
      && NewestFirst(r)
      && (forall t :: WithCreatedAt(r, t) == WithCreatedAt(ValuesInOrder(m, keys), t))
      && |r| == |m|
      && (forall k :: k in m ==> multiset(r)[m[k]] == 1)
      && (forall o :: o in r ==> o.id in m && m[o.id] == o)
  {
    var values := ValuesInOrder(m, keys);
    var r := SortNewestFirst(values);
    ValuesExactlyOnce(m, keys);
    SortIsNewestFirst(values);
    SortIsStable(values);
    assert forall o :: o in r ==> o in multiset(values);
  }

  /** The order `createOrder` builds: the input's fields, the new id and time, and a status. */
  function NewOrder(input: InsertOrder, id: string, now: int): (o: Order)
    ensures o.id == id && o.createdAt == now
    ensures o.customerName == input.customerName && o.phone == input.phone && o.medicine == input.medicine
    ensures o.status == StatusOrDefault(input.status)
  {
    Order(id, input.customerName, input.phone, input.medicine, StatusOrDefault(input.status), now)
  }

  /** `status || "pending"`: an absent or empty status falls back to the default. */
  function StatusOrDefault(status: Option<string>): (s: string)
    ensures s != []
    ensures status.Some? && status.value != [] ==> s == status.value
    ensures status.None? || status.value == [] ==> s == DefaultStatus
  {
    if status.Some? && status.value != [] then status.value else DefaultStatus
  }

  /** An order created from a body that passed the create schema is pending. */
  lemma ValidatedOrderIsPending(body: Body, id: string, now: int)
    requires ParseInsert(body).Success?
    ensures NewOrder(ParseInsert(body).value, id, now).status == DefaultStatus
  {
  }

  /** `MemStorage`: the store, a map from order id to order. */
  class MemStorage {
    var orders: map<string, Order>
    /** The keys in the order they were first set: the map's iteration order. */
    var keyOrder: seq<string>

    ghost predicate Valid()
      reads this
    {
      WellKeyed(orders, keyOrder)
    }

    constructor ()
      ensures Valid()
      ensures orders == map[] && keyOrder == []
    {
      orders := map[];
      keyOrder := [];
    }

    /** `getOrder`: the order stored under `id`, or nothing when no order was ever created with it. */
    function GetOrder(id: string): (r: Option<Order>)
      reads this
      requires Valid()
      ensures r.Some? <==> id in keyOrder
      ensures r.Some? ==> r.value == orders[id] && r.value.id == id
    {
      if id in orders then Some(orders[id]) else None
    }

    /**
      `getAllOrders`: every stored order exactly once, newest first; orders
      created at the same time come in the order they were created.
    */
    function GetAllOrders(): (r: seq<Order>)
      reads this
      requires Valid()
      ensures NewestFirst(r)
      ensures forall t :: WithCreatedAt(r, t) == WithCreatedAt(ValuesInOrder(orders, keyOrder), t)
      ensures |r| == |orders|
      ensures forall k :: k in orders ==> multiset(r)[orders[k]] == 1
      ensures forall o :: o in r ==> GetOrder(o.id) == Some(o)
    {
      SortedValues(orders, keyOrder);
      SortNewestFirst(ValuesInOrder(orders, keyOrder))
    }

    /**
      `createOrder` with the id and the time supplied by the caller: stores
      the new order under a key not yet in use and returns it. Every other
      entry stays as it was.
    */
    method CreateOrder(input: InsertOrder, id: string, now: int) returns (order: Order)
      requires Valid()
      requires id !in orders
      modifies this
      ensures Valid()
      ensures order == NewOrder(input, id, now)
      ensures orders == old(orders)[id := order]
      ensures keyOrder == old(keyOrder) + [id]
      ensures |orders| == |old(orders)| + 1
      ensures GetOrder(id) == Some(order)
      ensures forall k :: k in old(orders) ==> GetOrder(k) == old(GetOrder(k))
    {
      order := NewOrder(input, id, now);
      orders := orders[id := order];
      keyOrder := keyOrder + [id];
    }
  }

  lemma TwoValues(idA: string, idB: string, first: Order, second: Order)
    requires idA != idB
    ensures ValuesInOrder(map[idA := first, idB := second], [idA, idB]) == [first, second]
  {
    var values := ValuesInOrder(map[idA := first, idB := second], [idA, idB]);
    assert values[0] == first && values[1] == second;
  }

  lemma SortTwo(x: Order, y: Order)
    ensures SortNewestFirst([x, y]) == if y.createdAt > x.createdAt then [y, x] else [x, y]
  {
    assert [x, y][1..] == [y];
    assert SortNewestFirst([y]) == InsertNewestFirst(y, []) == [y];
  }

  /**
    Two orders created into a fresh store are listed newest first, and in
    creation order when they share a time.
  */
  method ListTwoOrders(a: InsertOrder, b: InsertOrder, idA: string, idB: string, timeA: int, timeB: int)
    returns (first: Order, second: Order, listed: seq<Order>)
    requires idA != idB
    ensures first == NewOrder(a, idA, timeA) && second == NewOrder(b, idB, timeB)
    ensures listed == if timeB > timeA then [second, first] else [first, second]
  {
    var store := new MemStorage();
    first := store.CreateOrder(a, idA, timeA);
    assert store.keyOrder == [idA];
    second := store.CreateOrder(b, idB, timeB);
    assert store.keyOrder == [idA, idB] && store.orders == map[idA := first, idB := second];
    TwoValues(idA, idB, first, second);
    listed := store.GetAllOrders();
    SortTwo(first, second);
  }
}
