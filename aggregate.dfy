/**
 * The user store as a value, and the effect of applying one extracted
 * record to it (the find-or-create of `updateOrCreateOrder`,
 * services/OrderProcessingService.js).
 *
 * `Store.keys` lists the user keys in insertion order (the order
 * `Object.values` walks them in this model); `Store.users` maps each key
 * (the trimmed user-id text) to the user's ledger.
 */
module Aggregate {
  import opened Wrappers
  import opened Strings
  import opened Numbers
  import opened LegacyRecord
  import opened Orders

  datatype Store = Store(keys: seq<string>, users: map<string, User>)

  /** The store after one record, and the order value the update announces. */
  datatype Applied = Applied(store: Store, order: Order)

  /** The store after several records, and the orders announced, one per record. */
  datatype Run = Run(store: Store, events: seq<Order>)

  const EmptyStore: Store := Store([], map[])

  /** The sum of the product values as `parseFloat` reads them back. */
  function SumValues(products: seq<Product>): Money {
    if products == [] then Cents(0)
    else Add(SumValues(products[..|products| - 1]), ParseFloat(products[|products| - 1].value))
  }

  /** A new user: the key parsed as the numeric id, the name trimmed, no orders. */
  function NewUser(key: string, name: string): User {
    User(ParseInt(key), Trim(name), [])
  }

  /**
   * The product step: the value is pushed as `toFixed(2)` text and the total
   * becomes the sum. The source re-rounds the total through
   * `parseFloat(total.toFixed(2))`, which `ToFixedRoundTrip` shows to be the
   * identity on amounts; `UpdateLedger` performs that step literally.
   */
  function AddProduct(o: Order, productId: Num, value: Money): Order {
    o.(products := o.products + [Product(productId, ToFixed(value))], total := Add(o.total, value))
  }

  /** Where a product goes: the order list after find-or-create, and the position of its order. */
  datatype Slot = Slot(orders: seq<Order>, index: nat)

  /** The user after one record, and the order that received the product. */
  datatype Updated = Updated(user: User, order: Order)

  /**
   * Find-or-create on a user's orders: the first order with the id when
   * there is one, otherwise a new order appended at the end.
   */
  function FindOrCreate(orders: seq<Order>, orderId: Num, date: string): (t: Slot)
    ensures t.index < |t.orders| && t.orders[t.index].orderId == orderId
    ensures FindOrderIndex(orders, orderId).Some? ==> t.orders == orders && Some(t.index) == FindOrderIndex(orders, orderId)
    ensures FindOrderIndex(orders, orderId).None? ==> t.orders == orders + [NewOrder(orderId, date)] && t.index == |orders|
  {
    match FindOrderIndex(orders, orderId)
    case Some(i) => Slot(orders, i)
    case None => Slot(orders + [NewOrder(orderId, date)], |orders|)
  }

  /** The order and product steps of `updateOrCreateOrder` on one user. */
  function UpdateUser(u: User, r: Record): Updated {
    var t := FindOrCreate(u.orders, r.orderId, r.rawDate);
    var o := AddProduct(t.orders[t.index], r.productId, r.value);
    Updated(u.(orders := t.orders[t.index := o]), o)
  }

  /** `updateOrCreateOrder` on the store's value: the user, then the order, then the product. */
  function Apply(s: Store, r: Record): Applied {
    var known := r.userKey in s.users;
    var u := if known then s.users[r.userKey] else NewUser(r.userKey, r.userName);
    var up := UpdateUser(u, r);
    Applied(Store(if known then s.keys else s.keys + [r.userKey], s.users[r.userKey := up.user]), up.order)
  }

  /** Records applied one after the other. */
  function ApplyAll(s: Store, rs: seq<Record>): Run {
    if rs == [] then Run(s, [])
    else
      var run := ApplyAll(s, rs[..|rs| - 1]);
      var a := Apply(run.store, rs[|rs| - 1]);
      Run(a.store, run.events + [a.order])
  }

  // ---------------------------------------------------------------------------
  // The store invariant

  /** Every order holds at least one product, and its total is the sum of its product values. */
  predicate OrderValid(o: Order) {
    |o.products| > 0 && o.total == SumValues(o.products)
  }

  /** No two orders of one list have strictly equal ids. */
  predicate DistinctOrderIds(orders: seq<Order>) {
    forall i, j :: 0 <= i < j < |orders| ==> !StrictEquals(orders[i].orderId, orders[j].orderId)
  }

  /** A stored user: id parsed from its key, at least one order, distinct order ids, valid orders. */
  predicate UserValid(key: string, u: User) {
    && u.userId == ParseInt(key)
    && |u.orders| > 0
    && DistinctOrderIds(u.orders)
    && (forall i :: 0 <= i < |u.orders| ==> OrderValid(u.orders[i]))
  }

  predicate DistinctKeys(keys: seq<string>) {
    forall i, j :: 0 <= i < j < |keys| ==> keys[i] != keys[j]
  }

  /** Keys listed once each, and exactly the keys of the map. */
  predicate Indexed(s: Store) {
    && DistinctKeys(s.keys)
    && (forall k :: k in s.users ==> k in s.keys)
    && (forall i :: 0 <= i < |s.keys| ==> s.keys[i] in s.users)
  }

  /** The store invariant: indexed keys, and every user valid. */
  predicate Valid(s: Store) {
    && Indexed(s)
    && (forall k :: k in s.users ==> UserValid(k, s.users[k]))
  }

  // ---------------------------------------------------------------------------
  // Lemmas

  lemma EmptyStoreValid()
    ensures Valid(EmptyStore)
  {
  }

  /** Under distinct ids, two orders matching the same id are the same position. */
  lemma UniqueMatch(orders: seq<Order>, a: nat, b: nat, orderId: Num)
    requires DistinctOrderIds(orders)
    requires a < |orders| && b < |orders|
    requires StrictEquals(orders[a].orderId, orderId) && StrictEquals(orders[b].orderId, orderId)
    ensures a == b
  {
  }

  /** Find-or-create never introduces a second order with an id already present. */
  lemma FindOrCreateDistinct(orders: seq<Order>, orderId: Num, date: string)
    requires DistinctOrderIds(orders)
    ensures DistinctOrderIds(FindOrCreate(orders, orderId, date).orders)
  {
    var r := FindOrCreate(orders, orderId, date).orders;
    if FindOrderIndex(orders, orderId).None? {
      forall i, j | 0 <= i < j < |r| ensures !StrictEquals(r[i].orderId, r[j].orderId) {
        if j == |orders| {
          assert r[i] == orders[i];
        }
      }
    }
  }

  /** The product step keeps an order valid, including a brand-new empty one. */
  lemma AddProductValid(o: Order, productId: Num, value: Money)
    requires OrderValid(o) || (o.products == [] && o.total == Cents(0))
    ensures OrderValid(AddProduct(o, productId, value))
  {
    var o' := AddProduct(o, productId, value);
    assert o'.products[..|o'.products| - 1] == o.products;
    ToFixedRoundTrip(value);
  }

  /** The order and product steps keep a user valid. */
  lemma UpdateUserValid(key: string, u: User, r: Record)
    requires u.userId == ParseInt(key)
    requires DistinctOrderIds(u.orders) && forall i :: 0 <= i < |u.orders| ==> OrderValid(u.orders[i])
    ensures UserValid(key, UpdateUser(u, r).user)
  {
    var t := FindOrCreate(u.orders, r.orderId, r.rawDate);
    FindOrCreateDistinct(u.orders, r.orderId, r.rawDate);
    assert t.index < |u.orders| ==> t.orders[t.index] == u.orders[t.index];
    AddProductValid(t.orders[t.index], r.productId, r.value);
    var os := UpdateUser(u, r).user.orders;
    assert os == t.orders[t.index := AddProduct(t.orders[t.index], r.productId, r.value)];
    assert DistinctOrderIds(os) by {
      forall a, b | 0 <= a < b < |os| ensures !StrictEquals(os[a].orderId, os[b].orderId) {
        assert os[a].orderId == t.orders[a].orderId && os[b].orderId == t.orders[b].orderId;
      }
    }
    forall j | 0 <= j < |os| ensures OrderValid(os[j]) {
      if j != t.index {
        assert os[j] == t.orders[j] == u.orders[j];
      }
    }
  }

  /** Applying a record keeps every stored user valid. */
  lemma ApplyPreservesUsersValid(s: Store, r: Record)
    requires forall k :: k in s.users ==> UserValid(k, s.users[k])
    ensures var s' := Apply(s, r).store;
      forall k :: k in s'.users ==> UserValid(k, s'.users[k])
  {
    var s' := Apply(s, r).store;
    var u := if r.userKey in s.users then s.users[r.userKey] else NewUser(r.userKey, r.userName);
    UpdateUserValid(r.userKey, u, r);
    assert s'.users == s.users[r.userKey := UpdateUser(u, r).user];
  }

  /** Applying a record keeps the store invariant. */
  lemma ApplyPreservesValid(s: Store, r: Record)
    requires Valid(s)
    ensures Valid(Apply(s, r).store)
  {
    ApplyPreservesUsersValid(s, r);
    if r.userKey in s.users {
      ApplyKnownAddsOne(s, r);
    } else {
      ApplyNewAddsOne(s, r);
    }
  }

  /**
   * The user-level effect of one record: the key is present afterwards; a
   * known user keeps its id, its name and its place, a new one is appended
   * with the parsed id and the trimmed name; every other user is unchanged.
   */
  lemma ApplyUserEffect(s: Store, r: Record)
    ensures var s' := Apply(s, r).store;
      && r.userKey in s'.users
      && (r.userKey in s.users ==>
            s'.keys == s.keys
            && s'.users[r.userKey].userId == s.users[r.userKey].userId
            && s'.users[r.userKey].userName == s.users[r.userKey].userName)
      && (r.userKey !in s.users ==>
            s'.keys == s.keys + [r.userKey]
            && s'.users[r.userKey].userId == ParseInt(r.userKey)
            && s'.users[r.userKey].userName == Trim(r.userName))
      && (forall k :: k != r.userKey ==> (k in s'.users <==> k in s.users))
      && (forall k :: k in s.users && k != r.userKey ==> s'.users[k] == s.users[k])
  {
  }

  /**
   * The order-level effect of the product step on one user: when an order
   * with the record's id exists, the first such order receives the product
   * and nothing else changes; otherwise one new order, dated from the
   * record, is appended holding just that product, its total the value.
   */
  lemma UpdateUserEffect(u: User, r: Record)
    ensures
      var up := UpdateUser(u, r);
      && up.user.userId == u.userId && up.user.userName == u.userName
      && match FindOrderIndex(u.orders, r.orderId)
         case Some(i) =>
           && up.user.orders == u.orders[i := up.order]
           && up.order.orderId == u.orders[i].orderId && up.order.date == u.orders[i].date
           && up.order.products == u.orders[i].products + [Product(r.productId, ToFixed(r.value))]
           && up.order.total == Add(u.orders[i].total, r.value)
         case None =>
           && up.user.orders == u.orders + [up.order]
           && up.order == Order(r.orderId, FormatDate(r.rawDate), [Product(r.productId, ToFixed(r.value))], r.value)
  {
    var up := UpdateUser(u, r);
    var t := FindOrCreate(u.orders, r.orderId, r.rawDate);
    var o := AddProduct(t.orders[t.index], r.productId, r.value);
    assert up.order == o && up.user.orders == t.orders[t.index := o];
    if FindOrderIndex(u.orders, r.orderId).None? {
      assert t.orders[t.index] == NewOrder(r.orderId, r.rawDate);
      assert o.products == [] + [Product(r.productId, ToFixed(r.value))];
      assert o.total == Add(Cents(0), r.value) == r.value;
      assert t.orders[t.index := o] == u.orders + [o];
    }
  }

  /**
   * After a record with an integer order id, its user has exactly one order
   * with that id, and `findOrder` finds it: the order that was announced.
   */
  lemma ApplyFindsOrder(s: Store, r: Record)
    requires Valid(s)
    requires r.orderId.Int?
    ensures var a := Apply(s, r);
      var orders := a.store.users[r.userKey].orders;
      && FindOrderIndex(orders, r.orderId).Some?
      && orders[FindOrderIndex(orders, r.orderId).value] == a.order
      && forall j :: 0 <= j < |orders| && StrictEquals(orders[j].orderId, r.orderId) ==>
           j == FindOrderIndex(orders, r.orderId).value
  {
    var a := Apply(s, r);
    ApplyPreservesValid(s, r);
    var u := if r.userKey in s.users then s.users[r.userKey] else NewUser(r.userKey, r.userName);
    UpdateUserEffect(u, r);
    var orders := a.store.users[r.userKey].orders;
    var target := match FindOrderIndex(u.orders, r.orderId) case Some(i) => i case None => |u.orders|;
    assert orders[target] == a.order;
    assert StrictEquals(orders[target].orderId, r.orderId);
    var f := FindOrderIndex(orders, r.orderId);
    assert DistinctOrderIds(orders);
    UniqueMatch(orders, f.value, target, r.orderId);
    forall j | 0 <= j < |orders| && StrictEquals(orders[j].orderId, r.orderId) ensures j == f.value {
      UniqueMatch(orders, j, f.value, r.orderId);
    }
  }

  // ---------------------------------------------------------------------------
  // Counting products

  function OrdersProductCount(orders: seq<Order>): nat {
    if orders == [] then 0
    else OrdersProductCount(orders[..|orders| - 1]) + |orders[|orders| - 1].products|
  }

  /** The number of products over the users listed in `keys`. */
  function UsersProductCount(keys: seq<string>, users: map<string, User>): nat
    requires forall i :: 0 <= i < |keys| ==> keys[i] in users
  {
    if keys == [] then 0
    else UsersProductCount(keys[..|keys| - 1], users) + OrdersProductCount(users[keys[|keys| - 1]].orders)
  }

  function TotalProducts(s: Store): nat
    requires Valid(s)
  {
    UsersProductCount(s.keys, s.users)
  }

  lemma {:induction false} OrdersCountUpdate(orders: seq<Order>, i: nat, o: Order)
    requires i < |orders|
    ensures OrdersProductCount(orders[i := o]) + |orders[i].products| == OrdersProductCount(orders) + |o.products|
  {
    var n := |orders| - 1;
    var orders' := orders[i := o];
    assert orders'[..n] == if i == n then orders[..n] else orders[..n][i := o];
    if i < n {
      OrdersCountUpdate(orders[..n], i, o);
    }
  }

  /** The product step adds exactly one product to the user. */
  lemma UpdateUserAddsOne(u: User, r: Record)
    ensures OrdersProductCount(UpdateUser(u, r).user.orders) == OrdersProductCount(u.orders) + 1
  {
    var t := FindOrCreate(u.orders, r.orderId, r.rawDate);
    var o := AddProduct(t.orders[t.index], r.productId, r.value);
    OrdersCountUpdate(t.orders, t.index, o);
    if FindOrderIndex(u.orders, r.orderId).None? {
      assert t.orders[..|t.orders| - 1] == u.orders;
    }
  }

  /** Replacing the user at one listed key changes the count by that user's difference only. */
  lemma {:induction false} UsersCountUpdate(keys: seq<string>, users: map<string, User>, k: string, u: User)
    requires DistinctKeys(keys)
    requires forall i :: 0 <= i < |keys| ==> keys[i] in users
    requires k in users
    ensures UsersProductCount(keys, users[k := u]) + (if k in keys then OrdersProductCount(users[k].orders) else 0)
         == UsersProductCount(keys, users) + (if k in keys then OrdersProductCount(u.orders) else 0)
  {
    if keys != [] {
      var init := keys[..|keys| - 1];
      assert DistinctKeys(init);
      UsersCountUpdate(init, users, k, u);
      assert k in keys <==> k in init || k == keys[|keys| - 1];
      assert k == keys[|keys| - 1] ==> k !in init;
    }
  }

  /** A record for a known user adds one product to the count. */
  lemma ApplyKnownAddsOne(s: Store, r: Record)
    requires Indexed(s) && r.userKey in s.users
    ensures Indexed(Apply(s, r).store)
    ensures UsersProductCount(s.keys, Apply(s, r).store.users) == UsersProductCount(s.keys, s.users) + 1
  {
    var u := s.users[r.userKey];
    UpdateUserAddsOne(u, r);
    UsersCountUpdate(s.keys, s.users, r.userKey, UpdateUser(u, r).user);
  }

  /** A record for a new user appends its key and adds one product to the count. */
  lemma ApplyNewAddsOne(s: Store, r: Record)
    requires Indexed(s) && r.userKey !in s.users
    ensures Indexed(Apply(s, r).store)
    ensures UsersProductCount(s.keys + [r.userKey], Apply(s, r).store.users) == UsersProductCount(s.keys, s.users) + 1
  {
    var u := NewUser(r.userKey, r.userName);
    UpdateUserAddsOne(u, r);
    AddUserCounts(s, r.userKey, UpdateUser(u, r).user);
  }

  /** Adding a user under a new key lists the key last and adds that user's products to the count. */
  lemma AddUserCounts(s: Store, k: string, u: User)
    requires Indexed(s) && k !in s.users
    ensures Indexed(Store(s.keys + [k], s.users[k := u]))
    ensures UsersProductCount(s.keys + [k], s.users[k := u]) == UsersProductCount(s.keys, s.users) + OrdersProductCount(u.orders)
  {
    var s' := Store(s.keys + [k], s.users[k := u]);
    assert DistinctKeys(s'.keys) by {
      forall i, j | 0 <= i < j < |s'.keys| ensures s'.keys[i] != s'.keys[j] {
        if j == |s.keys| {
          assert s.keys[i] in s.users;
        }
      }
    }
    assert s'.keys[..|s'.keys| - 1] == s.keys;
    UsersCountSameOn(s.keys, s'.users, s.users);
  }

  /** Applying one record adds exactly one product to the store. */
  lemma ApplyAddsOneProduct(s: Store, r: Record)
    requires Valid(s)
    ensures Valid(Apply(s, r).store)
    ensures TotalProducts(Apply(s, r).store) == TotalProducts(s) + 1
  {
    ApplyPreservesValid(s, r);
    if r.userKey in s.users {
      ApplyKnownAddsOne(s, r);
    } else {
      ApplyNewAddsOne(s, r);
    }
  }

  /** The count only looks at the listed users. */
  lemma {:induction false} UsersCountSameOn(keys: seq<string>, a: map<string, User>, b: map<string, User>)
    requires forall i :: 0 <= i < |keys| ==> keys[i] in a && keys[i] in b && a[keys[i]] == b[keys[i]]
    ensures UsersProductCount(keys, a) == UsersProductCount(keys, b)
  {
    if keys != [] {
      UsersCountSameOn(keys[..|keys| - 1], a, b);
    }
  }

  // ---------------------------------------------------------------------------
  // Several records

  /** Applying records one by one keeps the invariant, announces one order per record and adds one product per record. */
  lemma {:induction false} ApplyAllCounts(s: Store, rs: seq<Record>)
    requires Valid(s)
    ensures Valid(ApplyAll(s, rs).store)
    ensures |ApplyAll(s, rs).events| == |rs|
    ensures TotalProducts(ApplyAll(s, rs).store) == TotalProducts(s) + |rs|
  {
    if rs != [] {
      var run := ApplyAll(s, rs[..|rs| - 1]);
      ApplyAllCounts(s, rs[..|rs| - 1]);
      ApplyAddsOneProduct(run.store, rs[|rs| - 1]);
    }
  }

  /** Applying one more record extends the run by that record's step. */
  lemma ApplyAllSnoc(s: Store, rs: seq<Record>, r: Record)
    ensures var run := ApplyAll(s, rs);
      ApplyAll(s, rs + [r]) == Run(Apply(run.store, r).store, run.events + [Apply(run.store, r).order])
  {
    assert (rs + [r])[..|rs|] == rs;
  }

  /** Applying two batches in turn is applying their concatenation. */
  lemma {:induction false} ApplyAllAppend(s: Store, a: seq<Record>, b: seq<Record>)
    ensures var first := ApplyAll(s, a);
      var second := ApplyAll(first.store, b);
      ApplyAll(s, a + b) == Run(second.store, first.events + second.events)
  {
    if b == [] {
      assert a + b == a;
    } else {
      var b', x := b[..|b| - 1], b[|b| - 1];
      assert (a + b)[..|a + b| - 1] == a + b' && (a + b)[|a + b| - 1] == x;
      ApplyAllAppend(s, a, b');
      var first := ApplyAll(s, a);
      var mid := ApplyAll(first.store, b');
      var step := Apply(mid.store, x);
      assert ApplyAll(s, a + b) == Run(step.store, (first.events + mid.events) + [step.order]);
      assert ApplyAll(first.store, b) == Run(step.store, mid.events + [step.order]);
      AppendAssoc(first.events, mid.events, [step.order]);
    }
  }
}
