/**
 * The query filter of the ingest service (`filterOrders`,
 * services/OrderProcessingService.js), on the store's value: the users,
 * in the order the store lists them, that have at least one order meeting
 * every criterion given.
 *
 * Dates are compared through their time values; `time` is the date parser
 * (`new Date(text).getTime()`), None standing for an invalid date, whose
 * NaN time value makes every comparison false.
 */
module Filter {
  import opened Wrappers
  import opened Numbers
  import opened Orders
  import opened Aggregate

  /** The query parameters, each absent or the text given. */
  datatype Criteria = Criteria(userId: Option<string>, orderId: Option<string>, startDate: Option<string>, endDate: Option<string>)

  /** A criterion is in force when its text is truthy (set and non-empty). */
  predicate Unfiltered(c: Criteria) {
    !Given(c.userId) && !Given(c.orderId) && !Given(c.startDate) && !Given(c.endDate)
  }

  /** `a >= b` on two dates: false when either is invalid. */
  predicate AtOrAfter(a: Option<int>, b: Option<int>) {
    a.Some? && b.Some? && a.value >= b.value
  }

  /** The test inside `some`: every criterion in force holds of the user and the order. */
  predicate OrderMatches(u: User, o: Order, c: Criteria, time: string -> Option<int>) {
    && (!Given(c.userId) || StrictEquals(u.userId, ParseInt(c.userId.value)))
    && (!Given(c.orderId) || StrictEquals(o.orderId, ParseInt(c.orderId.value)))
    && (!Given(c.startDate) || AtOrAfter(time(o.date), time(c.startDate.value)))
    && (!Given(c.endDate) || AtOrAfter(time(c.endDate.value), time(o.date)))
  }

  /** `orders.some(...)`: scanned from the front. */
  predicate AnyOrderMatches(u: User, orders: seq<Order>, c: Criteria, time: string -> Option<int>) {
    orders != [] && (OrderMatches(u, orders[0], c, time) || AnyOrderMatches(u, orders[1..], c, time))
  }

  predicate UserMatches(u: User, c: Criteria, time: string -> Option<int>) {
    AnyOrderMatches(u, u.orders, c, time)
  }

  /** `filter` over the users listed in `keys`: the keys whose user matches, in their order. */
  function FilterKeys(keys: seq<string>, users: map<string, User>, c: Criteria, time: string -> Option<int>): (r: seq<string>)
    ensures |r| <= |keys|
    ensures forall i :: 0 <= i < |r| ==> r[i] in users
  {
    if keys == [] then []
    else (if keys[0] in users && UserMatches(users[keys[0]], c, time) then [keys[0]] else []) + FilterKeys(keys[1..], users, c, time)
  }

  /** `filterOrders` on the store: the keys of the users it returns, in order. */
  function Matching(s: Store, c: Criteria, time: string -> Option<int>): seq<string> {
    FilterKeys(s.keys, s.users, c, time)
  }

  // ---------------------------------------------------------------------------
  // Lemmas

  /** `some` holds exactly when one of the orders passes the test. */
  lemma {:induction false} AnyOrderMatchesIff(u: User, orders: seq<Order>, c: Criteria, time: string -> Option<int>)
    ensures AnyOrderMatches(u, orders, c, time) <==> exists i :: 0 <= i < |orders| && OrderMatches(u, orders[i], c, time)
  {
    if orders != [] {
      AnyOrderMatchesIff(u, orders[1..], c, time);
      if exists i :: 0 <= i < |orders| && OrderMatches(u, orders[i], c, time) {
        var i :| 0 <= i < |orders| && OrderMatches(u, orders[i], c, time);
        if i > 0 {
          assert orders[1..][i - 1] == orders[i];
        }
      }
      if AnyOrderMatches(u, orders[1..], c, time) {
        var i :| 0 <= i < |orders[1..]| && OrderMatches(u, orders[1..][i], c, time);
        assert orders[i + 1] == orders[1..][i];
      }
    }
  }

  /** A key is returned exactly when it is listed, stored, and its user matches. */
  lemma {:induction false} FilterKeysMember(keys: seq<string>, users: map<string, User>, c: Criteria, time: string -> Option<int>, k: string)
    ensures k in FilterKeys(keys, users, c, time) <==> k in keys && k in users && UserMatches(users[k], c, time)
  {
    if keys != [] {
      FilterKeysMember(keys[1..], users, c, time, k);
      assert k in keys <==> k == keys[0] || k in keys[1..];
    }
  }

  /** Filtering keeps the order: filtering two lists one after the other is filtering their concatenation. */
  lemma {:induction false} FilterKeysAppend(a: seq<string>, b: seq<string>, users: map<string, User>, c: Criteria, time: string -> Option<int>)
    ensures FilterKeys(a + b, users, c, time) == FilterKeys(a, users, c, time) + FilterKeys(b, users, c, time)
  {
    if a == [] {
      assert a + b == b;
    } else {
      assert (a + b)[0] == a[0] && (a + b)[1..] == a[1..] + b;
      FilterKeysAppend(a[1..], b, users, c, time);
    }
  }

  /** Keys listed once are returned at most once. */
  lemma {:induction false} FilterKeysDistinct(keys: seq<string>, users: map<string, User>, c: Criteria, time: string -> Option<int>)
    requires DistinctKeys(keys)
    ensures DistinctKeys(FilterKeys(keys, users, c, time))
  {
    if keys != [] {
      var rest := FilterKeys(keys[1..], users, c, time);
      FilterKeysDistinct(keys[1..], users, c, time);
      FilterKeysMember(keys[1..], users, c, time, keys[0]);
      assert keys[0] !in keys[1..] by {
        forall j | 0 <= j < |keys[1..]| ensures keys[1..][j] != keys[0] {
          assert keys[1..][j] == keys[j + 1];
        }
      }
      var r := FilterKeys(keys, users, c, time);
      if r != rest {
        forall i, j | 0 <= i < j < |r| ensures r[i] != r[j] {
          if i == 0 {
            assert r[j] == rest[j - 1] && r[j] in rest;
          } else {
            assert r[i] == rest[i - 1] && r[j] == rest[j - 1];
          }
        }
      }
    }
  }

  /** With no criterion in force every order passes, so a user is returned exactly when it has an order. */
  lemma UnfilteredMatchesAnyOrder(u: User, c: Criteria, time: string -> Option<int>)
    requires Unfiltered(c)
    ensures UserMatches(u, c, time) <==> |u.orders| > 0
  {
  }

  /** With no criterion in force, every stored user is returned, in the store's order. */
  lemma {:induction false} UnfilteredKeepsAll(keys: seq<string>, users: map<string, User>, c: Criteria, time: string -> Option<int>)
    requires Unfiltered(c)
    requires forall i :: 0 <= i < |keys| ==> keys[i] in users && |users[keys[i]].orders| > 0
    ensures FilterKeys(keys, users, c, time) == keys
  {
    if keys != [] {
      UnfilteredMatchesAnyOrder(users[keys[0]], c, time);
      UnfilteredKeepsAll(keys[1..], users, c, time);
    }
  }

  /** On a valid store, `filterOrders({})` returns every user, in the store's order. */
  lemma UnfilteredStore(s: Store, c: Criteria, time: string -> Option<int>)
    requires Valid(s) && Unfiltered(c)
    ensures Matching(s, c, time) == s.keys
  {
    UnfilteredKeepsAll(s.keys, s.users, c, time);
  }

  /** A user-id criterion that `parseInt` reads as NaN matches nobody, since NaN is never `===`. */
  lemma {:induction false} UnparsableUserIdMatchesNothing(keys: seq<string>, users: map<string, User>, c: Criteria, time: string -> Option<int>)
    requires Given(c.userId) && ParseInt(c.userId.value).NaN?
    ensures FilterKeys(keys, users, c, time) == []
  {
    if keys != [] {
      UnparsableUserIdMatchesNothing(keys[1..], users, c, time);
      if keys[0] in users {
        var u := users[keys[0]];
        AnyOrderMatchesIff(u, u.orders, c, time);
      }
    }
  }

  /** A start date the parser rejects matches nobody: every comparison with an invalid date is false. */
  lemma {:induction false} InvalidStartMatchesNothing(keys: seq<string>, users: map<string, User>, c: Criteria, time: string -> Option<int>)
    requires Given(c.startDate) && time(c.startDate.value).None?
    ensures FilterKeys(keys, users, c, time) == []
  {
    if keys != [] {
      InvalidStartMatchesNothing(keys[1..], users, c, time);
      if keys[0] in users {
        var u := users[keys[0]];
        AnyOrderMatchesIff(u, u.orders, c, time);
      }
    }
  }

  /** A user is returned for a user-id criterion only when its id is that number. */
  lemma UserIdCriterion(s: Store, c: Criteria, time: string -> Option<int>, k: string)
    requires Given(c.userId) && k in Matching(s, c, time)
    ensures k in s.users && s.users[k].userId.Int? && s.users[k].userId == ParseInt(c.userId.value)
  {
    FilterKeysMember(s.keys, s.users, c, time, k);
    var u := s.users[k];
    AnyOrderMatchesIff(u, u.orders, c, time);
  }
}
