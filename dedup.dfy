/**
 * The deduplication rule shared by files and lines in the ingest pipeline
 * (services/OrderProcessingService.js): an item is taken when it is
 * eligible (a readable, non-empty file; a non-blank line), its key (the
 * content hash) is not already seen, and no earlier eligible item of the
 * same batch had the same key.
 *
 * `Fresh` states this rule declaratively; the service's loops, which keep
 * a growing set of batch hashes instead, are proved to select exactly
 * `Fresh`.
 */
module Dedup {

  /** The keys of the eligible items of `xs`. */
  function Keys<T>(xs: seq<T>, ok: T -> bool, key: T -> string): set<string> {
    if xs == [] then {}
    else Keys(xs[..|xs| - 1], ok, key) + (if ok(xs[|xs| - 1]) then {key(xs[|xs| - 1])} else {})
  }

  /** Item `i` is taken: eligible, key not seen, and no earlier eligible item with that key. */
  predicate Taken<T>(xs: seq<T>, i: nat, ok: T -> bool, key: T -> string, seen: set<string>)
    requires i < |xs|
  {
    && ok(xs[i])
    && key(xs[i]) !in seen
    && forall j :: 0 <= j < i && ok(xs[j]) ==> key(xs[j]) != key(xs[i])
  }

  /** The items taken from `xs`, in their order. */
  function Fresh<T>(xs: seq<T>, ok: T -> bool, key: T -> string, seen: set<string>): seq<T> {
    if xs == [] then []
    else
      var init, x := xs[..|xs| - 1], xs[|xs| - 1];
      Fresh(init, ok, key, seen) + (if ok(x) && key(x) !in seen && key(x) !in Keys(init, ok, key) then [x] else [])
  }

  // ---------------------------------------------------------------------------
  // Lemmas

  /** A key is among `Keys(xs)` exactly when some eligible item of `xs` has it. */
  lemma {:induction false} KeysMember<T>(xs: seq<T>, ok: T -> bool, key: T -> string, k: string)
    ensures k in Keys(xs, ok, key) <==> exists i :: 0 <= i < |xs| && ok(xs[i]) && key(xs[i]) == k
  {
    if xs != [] {
      var init := xs[..|xs| - 1];
      KeysMember(init, ok, key, k);
      if exists i :: 0 <= i < |xs| && ok(xs[i]) && key(xs[i]) == k {
        var i :| 0 <= i < |xs| && ok(xs[i]) && key(xs[i]) == k;
        if i < |init| {
          assert init[i] == xs[i];
        }
      }
      if k in Keys(init, ok, key) {
        var i :| 0 <= i < |init| && ok(init[i]) && key(init[i]) == k;
        assert xs[i] == init[i];
      }
    }
  }

  lemma {:induction false} KeysAppend<T>(a: seq<T>, b: seq<T>, ok: T -> bool, key: T -> string)
    ensures Keys(a + b, ok, key) == Keys(a, ok, key) + Keys(b, ok, key)
  {
    if b == [] {
      assert a + b == a;
    } else {
      assert (a + b)[..|a + b| - 1] == a + b[..|b| - 1];
      KeysAppend(a, b[..|b| - 1], ok, key);
    }
  }

  /** Extending the batch by one item adds that item's key when it is eligible. */
  lemma KeysStep<T>(xs: seq<T>, i: nat, ok: T -> bool, key: T -> string)
    requires i < |xs|
    ensures Keys(xs[..i + 1], ok, key) == Keys(xs[..i], ok, key) + (if ok(xs[i]) then {key(xs[i])} else {})
  {
    assert xs[..i + 1][..i] == xs[..i];
  }

  /** Extending the batch by one item takes that item exactly when `Taken` says so. */
  lemma FreshStep<T>(xs: seq<T>, i: nat, ok: T -> bool, key: T -> string, seen: set<string>)
    requires i < |xs|
    ensures Fresh(xs[..i + 1], ok, key, seen)
         == Fresh(xs[..i], ok, key, seen) + (if Taken(xs, i, ok, key, seen) then [xs[i]] else [])
    ensures Taken(xs, i, ok, key, seen) <==> ok(xs[i]) && key(xs[i]) !in seen + Keys(xs[..i], ok, key)
  {
    var p := xs[..i + 1];
    assert p[..i] == xs[..i] && p[i] == xs[i];
    KeysMember(xs[..i], ok, key, key(xs[i]));
    if exists j :: 0 <= j < i && ok(xs[..i][j]) && key(xs[..i][j]) == key(xs[i]) {
      var j :| 0 <= j < i && ok(xs[..i][j]) && key(xs[..i][j]) == key(xs[i]);
      assert xs[j] == xs[..i][j];
    }
  }

  /**
   * The loops keep the batch as a set: taking item `i` adds its key and
   * skipping it adds nothing. Kept that way, the batch holds the new keys of
   * the prefix, and "eligible, key neither stored nor in the batch" is
   * exactly `Taken`.
   */
  lemma BatchStep<T>(xs: seq<T>, i: nat, ok: T -> bool, key: T -> string, stored: set<string>, start: set<string>,
                     batch: set<string>, batch': set<string>)
    requires i < |xs|
    requires batch == start + (Keys(xs[..i], ok, key) - stored)
    requires ok(xs[i]) && key(xs[i]) !in stored + batch ==> batch' == batch + {key(xs[i])}
    requires !(ok(xs[i]) && key(xs[i]) !in stored + batch) ==> batch' == batch
    ensures batch' == start + (Keys(xs[..i + 1], ok, key) - stored)
    ensures Taken(xs, i, ok, key, stored + start) <==> ok(xs[i]) && key(xs[i]) !in stored + batch
  {
    KeysStep(xs, i, ok, key);
    FreshStep(xs, i, ok, key, stored + start);
  }

  /** Taking from a concatenation takes from the first part, then from the second with the first part's keys seen. */
  lemma {:induction false} FreshAppend<T>(a: seq<T>, b: seq<T>, ok: T -> bool, key: T -> string, seen: set<string>)
    ensures Fresh(a + b, ok, key, seen) == Fresh(a, ok, key, seen) + Fresh(b, ok, key, seen + Keys(a, ok, key))
  {
    if b == [] {
      assert a + b == a;
    } else {
      var b', x := b[..|b| - 1], b[|b| - 1];
      assert (a + b)[..|a + b| - 1] == a + b' && (a + b)[|a + b| - 1] == x;
      FreshAppend(a, b', ok, key, seen);
      KeysAppend(a, b', ok, key);
    }
  }

  /** When every eligible key is already seen, nothing is taken. */
  lemma {:induction false} FreshAllSeen<T>(xs: seq<T>, ok: T -> bool, key: T -> string, seen: set<string>)
    requires Keys(xs, ok, key) <= seen
    ensures Fresh(xs, ok, key, seen) == []
  {
    if xs != [] {
      FreshAllSeen(xs[..|xs| - 1], ok, key, seen);
    }
  }

  /** The keys taken are the eligible keys not already seen. */
  lemma {:induction false} FreshKeys<T>(xs: seq<T>, ok: T -> bool, key: T -> string, seen: set<string>)
    ensures Keys(Fresh(xs, ok, key, seen), ok, key) == Keys(xs, ok, key) - seen
  {
    if xs != [] {
      var init, x := xs[..|xs| - 1], xs[|xs| - 1];
      FreshKeys(init, ok, key, seen);
      var f := Fresh(init, ok, key, seen);
      var c := if ok(x) && key(x) !in seen && key(x) !in Keys(init, ok, key) then [x] else [];
      KeysAppend(f, c, ok, key);
      assert c != [] ==> (f + c)[..|f + c| - 1] == f;
    }
  }

  /** Every item taken is eligible and has a key not already seen. */
  lemma {:induction false} FreshEligible<T>(xs: seq<T>, ok: T -> bool, key: T -> string, seen: set<string>)
    ensures forall i :: 0 <= i < |Fresh(xs, ok, key, seen)| ==>
      ok(Fresh(xs, ok, key, seen)[i]) && key(Fresh(xs, ok, key, seen)[i]) !in seen
  {
    if xs != [] {
      var init, x := xs[..|xs| - 1], xs[|xs| - 1];
      FreshEligible(init, ok, key, seen);
      var f, f' := Fresh(init, ok, key, seen), Fresh(xs, ok, key, seen);
      var c := if ok(x) && key(x) !in seen && key(x) !in Keys(init, ok, key) then [x] else [];
      assert f' == f + c;
      forall i | 0 <= i < |f'| ensures ok(f'[i]) && key(f'[i]) !in seen {
        if i < |f| {
          assert f'[i] == f[i];
        } else {
          assert f'[i] == c[i - |f|] == x;
        }
      }
    }
  }

  /** No two items taken share a key. */
  lemma {:induction false} FreshDistinct<T>(xs: seq<T>, ok: T -> bool, key: T -> string, seen: set<string>)
    ensures var f := Fresh(xs, ok, key, seen);
      forall i, j :: 0 <= i < j < |f| ==> key(f[i]) != key(f[j])
  {
    if xs != [] {
      var init, x := xs[..|xs| - 1], xs[|xs| - 1];
      FreshDistinct(init, ok, key, seen);
      FreshKeys(init, ok, key, seen);
      FreshEligible(init, ok, key, seen);
      var f := Fresh(init, ok, key, seen);
      if ok(x) && key(x) !in seen && key(x) !in Keys(init, ok, key) {
        var f' := f + [x];
        forall i, j | 0 <= i < j < |f'| ensures key(f'[i]) != key(f'[j]) {
          if j == |f| {
            KeysMember(f, ok, key, key(f[i]));
          } else {
            assert f'[i] == f[i] && f'[j] == f[j];
          }
        }
      }
    }
  }

  /** Every item taken is drawn from `xs`, at most as often as it occurs there. */
  lemma {:induction false} FreshDrawn<T>(xs: seq<T>, ok: T -> bool, key: T -> string, seen: set<string>)
    ensures multiset(Fresh(xs, ok, key, seen)) <= multiset(xs)
  {
    if xs != [] {
      var init := xs[..|xs| - 1];
      FreshDrawn(init, ok, key, seen);
      assert xs == init + [xs[|xs| - 1]];
    }
  }

  /** A batch that repeats itself takes nothing more the second time. */
  lemma FreshRepeat<T>(xs: seq<T>, ok: T -> bool, key: T -> string, seen: set<string>)
    ensures Fresh(xs + xs, ok, key, seen) == Fresh(xs, ok, key, seen)
  {
    FreshAppend(xs, xs, ok, key, seen);
    FreshAllSeen(xs, ok, key, seen + Keys(xs, ok, key));
  }

  /** Once the keys of a batch are seen, the same batch takes nothing. */
  lemma FreshAgain<T>(xs: seq<T>, ok: T -> bool, key: T -> string, seen: set<string>)
    ensures Fresh(xs, ok, key, seen + Keys(xs, ok, key)) == []
  {
    FreshAllSeen(xs, ok, key, seen + Keys(xs, ok, key));
  }
}
