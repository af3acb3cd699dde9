/** Id-keyed operations on the in-memory roster and catalog: `findIndex`,
    replace-or-append, and `filter(x => x.id !== id)`. Generic over the element
    type; `key` extracts the id (`Types.UserId`, `Types.ItemId`). */
module Collections {
  import opened Base

  /** `s.findIndex(x => key(x) === id)`: the first position holding `id`, or -1. */
  function FindIndex<T>(s: seq<T>, key: T -> string, id: string): (i: int)
    ensures -1 <= i < |s|
    ensures i == -1 <==> forall k :: 0 <= k < |s| ==> key(s[k]) != id
    ensures 0 <= i ==> key(s[i]) == id && forall k :: 0 <= k < i ==> key(s[k]) != id
  {
    if s == [] then -1
    else if key(s[0]) == id then 0
    else
      var j := FindIndex(s[1..], key, id);
      if j < 0 then -1 else j + 1
  }

  /** The first element holding `id`, if any. */
  function Lookup<T>(s: seq<T>, key: T -> string, id: string): Option<T> {
    var i := FindIndex(s, key, id);
    if i < 0 then None else Some(s[i])
  }

  /** No two positions hold the same id. */
  ghost predicate UniqueKeys<T>(s: seq<T>, key: T -> string) {
    forall i, j :: 0 <= i < j < |s| ==> key(s[i]) != key(s[j])
  }

  /** The set of ids held by `s`. */
  ghost function Keys<T>(s: seq<T>, key: T -> string): set<string> {
    set k | 0 <= k < |s| :: key(s[k])
  }

  /** Replace the entry with `x`'s id in place, or append `x` when the id is absent. */
  function UpsertById<T>(s: seq<T>, key: T -> string, x: T): (r: seq<T>)
    ensures FindIndex(s, key, key(x)) >= 0 ==>
      var i := FindIndex(s, key, key(x));
      |r| == |s| && r[i] == x && forall k :: 0 <= k < |s| && k != i ==> r[k] == s[k]
    ensures FindIndex(s, key, key(x)) < 0 ==>
      |r| == |s| + 1 && r[|s|] == x && forall k :: 0 <= k < |s| ==> r[k] == s[k]
  {
    var i := FindIndex(s, key, key(x));
    if i >= 0 then s[i := x] else s + [x]
  }

  /** The entries of `s` whose id is not `id`, in order. */
  function Filter<T>(s: seq<T>, key: T -> string, id: string): seq<T> {
    if s == [] then []
    else if key(s[0]) == id then Filter(s[1..], key, id)
    else [s[0]] + Filter(s[1..], key, id)
  }

  /** The filter keeps nothing with `id` and adds nothing. */
  lemma {:induction false} FilterSound<T>(s: seq<T>, key: T -> string, id: string)
    ensures var r := Filter(s, key, id);
      && |r| <= |s|
      && (forall k :: 0 <= k < |r| ==> key(r[k]) != id)
      && (forall x :: x in r ==> x in s)
  {
    if s != [] {
      FilterSound(s[1..], key, id);
      var t := Filter(s[1..], key, id);
      assert forall x :: x in s[1..] ==> x in s;
      if key(s[0]) != id {
        var r := [s[0]] + t;
        assert Filter(s, key, id) == r;
        assert forall k :: 1 <= k < |r| ==> r[k] == t[k - 1];
      }
    }
  }

  /** The filter keeps every entry without `id`. */
  lemma {:induction false} FilterComplete<T>(s: seq<T>, key: T -> string, id: string)
    ensures forall k :: 0 <= k < |s| && key(s[k]) != id ==> s[k] in Filter(s, key, id)
  {
    if s != [] {
      FilterComplete(s[1..], key, id);
      assert forall k :: 1 <= k < |s| ==> s[k] == s[1..][k - 1];
    }
  }

  /** Without an entry holding `id`, the filter changes nothing. */
  lemma {:induction false} FilterUnchanged<T>(s: seq<T>, key: T -> string, id: string)
    requires FindIndex(s, key, id) < 0
    ensures Filter(s, key, id) == s
  {
    if s != [] {
      assert FindIndex(s[1..], key, id) < 0;
      FilterUnchanged(s[1..], key, id);
      assert [s[0]] + s[1..] == s;
    }
  }

  /** `s.filter(x => key(x) !== id)`. */
  function RemoveById<T>(s: seq<T>, key: T -> string, id: string): (r: seq<T>)
    ensures |r| <= |s|
    ensures forall k :: 0 <= k < |r| ==> key(r[k]) != id
    ensures forall x :: x in r ==> x in s
    ensures forall k :: 0 <= k < |s| && key(s[k]) != id ==> s[k] in r
    ensures FindIndex(s, key, id) < 0 ==> r == s
  {
    FilterSound(s, key, id);
    FilterComplete(s, key, id);
    if FindIndex(s, key, id) < 0 then FilterUnchanged(s, key, id); Filter(s, key, id)
    else Filter(s, key, id)
  }

  /** Filtering distributes over concatenation. */
  lemma {:induction false} FilterAppend<T>(a: seq<T>, b: seq<T>, key: T -> string, id: string)
    ensures Filter(a + b, key, id) == Filter(a, key, id) + Filter(b, key, id)
    decreases |a|
  {
    if a == [] {
      assert a + b == b;
    } else {
      assert (a + b)[0] == a[0];
      assert (a + b)[1..] == a[1..] + b;
      FilterAppend(a[1..], b, key, id);
    }
  }

  /** Removing the id of the last element, when some element carries another id, leaves a
      non-empty sequence shorter than the original. */
  lemma RemoveLastIdShrinks<T>(s: seq<T>, key: T -> string, k: nat)
    requires k < |s| && key(s[k]) != key(s[|s| - 1])
    ensures var r := RemoveById(s, key, key(s[|s| - 1]));
      0 < |r| < |s|
  {
    var n := |s|;
    var last := s[n - 1];
    var id := key(last);
    assert s[k] in RemoveById(s, key, id);
    var prefix := s[..n - 1];
    assert s == prefix + [last];
    RemoveByIdAppend(prefix, [last], key, id);
    var dropped := RemoveById([last], key, id);
    assert dropped == [] by {
      assert [last][1..] == [];
      assert Filter([last], key, id) == Filter([], key, id);
    }
  }

  /** Filtering distributes over concatenation: the survivors keep their relative order. */
  lemma RemoveByIdAppend<T>(a: seq<T>, b: seq<T>, key: T -> string, id: string)
    ensures RemoveById(a + b, key, id) == RemoveById(a, key, id) + RemoveById(b, key, id)
  {
    FilterAppend(a, b, key, id);
  }

  /** Removing the same id twice is the same as removing it once. */
  lemma {:induction false} RemoveByIdIdempotent<T>(s: seq<T>, key: T -> string, id: string)
    ensures RemoveById(RemoveById(s, key, id), key, id) == RemoveById(s, key, id)
  {
    var r := RemoveById(s, key, id);
    assert FindIndex(r, key, id) < 0;
  }

  /** Looking up an id in a sequence with one more entry at the front. */
  lemma LookupCons<T>(x: T, t: seq<T>, key: T -> string, id: string)
    ensures Lookup([x] + t, key, id) == if key(x) == id then Some(x) else Lookup(t, key, id)
  {
    assert ([x] + t)[0] == x && ([x] + t)[1..] == t;
  }

  /** Filtering out one id leaves the lookup of every other id as it was. */
  lemma {:induction false} LookupAfterFilter<T>(s: seq<T>, key: T -> string, id: string, other: string)
    requires other != id
    ensures Lookup(Filter(s, key, other), key, id) == Lookup(s, key, id)
    decreases |s|
  {
    if s != [] {
      LookupAfterFilter(s[1..], key, id, other);
      assert s == [s[0]] + s[1..];
      LookupCons(s[0], s[1..], key, id);
      if key(s[0]) != other {
        LookupCons(s[0], Filter(s[1..], key, other), key, id);
      }
    }
  }

  /** After a removal the id is no longer found; every other id is found where it was before. */
  lemma LookupAfterRemove<T>(s: seq<T>, key: T -> string, id: string, other: string)
    requires other != id
    ensures Lookup(RemoveById(s, key, id), key, id) == None
    ensures Lookup(RemoveById(s, key, other), key, id) == Lookup(s, key, id)
  {
    LookupAfterFilter(s, key, id, other);
  }

  /** After an upsert, looking up the upserted id gives the new entry, and every other id is unaffected. */
  lemma {:induction false} LookupAfterUpsert<T>(s: seq<T>, key: T -> string, x: T, id: string)
    ensures Lookup(UpsertById(s, key, x), key, id) == if id == key(x) then Some(x) else Lookup(s, key, id)
  {
    var r := UpsertById(s, key, x);
    var i := FindIndex(s, key, key(x));
    var j := FindIndex(s, key, id);
    var j' := FindIndex(r, key, id);
    if id == key(x) {
      if i >= 0 {
        assert j' == i by {
          assert key(r[i]) == id;
          assert forall k :: 0 <= k < i ==> r[k] == s[k];
        }
      } else {
        assert j' == |s| by {
          assert key(r[|s|]) == id;
          assert forall k :: 0 <= k < |s| ==> r[k] == s[k];
        }
      }
    } else {
      assert forall k :: 0 <= k < |r| ==> (key(r[k]) == id <==> k < |s| && key(s[k]) == id);
      if j >= 0 {
        assert j' == j;
      } else {
        assert j' == -1;
      }
    }
  }

  /** Upserting keeps ids unique and adds exactly the upserted id to the id set. */
  lemma UpsertKeepsKeysUnique<T>(s: seq<T>, key: T -> string, x: T)
    requires UniqueKeys(s, key)
    ensures UniqueKeys(UpsertById(s, key, x), key)
    ensures Keys(UpsertById(s, key, x), key) == Keys(s, key) + {key(x)}
  {
    var r := UpsertById(s, key, x);
    var i := FindIndex(s, key, key(x));
    if i >= 0 {
      assert forall k :: 0 <= k < |r| ==> key(r[k]) == key(s[k]);
    } else {
      assert key(r[|s|]) == key(x);
      assert forall k :: 0 <= k < |s| ==> key(r[k]) == key(s[k]);
    }
    assert Keys(r, key) == Keys(s, key) + {key(x)} by {
      forall v | v in Keys(s, key) + {key(x)} ensures v in Keys(r, key) {
        if v == key(x) {
          if i >= 0 { assert key(r[i]) == v; } else { assert key(r[|s|]) == v; }
        } else {
          var k :| 0 <= k < |s| && key(s[k]) == v;
          assert key(r[k]) == v;
        }
      }
    }
  }

  /** Applying upserts in turn to every element of `xs`. */
  function UpsertAll<T>(s: seq<T>, key: T -> string, xs: seq<T>): seq<T>
    decreases |xs|
  {
    if xs == [] then s else UpsertAll(UpsertById(s, key, xs[0]), key, xs[1..])
  }

  /** The last element of `xs` holding `id`, if any. */
  function LastWithKey<T>(xs: seq<T>, key: T -> string, id: string): Option<T> {
    if xs == [] then None
    else if key(xs[|xs| - 1]) == id then Some(xs[|xs| - 1])
    else LastWithKey(xs[..|xs| - 1], key, id)
  }

  /** Any sequence of upserts: ids stay unique and, for every id, the latest upsert wins;
      ids never upserted keep their original entry. */
  lemma {:induction false} UpsertAllLatestWins<T>(s: seq<T>, key: T -> string, xs: seq<T>, id: string)
    requires UniqueKeys(s, key)
    ensures UniqueKeys(UpsertAll(s, key, xs), key)
    ensures Lookup(UpsertAll(s, key, xs), key, id) ==
      match LastWithKey(xs, key, id) { case Some(x) => Some(x) case None => Lookup(s, key, id) }
    decreases |xs|
  {
    if xs != [] {
      var init := xs[..|xs| - 1];
      var last := xs[|xs| - 1];
      var prev := UpsertAll(s, key, init);
      assert init + [last] == xs;
      UpsertAllSnoc(s, key, init, last);
      assert UpsertAll(s, key, xs) == UpsertById(prev, key, last);
      UpsertAllLatestWins(s, key, init, id);
      UpsertKeepsKeysUnique(prev, key, last);
      LookupAfterUpsert(prev, key, last, id);
      assert LastWithKey(xs, key, id) == if key(last) == id then Some(last) else LastWithKey(init, key, id);
    }
  }

  /** Upserting a list and then one more element is upserting the extended list. */
  lemma {:induction false} UpsertAllSnoc<T>(s: seq<T>, key: T -> string, xs: seq<T>, x: T)
    ensures UpsertAll(s, key, xs + [x]) == UpsertById(UpsertAll(s, key, xs), key, x)
    decreases |xs|
  {
    if xs == [] {
      assert xs + [x] == [x];
    } else {
      assert (xs + [x])[0] == xs[0];
      assert (xs + [x])[1..] == xs[1..] + [x];
      UpsertAllSnoc(UpsertById(s, key, xs[0]), key, xs[1..], x);
    }
  }
}
