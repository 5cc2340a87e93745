/** Grouping a sequence into a dictionary of lists by a key, as a C#
    `Dictionary<string, List<T>>` filled in one pass: keys enumerate in the
    order they were first added, and each list keeps arrival order. Computing
    an item's key may fail (`None`), which abandons the whole grouping. */
module Grouping {
  import opened Wrappers

  /** The items of `items` whose key is `key`, in input order. */
  function Select<T>(items: seq<T>, keyOf: T -> Option<string>, key: string): seq<T> {
    if items == [] then []
    else
      var last := items[|items| - 1];
      Select(items[..|items| - 1], keyOf, key) + (if keyOf(last) == Some(key) then [last] else [])
  }

  /** The keys in the order they first appear. */
  function DistinctKeys<T>(items: seq<T>, keyOf: T -> Option<string>): seq<string> {
    if items == [] then []
    else
      var keys := DistinctKeys(items[..|items| - 1], keyOf);
      match keyOf(items[|items| - 1])
      case None => keys
      case Some(key) => if key in keys then keys else keys + [key]
  }

  /** Every item has a key. */
  predicate AllKeyed<T>(items: seq<T>, keyOf: T -> Option<string>) {
    forall i :: 0 <= i < |items| ==> keyOf(items[i]).Some?
  }

  /** `keys` and `groups` are the dictionary built from `items`: its keys in
      enumeration order and the list under each. */
  ghost predicate Indexes<T>(items: seq<T>, keyOf: T -> Option<string>, keys: seq<string>,
                             groups: map<string, seq<T>>) {
    keys == DistinctKeys(items, keyOf)
    && (forall k :: k in groups <==> k in keys)
    && (forall k :: k in groups ==> groups[k] == Select(items, keyOf, k))
  }

  /** The dictionary: its keys in enumeration order and the list under each. */
  datatype Groups<T> = Groups(keys: seq<string>, groups: map<string, seq<T>>)

  /** One pass over `items`, appending each to the list under its key and
      creating the list when the key is new; `None` as soon as a key cannot be
      computed. */
  method GroupBy<T>(items: seq<T>, keyOf: T -> Option<string>) returns (r: Option<Groups<T>>)
    ensures r.Some? <==> AllKeyed(items, keyOf)
    ensures r.Some? ==> Indexes(items, keyOf, r.value.keys, r.value.groups)
  {
    var keys: seq<string> := [];
    var groups: map<string, seq<T>> := map[];
    for i := 0 to |items|
      invariant AllKeyed(items[..i], keyOf)
      invariant Indexes(items[..i], keyOf, keys, groups)
    {
      var x := items[i];
      var key := keyOf(x);
      if key.None? {
        return None;
      }
      AddToGroup(items[..i], x, keyOf, keys, groups);
      PrefixSnoc(items, i);
      if key.value in groups {
        groups := groups[key.value := groups[key.value] + [x]];
      } else {
        groups := groups[key.value := [x]];
        keys := keys + [key.value];
      }
    }
    assert items[..|items|] == items;
    r := Some(Groups(keys, groups));
  }

  lemma PrefixSnoc<T>(items: seq<T>, i: nat)
    requires i < |items|
    ensures items[..i + 1] == items[..i] + [items[i]]
  {
  }

  /** One more item joins its own group at the end and no other. */
  lemma SelectSnoc<T>(items: seq<T>, x: T, keyOf: T -> Option<string>, key: string)
    ensures Select(items + [x], keyOf, key) ==
      Select(items, keyOf, key) + (if keyOf(x) == Some(key) then [x] else [])
  {
    assert (items + [x])[..|items|] == items;
  }

  /** One more item adds its key at the end when the key is new. */
  lemma DistinctKeysSnoc<T>(items: seq<T>, x: T, keyOf: T -> Option<string>)
    requires keyOf(x).Some?
    ensures DistinctKeys(items + [x], keyOf) ==
      if keyOf(x).value in DistinctKeys(items, keyOf) then DistinctKeys(items, keyOf)
      else DistinctKeys(items, keyOf) + [keyOf(x).value]
  {
    assert (items + [x])[..|items|] == items;
  }

  /** Adding an item to its key's list, creating the list when the key is new,
      keeps the dictionary in step with the items. */
  lemma AddToGroup<T>(items: seq<T>, x: T, keyOf: T -> Option<string>, keys: seq<string>,
                      groups: map<string, seq<T>>)
    requires Indexes(items, keyOf, keys, groups) && keyOf(x).Some?
    ensures var key := keyOf(x).value;
      Indexes(items + [x], keyOf,
              if key in groups then keys else keys + [key],
              if key in groups then groups[key := groups[key] + [x]] else groups[key := [x]])
  {
    DistinctKeysSnoc(items, x, keyOf);
    var key := keyOf(x).value;
    if key !in groups {
      DistinctKeysSpec(items, keyOf);
      SelectEmpty(items, keyOf, key);
    }
    forall k ensures Select(items + [x], keyOf, k) ==
      Select(items, keyOf, k) + (if keyOf(x) == Some(k) then [x] else [])
    {
      SelectSnoc(items, x, keyOf, k);
    }
  }

  /** A group holds exactly the items with its key, and only those. */
  lemma {:induction false} SelectMembers<T>(items: seq<T>, keyOf: T -> Option<string>, key: string)
    ensures forall x :: x in Select(items, keyOf, key) ==> x in items && keyOf(x) == Some(key)
    ensures forall i :: 0 <= i < |items| && keyOf(items[i]) == Some(key) ==> items[i] in Select(items, keyOf, key)
    decreases |items|
  {
    if items != [] {
      var init := items[..|items| - 1];
      SelectMembers(init, keyOf, key);
      assert forall i :: 0 <= i < |init| ==> init[i] == items[i];
    }
  }

  /** A group is empty exactly when no item has its key. */
  lemma {:induction false} SelectEmpty<T>(items: seq<T>, keyOf: T -> Option<string>, key: string)
    ensures Select(items, keyOf, key) == [] <==> forall i :: 0 <= i < |items| ==> keyOf(items[i]) != Some(key)
    decreases |items|
  {
    if items != [] {
      var init := items[..|items| - 1];
      SelectEmpty(init, keyOf, key);
      assert forall i :: 0 <= i < |init| ==> init[i] == items[i];
    }
  }

  /** Grouping keeps arrival order: the group of a concatenation is the
      concatenation of the groups. */
  lemma {:induction false} SelectAppend<T>(a: seq<T>, b: seq<T>, keyOf: T -> Option<string>, key: string)
    ensures Select(a + b, keyOf, key) == Select(a, keyOf, key) + Select(b, keyOf, key)
    decreases |b|
  {
    if b == [] {
      assert a + b == a;
    } else {
      var init := b[..|b| - 1];
      SelectAppend(a, init, keyOf, key);
      assert (a + b)[..|a + b| - 1] == a + init;
    }
  }

  /** The keys are distinct and are exactly the keys of the items. */
  lemma {:induction false} DistinctKeysSpec<T>(items: seq<T>, keyOf: T -> Option<string>)
    ensures forall i, j :: 0 <= i < j < |DistinctKeys(items, keyOf)| ==>
      DistinctKeys(items, keyOf)[i] != DistinctKeys(items, keyOf)[j]
    ensures forall k :: k in DistinctKeys(items, keyOf) <==>
      exists i :: 0 <= i < |items| && keyOf(items[i]) == Some(k)
    decreases |items|
  {
    if items != [] {
      var init := items[..|items| - 1];
      DistinctKeysSpec(init, keyOf);
      assert forall i :: 0 <= i < |init| ==> init[i] == items[i];
      forall k | k in DistinctKeys(items, keyOf)
        ensures exists i :: 0 <= i < |items| && keyOf(items[i]) == Some(k)
      {
        if k in DistinctKeys(init, keyOf) {
          var i :| 0 <= i < |init| && keyOf(init[i]) == Some(k);
          assert keyOf(items[i]) == Some(k);
        } else {
          assert keyOf(items[|items| - 1]) == Some(k);
        }
      }
      forall k | exists i :: 0 <= i < |items| && keyOf(items[i]) == Some(k)
        ensures k in DistinctKeys(items, keyOf)
      {
        var i :| 0 <= i < |items| && keyOf(items[i]) == Some(k);
        if i < |init| {
          assert keyOf(init[i]) == Some(k);
        }
      }
    }
  }

  /** No group is empty. */
  lemma GroupsNonEmpty<T>(items: seq<T>, keyOf: T -> Option<string>)
    ensures forall k :: k in DistinctKeys(items, keyOf) ==> Select(items, keyOf, k) != []
  {
    DistinctKeysSpec(items, keyOf);
    forall k | k in DistinctKeys(items, keyOf) ensures Select(items, keyOf, k) != [] {
      var i :| 0 <= i < |items| && keyOf(items[i]) == Some(k);
      SelectMembers(items, keyOf, k);
    }
  }

  /** The total size of the groups under `keys`. */
  function SumSizes<T>(items: seq<T>, keyOf: T -> Option<string>, keys: seq<string>): nat {
    if keys == [] then 0
    else SumSizes(items, keyOf, keys[..|keys| - 1]) + |Select(items, keyOf, keys[|keys| - 1])|
  }

  /** One more item adds one to the total exactly when its key is among `keys`. */
  lemma {:induction false} SumSizesSnoc<T>(init: seq<T>, x: T, keyOf: T -> Option<string>, keys: seq<string>)
    requires forall i, j :: 0 <= i < j < |keys| ==> keys[i] != keys[j]
    ensures SumSizes(init + [x], keyOf, keys) ==
      SumSizes(init, keyOf, keys) + (if keyOf(x).Some? && keyOf(x).value in keys then 1 else 0)
    decreases |keys|
  {
    var items := init + [x];
    assert items[..|items| - 1] == init;
    if keys != [] {
      var prefix := keys[..|keys| - 1];
      SumSizesSnoc(init, x, keyOf, prefix);
      var last := keys[|keys| - 1];
      if keyOf(x).Some? {
        assert keyOf(x).value in keys <==> keyOf(x).value in prefix || keyOf(x).value == last;
        if keyOf(x).value == last {
          assert keyOf(x).value !in prefix;
        }
      }
    }
  }

  /** When every item has a key the groups partition the input: their sizes
      add up to its length. */
  lemma {:induction false} GroupSizesSum<T>(items: seq<T>, keyOf: T -> Option<string>)
    requires AllKeyed(items, keyOf)
    ensures SumSizes(items, keyOf, DistinctKeys(items, keyOf)) == |items|
    decreases |items|
  {
    if items != [] {
      var init := items[..|items| - 1];
      var x := items[|items| - 1];
      assert items == init + [x];
      assert forall i :: 0 <= i < |init| ==> init[i] == items[i];
      GroupSizesSum(init, keyOf);
      var keys := DistinctKeys(init, keyOf);
      DistinctKeysSpec(init, keyOf);
      SumSizesSnoc(init, x, keyOf, keys);
      var k := keyOf(x).value;
      if k !in keys {
        var keys' := keys + [k];
        assert keys'[..|keys'| - 1] == keys;
        SelectEmpty(init, keyOf, k);
      }
    }
  }
}
