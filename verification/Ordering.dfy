// Walking ordered maps: sorting, grouping and listing by numeric id.

module Ordering {
  // Stable insertion by key: the order in which ordered maps are walked.
  function InsertBy<T(!new)>(key: T -> nat, x: T, s: seq<T>): (r: seq<T>)
    ensures multiset(r) == multiset(s) + multiset{x}
    ensures forall y :: y in r <==> y in s || y == x
  {
    if s == [] || key(x) < key(s[0]) then [x] + s
    else
      assert s == [s[0]] + s[1..];
      [s[0]] + InsertBy(key, x, s[1..])
  }

  function SortBy<T(!new)>(key: T -> nat, s: seq<T>): (r: seq<T>)
    ensures multiset(r) == multiset(s)
    ensures |r| == |s|
    ensures forall x :: x in r <==> x in s
  {
    if s == [] then []
    else
      assert s == s[..|s| - 1] + [s[|s| - 1]];
      var r := InsertBy(key, s[|s| - 1], SortBy(key, s[..|s| - 1]));
      assert |r| == |multiset(r)| == |multiset(s)|;
      r
  }

  ghost predicate DistinctKeys<T(!new)>(key: T -> nat, s: seq<T>) {
    forall i, j :: 0 <= i < j < |s| ==> key(s[i]) != key(s[j])
  }

  ghost predicate SortedKeys<T(!new)>(key: T -> nat, s: seq<T>) {
    forall i, j :: 0 <= i < j < |s| ==> key(s[i]) <= key(s[j])
  }

  lemma {:induction false} InsertSorted<T(!new)>(key: T -> nat, x: T, s: seq<T>)
    requires SortedKeys(key, s)
    ensures SortedKeys(key, InsertBy(key, x, s))
  {
    if s != [] && !(key(x) < key(s[0])) {
      var t := InsertBy(key, x, s[1..]);
      InsertSorted(key, x, s[1..]);
      forall j | 0 <= j < |t|
        ensures key(s[0]) <= key(t[j])
      {
        assert t[j] in t;
      }
    }
  }

  lemma {:induction false} InsertDistinct<T(!new)>(key: T -> nat, x: T, s: seq<T>)
    requires DistinctKeys(key, s)
    requires forall y :: y in s ==> key(y) != key(x)
    ensures DistinctKeys(key, InsertBy(key, x, s))
  {
    if s != [] && !(key(x) < key(s[0])) {
      var t := InsertBy(key, x, s[1..]);
      InsertDistinct(key, x, s[1..]);
      forall j | 0 <= j < |t|
        ensures key(s[0]) != key(t[j])
      {
        assert t[j] in t;
      }
    }
  }

  lemma {:induction false} SortKeeps<T(!new)>(key: T -> nat, s: seq<T>)
    ensures SortedKeys(key, SortBy(key, s))
    ensures DistinctKeys(key, s) ==> DistinctKeys(key, SortBy(key, s))
  {
    if s != [] {
      var init, last := s[..|s| - 1], s[|s| - 1];
      SortKeeps(key, init);
      InsertSorted(key, last, SortBy(key, init));
      if DistinctKeys(key, s) {
        InsertDistinct(key, last, SortBy(key, init));
      }
    }
  }

  // `entries` lists exactly the bindings of `m`, each once.
  ghost predicate Lists<T(!new)>(key: T -> nat, entries: seq<T>, m: map<nat, T>) {
    && DistinctKeys(key, entries)
    && (forall x :: x in entries ==> key(x) in m && m[key(x)] == x)
    && (forall k :: k in m ==> m[k] in entries && key(m[k]) == k)
  }

  lemma ListsOneMap<T(!new)>(key: T -> nat, entries: seq<T>, m: map<nat, T>, m': map<nat, T>)
    requires Lists(key, entries, m) && Lists(key, entries, m')
    ensures m == m'
  {
    assert forall k :: k in m ==> m[k] in entries;
    assert forall k :: k in m' ==> m'[k] in entries;
  }

  function KeysOf<T(!new)>(key: T -> nat, s: seq<T>): (keys: seq<nat>)
    ensures |keys| == |s| && forall i :: 0 <= i < |s| ==> keys[i] == key(s[i])
  {
    seq(|s|, i requires 0 <= i < |s| => key(s[i]))
  }

  // The keys after an insertion depend on the keys alone.
  lemma {:induction false} KeysOfInserted<T(!new)>(key: T -> nat, x: T, s: seq<T>)
    ensures KeysOf(key, InsertBy(key, x, s)) == InsertBy(Identity, key(x), KeysOf(key, s))
  {
    var keys := KeysOf(key, s);
    if s == [] || key(x) < key(s[0]) {
      assert KeysOf(key, [x] + s) == [key(x)] + keys;
    } else {
      KeysOfInserted(key, x, s[1..]);
      assert KeysOf(key, s[1..]) == keys[1..];
      var rest := InsertBy(key, x, s[1..]);
      assert KeysOf(key, [s[0]] + rest) == [key(s[0])] + KeysOf(key, rest);
    }
  }

  ghost function FirstKeys<T(!new)>(key: T -> nat, s: seq<T>, i: nat): set<nat>
    requires i <= |s|
  {
    set j | 0 <= j < i :: key(s[j])
  }

  lemma FirstKeysGrow<T(!new)>(key: T -> nat, s: seq<T>, i: nat)
    requires i < |s| && DistinctKeys(key, s)
    ensures key(s[i]) !in FirstKeys(key, s, i)
    ensures FirstKeys(key, s, i + 1) == FirstKeys(key, s, i) + {key(s[i])}
  {
  }

  // The entries filed under key `k`, in order.
  function EntriesFor<T(!new)>(key: T -> nat, s: seq<T>, k: nat): (r: seq<T>)
    ensures forall x :: x in r <==> x in s && key(x) == k
  {
    if s == [] then []
    else
      var init, last := s[..|s| - 1], s[|s| - 1];
      assert s == init + [last];
      EntriesFor(key, init, k) + (if key(last) == k then [last] else [])
  }

  method GroupBy<T(!new)>(key: T -> nat, s: seq<T>) returns (groups: map<nat, seq<T>>)
    ensures forall k :: k in groups <==> EntriesFor(key, s, k) != []
    ensures forall k :: k in groups ==> groups[k] == EntriesFor(key, s, k)
  {
    groups := map[];
    for i := 0 to |s|
      invariant forall k :: k in groups <==> EntriesFor(key, s[..i], k) != []
      invariant forall k :: k in groups ==> groups[k] == EntriesFor(key, s[..i], k)
    {
      assert s[..i + 1][..i] == s[..i];
      var k := key(s[i]);
      groups := groups[k := (if k in groups then groups[k] else []) + [s[i]]];
    }
    assert s[..|s|] == s;
  }

  lemma EntriesGrow<T(!new)>(key: T -> nat, s: seq<T>, k: nat)
    requires s != []
    ensures |EntriesFor(key, s, k)| ==
            |EntriesFor(key, s[..|s| - 1], k)| + (if key(s[|s| - 1]) == k then 1 else 0)
  {
  }

  lemma NoEntries<T(!new)>(key: T -> nat, s: seq<T>, k: nat)
    requires forall x :: x in s ==> key(x) != k
    ensures EntriesFor(key, s, k) == []
  {
    var r := EntriesFor(key, s, k);
    assert forall i :: 0 <= i < |r| ==> r[i] !in s;
  }

  lemma {:induction false} DistinctIsSingle<T(!new)>(key: T -> nat, s: seq<T>, k: nat)
    requires DistinctKeys(key, s)
    ensures |EntriesFor(key, s, k)| <= 1
  {
    if s != [] {
      var init, last := s[..|s| - 1], s[|s| - 1];
      EntriesGrow(key, s, k);
      DistinctIsSingle(key, init, k);
      if key(last) == k {
        assert forall x :: x in init ==> key(x) != k;
        NoEntries(key, init, k);
      }
    }
  }

  lemma {:induction false} RepeatIsMany<T(!new)>(key: T -> nat, s: seq<T>, i: nat, j: nat)
    requires i < j < |s| && key(s[i]) == key(s[j])
    ensures |EntriesFor(key, s, key(s[i]))| >= 2
  {
    var init, last := s[..|s| - 1], s[|s| - 1];
    EntriesGrow(key, s, key(s[i]));
    if j < |init| {
      RepeatIsMany(key, init, i, j);
    } else {
      assert init[i] in EntriesFor(key, init, key(s[i]));
    }
  }

  // The keys of an ordered map, in walking order.
  method AscendingKeys(keys: set<nat>) returns (s: seq<nat>)
    ensures forall k :: k in s <==> k in keys
    ensures forall i, j :: 0 <= i < j < |s| ==> s[i] < s[j]
  {
    var rest := keys;
    s := [];
    while rest != {}
      invariant Walked(keys, rest, s)
      decreases rest
    {
      var k :| k in rest;
      WalkedMore(keys, rest, s, k);
      s, rest := s + [k], rest - {k};
    }
    SortKeeps(Identity, s);
    s := SortBy(Identity, s);
  }

  // Every key outside `rest` has been listed once.
  ghost predicate Walked(keys: set<nat>, rest: set<nat>, listed: seq<nat>) {
    rest <= keys && (forall k :: k in listed <==> k in keys && k !in rest) && DistinctKeys(Identity, listed)
  }

  lemma WalkedMore(keys: set<nat>, rest: set<nat>, listed: seq<nat>, k: nat)
    requires Walked(keys, rest, listed) && k in rest
    ensures Walked(keys, rest - {k}, listed + [k])
  {
    var more := listed + [k];
    forall i, j | 0 <= i < j < |more|
      ensures Identity(more[i]) != Identity(more[j])
    {
      assert more[i] in listed;
    }
  }

  function Identity(k: nat): nat {
    k
  }
}
