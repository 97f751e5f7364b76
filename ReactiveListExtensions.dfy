/**
 * A mutable list with the removal operations the mixer uses: `Remove` takes out
 * the first occurrence of one element, and the extension `RemoveRange`
 * (ColorMixer/Extensions/ReactiveListExtensions.cs) calls it once per element
 * of a snapshot of the items to remove.
 */
module ReactiveLists {

  /** `s` without the first occurrence of `x`; `s` itself when `x` does not occur. */
  function RemoveFirst<T(==)>(s: seq<T>, x: T): (r: seq<T>)
    ensures x in s ==> |r| == |s| - 1
    ensures x !in s ==> r == s
    ensures multiset(r) == multiset(s) - multiset{x}
  {
    if s == [] then []
    else
      assert s == [s[0]] + s[1..];
      if s[0] == x then s[1..] else [s[0]] + RemoveFirst(s[1..], x)
  }

  /** The index of the first occurrence of `x` in `s`. */
  function IndexOf<T(==)>(s: seq<T>, x: T): (i: nat)
    requires x in s
    ensures i < |s| && s[i] == x
    ensures forall j :: 0 <= j < i ==> s[j] != x
  {
    if s[0] == x then 0 else 1 + IndexOf(s[1..], x)
  }

  /** One step of `RemoveFirst` on a list with a known head. */
  lemma RemoveFirstCons<T>(y: T, t: seq<T>, x: T)
    ensures RemoveFirst([y] + t, x) == if y == x then t else [y] + RemoveFirst(t, x)
  {
    assert ([y] + t)[1..] == t;
  }

  /** Prepending an element commutes with appending a tail. */
  lemma ConsAppend<T>(y: T, t: seq<T>, b: seq<T>)
    ensures ([y] + t) + b == [y] + (t + b)
  {
  }

  /** Removing `x` from `a + [x] + b`, where `a` has no `x`, leaves `a + b`. */
  lemma {:induction false} RemoveFirstAfter<T>(a: seq<T>, x: T, b: seq<T>)
    requires x !in a
    ensures RemoveFirst(a + [x] + b, x) == a + b
  {
    if a == [] {
      assert a + [x] + b == [x] + b;
      RemoveFirstCons(x, b, x);
    } else {
      var y, t := a[0], a[1..];
      assert a == [y] + t;
      assert a + [x] + b == [y] + (t + [x] + b);
      RemoveFirstCons(y, t + [x] + b, x);
      RemoveFirstAfter(t, x, b);
      ConsAppend(y, t, b);
    }
  }

  /** `RemoveFirst` cuts out exactly the element at the first index of `x`. */
  lemma RemoveFirstSplices<T>(s: seq<T>, x: T)
    requires x in s
    ensures RemoveFirst(s, x) == s[..IndexOf(s, x)] + s[IndexOf(s, x) + 1..]
  {
    var i := IndexOf(s, x);
    assert s == s[..i] + [x] + s[i + 1..];
    RemoveFirstAfter(s[..i], x, s[i + 1..]);
  }

  /** `s` after `RemoveFirst` has been applied with each element of `items`, in order. */
  function RemoveAll<T(==)>(s: seq<T>, items: seq<T>): (r: seq<T>)
    ensures |r| <= |s|
    ensures multiset(r) <= multiset(s)
  {
    if items == [] then s
    else RemoveFirst(RemoveAll(s, items[..|items| - 1]), items[|items| - 1])
  }

  /** One more item of a prefix: `RemoveAll` takes one more step. */
  lemma RemoveAllStep<T>(s: seq<T>, items: seq<T>, i: nat)
    requires i < |items|
    ensures RemoveAll(s, items[..i + 1]) == RemoveFirst(RemoveAll(s, items[..i]), items[i])
  {
    assert items[..i + 1][..i] == items[..i];
  }

  /** Removing one occurrence of each item is multiset difference: every item that
      is present loses one occurrence, and nothing else is touched. */
  lemma {:induction false} RemoveAllMultiset<T>(s: seq<T>, items: seq<T>)
    ensures multiset(RemoveAll(s, items)) == multiset(s) - multiset(items)
  {
    if items != [] {
      var init, x := items[..|items| - 1], items[|items| - 1];
      assert items == init + [x];
      RemoveAllMultiset(s, init);
      assert multiset(items) == multiset(init) + multiset{x};
    }
  }

  /** So the length drops by exactly the number of items found and removed. */
  lemma RemoveAllLength<T>(s: seq<T>, items: seq<T>)
    ensures |RemoveAll(s, items)| == |multiset(s) - multiset(items)|
  {
    RemoveAllMultiset(s, items);
  }

  /** Removing nothing leaves the list as it was. */
  lemma RemoveAllNothing<T>(s: seq<T>)
    ensures RemoveAll(s, []) == s
  {
  }

  /** The elements of `s` that are not in `drop`, in their order in `s`. */
  function Keep<T(==)>(s: seq<T>, drop: set<T>): (r: seq<T>)
    ensures forall y :: y in r ==> y in s && y !in drop
  {
    if s == [] then []
    else Keep(s[..|s| - 1], drop) + (if s[|s| - 1] in drop then [] else [s[|s| - 1]])
  }

  lemma {:induction false} KeepAppend<T>(s: seq<T>, t: seq<T>, drop: set<T>)
    ensures Keep(s + t, drop) == Keep(s, drop) + Keep(t, drop)
    decreases |t|
  {
    if t == [] {
      assert s + t == s;
    } else {
      var t', y := t[..|t| - 1], t[|t| - 1];
      assert (s + t)[..|s + t| - 1] == s + t';
      KeepAppend(s, t', drop);
    }
  }

  lemma {:induction false} KeepRemoveFirst<T>(s: seq<T>, x: T, drop: set<T>)
    requires x in drop
    ensures Keep(RemoveFirst(s, x), drop) == Keep(s, drop)
    decreases |s|
  {
    if s != [] {
      assert s == [s[0]] + s[1..];
      KeepAppend([s[0]], s[1..], drop);
      if s[0] != x {
        KeepRemoveFirst(s[1..], x, drop);
        KeepAppend([s[0]], RemoveFirst(s[1..], x), drop);
      } else {
        assert Keep([s[0]], drop) == Keep([], drop) + [];
      }
    }
  }

  /** Elements that are not among the removed items keep their relative order. */
  lemma {:induction false} RemoveAllKeepsOthers<T>(s: seq<T>, items: seq<T>)
    ensures Keep(RemoveAll(s, items), set y | y in items) == Keep(s, set y | y in items)
  {
    RemoveAllKeepsOthersWithin(s, items, set y | y in items);
  }

  lemma {:induction false} RemoveAllKeepsOthersWithin<T>(s: seq<T>, items: seq<T>, drop: set<T>)
    requires forall y :: y in items ==> y in drop
    ensures Keep(RemoveAll(s, items), drop) == Keep(s, drop)
  {
    if items != [] {
      var init, x := items[..|items| - 1], items[|items| - 1];
      assert x in items;
      RemoveAllKeepsOthersWithin(s, init, drop);
      KeepRemoveFirst(RemoveAll(s, init), x, drop);
    }
  }

  /** Removing `x` from a list that holds it before `t` leaves `t` alone. */
  lemma {:induction false} RemoveFirstAppendIn<T>(u: seq<T>, t: seq<T>, x: T)
    requires x in u
    ensures RemoveFirst(u + t, x) == RemoveFirst(u, x) + t
  {
    var y, w := u[0], u[1..];
    assert u == [y] + w;
    ConsAppend(y, w, t);
    RemoveFirstCons(y, w + t, x);
    RemoveFirstCons(y, w, x);
    if y != x {
      RemoveFirstAppendIn(w, t, x);
      ConsAppend(y, RemoveFirst(w, x), t);
    }
  }

  /** Removing `x` from a list whose front `u` lacks it leaves `u` alone. */
  lemma {:induction false} RemoveFirstAppendNotIn<T>(u: seq<T>, t: seq<T>, x: T)
    requires x !in u
    ensures RemoveFirst(u + t, x) == u + RemoveFirst(t, x)
  {
    if u == [] {
      assert u + t == t;
    } else {
      var y, w := u[0], u[1..];
      assert u == [y] + w;
      ConsAppend(y, w, t);
      RemoveFirstCons(y, w + t, x);
      RemoveFirstAppendNotIn(w, t, x);
      ConsAppend(y, w, RemoveFirst(t, x));
    }
  }

  /** Items that can all be found in `s` are removed from `s`, never from what follows it. */
  lemma {:induction false} RemoveAllAppend<T>(s: seq<T>, t: seq<T>, items: seq<T>)
    requires multiset(items) <= multiset(s)
    ensures RemoveAll(s + t, items) == RemoveAll(s, items) + t
  {
    if items != [] {
      var init, x := items[..|items| - 1], items[|items| - 1];
      assert items == init + [x];
      assert multiset(items) == multiset(init) + multiset{x};
      RemoveAllAppend(s, t, init);
      RemoveAllMultiset(s, init);
      assert x in multiset(RemoveAll(s, init));
      RemoveFirstAppendIn(RemoveAll(s, init), t, x);
    }
  }

  /** A list that the mixer mutates in place. */
  class ReactiveList<T(==)> {
    var items: seq<T>

    constructor()
      ensures items == []
    {
      items := [];
    }

    method Add(x: T)
      modifies this
      ensures items == old(items) + [x]
    {
      items := items + [x];
    }

    /** Removes the first occurrence of `x` and reports whether there was one. */
    method Remove(x: T) returns (found: bool)
      modifies this
      ensures found <==> x in old(items)
      ensures items == RemoveFirst(old(items), x)
    {
      found := x in items;
      items := RemoveFirst(items, x);
    }

    /** Removes one occurrence of each element of `range`. The elements are copied
        before the first removal, so `range` may be computed from this very list. */
    method RemoveRange(range: seq<T>)
      modifies this
      ensures items == RemoveAll(old(items), range)
    {
      var snapshot := range;
      ghost var original := items;
      for i := 0 to |snapshot|
        invariant items == RemoveAll(original, snapshot[..i])
      {
        RemoveAllStep(original, snapshot, i);
        var _ := Remove(snapshot[i]);
      }
      assert snapshot[..|snapshot|] == range;
    }
  }
}
