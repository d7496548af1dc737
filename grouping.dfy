/**
 * Grouping a list by a string key with `reduce` into an object of arrays
 * (`if (!acc[k]) acc[k] = []; acc[k].push(x)`), then enumerating the object.
 * Both the step screen (questions by row group) and the review page
 * (answered questions by step title) do this. A group is opened when its key
 * first appears, so the groups come in first-appearance order.
 */
module Grouping {
  import opened Js

  datatype Group<T> = Group(key: string, items: seq<T>)

  /** Position of the group named `k`, if there is one. */
  function FindGroup<T>(groups: seq<Group<T>>, k: string): (r: Option<nat>)
    ensures r.Some? ==> r.value < |groups| && groups[r.value].key == k
    ensures r.None? ==> forall i :: 0 <= i < |groups| ==> groups[i].key != k
  {
    if groups == [] then None
    else if groups[0].key == k then Some(0)
    else match FindGroup(groups[1..], k)
      case None => None
      case Some(i) => Some(i + 1)
  }

  /** One step of the reduce: push `x` onto group `k`, opening it at the end if it is new. */
  function Insert<T>(groups: seq<Group<T>>, k: string, x: T): seq<Group<T>>
  {
    match FindGroup(groups, k)
    case Some(i) => groups[i := Group(k, groups[i].items + [x])]
    case None => groups + [Group(k, [x])]
  }

  /** The reduce over the whole list. */
  function GroupBy<T>(xs: seq<T>, key: T -> string): seq<Group<T>>
  {
    if xs == [] then []
    else Insert(GroupBy(xs[..|xs| - 1], key), key(xs[|xs| - 1]), xs[|xs| - 1])
  }

  /** The elements of `xs` whose key is `k`, in their original order. */
  function WithKey<T(==)>(xs: seq<T>, key: T -> string, k: string): seq<T>
  {
    Filter(xs, x => key(x) == k)
  }

  /** No two groups share a key. */
  ghost predicate KeysDistinct<T>(groups: seq<Group<T>>)
  {
    forall i, j :: 0 <= i < j < |groups| ==> groups[i].key != groups[j].key
  }

  /** Every group is non-empty and holds exactly the elements of `xs` with its key, in their order in `xs`. */
  ghost predicate ItemsByKey<T>(groups: seq<Group<T>>, xs: seq<T>, key: T -> string)
  {
    forall i :: 0 <= i < |groups| ==> groups[i].items == WithKey(xs, key, groups[i].key) && groups[i].items != []
  }

  /** Every element's key has a group. */
  ghost predicate KeysCovered<T>(groups: seq<Group<T>>, xs: seq<T>, key: T -> string)
  {
    forall n :: 0 <= n < |xs| ==> exists i :: 0 <= i < |groups| && groups[i].key == key(xs[n])
  }

  /**
   * `groups` is a correct grouping of `xs`: the keys are distinct, every
   * group holds exactly the elements with its key, in the order they had in
   * `xs`, no group is empty, and every element's key has a group.
   */
  ghost predicate GroupedCorrectly<T>(groups: seq<Group<T>>, xs: seq<T>, key: T -> string)
  {
    KeysDistinct(groups) && ItemsByKey(groups, xs, key) && KeysCovered(groups, xs, key)
  }

  lemma WithKeySnoc<T>(ys: seq<T>, x: T, key: T -> string, k: string)
    ensures WithKey(ys + [x], key, k) == WithKey(ys, key, k) + (if key(x) == k then [x] else [])
  {
    FilterConcat(ys, [x], y => key(y) == k);
    assert [x][1..] == [];
  }

  /** A key no element has selects nothing. */
  lemma {:induction false} WithKeyAbsent<T>(xs: seq<T>, key: T -> string, k: string)
    requires forall n :: 0 <= n < |xs| ==> key(xs[n]) != k
    ensures WithKey(xs, key, k) == []
  {
    if xs != [] {
      WithKeyAbsent(xs[1..], key, k);
    }
  }

  /** Pushing onto the group of the element's key keeps every group exactly its key's elements. */
  lemma PushKeepsItems<T>(groups: seq<Group<T>>, ys: seq<T>, x: T, key: T -> string, p: nat)
    requires KeysDistinct(groups) && ItemsByKey(groups, ys, key)
    requires p < |groups| && groups[p].key == key(x)
    ensures ItemsByKey(groups[p := Group(key(x), groups[p].items + [x])], ys + [x], key)
  {
    var g := groups[p := Group(key(x), groups[p].items + [x])];
    forall i | 0 <= i < |g| ensures g[i].items == WithKey(ys + [x], key, g[i].key) && g[i].items != [] {
      WithKeySnoc(ys, x, key, groups[i].key);
    }
  }

  /** Pushing onto an existing group leaves every key covered. */
  lemma PushKeepsCover<T>(groups: seq<Group<T>>, ys: seq<T>, x: T, key: T -> string, p: nat)
    requires KeysCovered(groups, ys, key)
    requires p < |groups| && groups[p].key == key(x)
    ensures KeysCovered(groups[p := Group(key(x), groups[p].items + [x])], ys + [x], key)
  {
    var xs := ys + [x];
    var g := groups[p := Group(key(x), groups[p].items + [x])];
    forall n | 0 <= n < |xs| ensures exists i :: 0 <= i < |g| && g[i].key == key(xs[n]) {
      if n < |ys| {
        assert xs[n] == ys[n];
        var i :| 0 <= i < |groups| && groups[i].key == key(ys[n]);
        assert g[i].key == groups[i].key;
      } else {
        assert g[p].key == key(xs[n]);
      }
    }
    assert forall n :: 0 <= n < |xs| ==> exists i :: 0 <= i < |g| && g[i].key == key(xs[n]);
    assert KeysCovered(g, xs, key);
  }

  /** Pushing onto a group that exists keeps a grouping correct. */
  lemma InsertExisting<T>(groups: seq<Group<T>>, ys: seq<T>, x: T, key: T -> string, p: nat)
    requires GroupedCorrectly(groups, ys, key)
    requires p < |groups| && groups[p].key == key(x)
    ensures GroupedCorrectly(groups[p := Group(key(x), groups[p].items + [x])], ys + [x], key)
  {
    var g := groups[p := Group(key(x), groups[p].items + [x])];
    PushKeepsItems(groups, ys, x, key, p);
    PushKeepsCover(groups, ys, x, key, p);
    forall i, j | 0 <= i < j < |g| ensures g[i].key != g[j].key {
      assert g[i].key == groups[i].key && g[j].key == groups[j].key;
    }
  }

  /** Opening a group for a key no element had keeps every group exactly its key's elements. */
  lemma OpenKeepsItems<T>(groups: seq<Group<T>>, ys: seq<T>, x: T, key: T -> string)
    requires ItemsByKey(groups, ys, key)
    requires forall i :: 0 <= i < |groups| ==> groups[i].key != key(x)
    requires forall n :: 0 <= n < |ys| ==> key(ys[n]) != key(x)
    ensures ItemsByKey(groups + [Group(key(x), [x])], ys + [x], key)
  {
    var g := groups + [Group(key(x), [x])];
    WithKeyAbsent(ys, key, key(x));
    forall i | 0 <= i < |g| ensures g[i].items == WithKey(ys + [x], key, g[i].key) && g[i].items != [] {
      WithKeySnoc(ys, x, key, g[i].key);
    }
  }

  /** Opening a group for the new element's key leaves every key covered. */
  lemma OpenKeepsCover<T>(groups: seq<Group<T>>, ys: seq<T>, x: T, key: T -> string)
    requires KeysCovered(groups, ys, key)
    ensures KeysCovered(groups + [Group(key(x), [x])], ys + [x], key)
  {
    var xs := ys + [x];
    var g := groups + [Group(key(x), [x])];
    forall n | 0 <= n < |xs| ensures exists i :: 0 <= i < |g| && g[i].key == key(xs[n]) {
      if n < |ys| {
        assert xs[n] == ys[n];
        var i :| 0 <= i < |groups| && groups[i].key == key(ys[n]);
        assert g[i] == groups[i];
      } else {
        assert g[|groups|].key == key(xs[n]);
      }
    }
    assert forall n :: 0 <= n < |xs| ==> exists i :: 0 <= i < |g| && g[i].key == key(xs[n]);
    assert KeysCovered(g, xs, key);
  }

  /** Opening a group for a new key keeps a grouping correct. */
  lemma InsertNew<T>(groups: seq<Group<T>>, ys: seq<T>, x: T, key: T -> string)
    requires GroupedCorrectly(groups, ys, key)
    requires forall i :: 0 <= i < |groups| ==> groups[i].key != key(x)
    ensures GroupedCorrectly(groups + [Group(key(x), [x])], ys + [x], key)
  {
    forall n | 0 <= n < |ys| ensures key(ys[n]) != key(x) {
      var i :| 0 <= i < |groups| && groups[i].key == key(ys[n]);
    }
    OpenKeepsItems(groups, ys, x, key);
    OpenKeepsCover(groups, ys, x, key);
    var g := groups + [Group(key(x), [x])];
    assert forall i :: 0 <= i < |groups| ==> g[i] == groups[i];
    assert KeysDistinct(g);
  }

  /** Pushing one more element keeps a grouping correct. */
  lemma InsertCorrect<T>(groups: seq<Group<T>>, ys: seq<T>, x: T, key: T -> string)
    requires GroupedCorrectly(groups, ys, key)
    ensures GroupedCorrectly(Insert(groups, key(x), x), ys + [x], key)
  {
    match FindGroup(groups, key(x))
    case Some(p) => InsertExisting(groups, ys, x, key, p);
    case None => InsertNew(groups, ys, x, key);
  }

  /**
   * The reduce puts every element in exactly one group (keys are distinct and
   * each group holds exactly the elements with its key) and keeps the
   * relative order of the elements inside each group.
   */
  lemma {:induction false} GroupByCorrect<T>(xs: seq<T>, key: T -> string)
    ensures GroupedCorrectly(GroupBy(xs, key), xs, key)
  {
    if xs != [] {
      var ys, x := xs[..|xs| - 1], xs[|xs| - 1];
      assert ys + [x] == xs;
      var gs := GroupBy(ys, key);
      assert GroupBy(xs, key) == Insert(gs, key(x), x);
      GroupByCorrect(ys, key);
      InsertCorrect(gs, ys, x, key);
    }
  }
}
