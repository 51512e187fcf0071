/** JavaScript `Set` semantics as the crawler uses them: a collection without
    duplicates that remembers first-insertion order, so that `Array.from(set)`
    lists each element once, in the order it was first added. */
module OrderedSets {

  predicate NoDups<T(==)>(xs: seq<T>)
  {
    forall i, j :: 0 <= i < j < |xs| ==> xs[i] != xs[j]
  }

  /** `xs` is an initial segment of `ys`: nothing was removed or reordered. */
  predicate IsPrefix<T(==)>(xs: seq<T>, ys: seq<T>)
  {
    |xs| <= |ys| && ys[..|xs|] == xs
  }

  /** `set.add(x)`: appends `x` unless it is already present. */
  function Add<T(==,!new)>(xs: seq<T>, x: T): (r: seq<T>)
    ensures IsPrefix(xs, r)
    ensures forall y :: y in r <==> y in xs || y == x
    ensures x in xs ==> r == xs
    ensures NoDups(xs) ==> NoDups(r)
  {
    if x in xs then xs else xs + [x]
  }

  /** `ys.forEach(y => set.add(y))`: adds each element of `ys` in turn. */
  function AddAll<T(==,!new)>(xs: seq<T>, ys: seq<T>): (r: seq<T>)
    ensures IsPrefix(xs, r)
    ensures forall y :: y in r <==> y in xs || y in ys
    ensures NoDups(xs) ==> NoDups(r)
    decreases |ys|
  {
    if ys == [] then xs
    else
      var before := AddAll(xs, ys[..|ys| - 1]);
      assert ys == ys[..|ys| - 1] + [ys[|ys| - 1]];
      Add(before, ys[|ys| - 1])
  }

  /** The position at which `x` first occurs in `ys` (|ys| when it does not). */
  function FirstIndex<T(==)>(ys: seq<T>, x: T): (k: nat)
    ensures k <= |ys|
    ensures k < |ys| <==> x in ys
    ensures k < |ys| ==> ys[k] == x && x !in ys[..k]
  {
    if ys == [] then 0
    else if ys[0] == x then 0
    else
      var k := 1 + FirstIndex(ys[1..], x);
      assert k < |ys| ==> ys[..k] == [ys[0]] + ys[1..][..k - 1];
      k
  }

  /** The elements of `r` past position `n` appear in the order of their first
      occurrence in `ys`. */
  predicate InFirstOccurrenceOrder<T(==)>(r: seq<T>, n: nat, ys: seq<T>)
  {
    forall i, j :: n <= i < j < |r| ==> FirstIndex(ys, r[i]) < FirstIndex(ys, r[j]) < |ys|
  }

  /** Elements new to the set appear in the order of their first occurrence in
      `ys`: this is the insertion order `Array.from` reports. */
  lemma {:induction false} AddAllKeepsFirstInsertionOrder<T(!new)>(xs: seq<T>, ys: seq<T>)
    requires NoDups(xs)
    ensures InFirstOccurrenceOrder(AddAll(xs, ys), |xs|, ys)
    decreases |ys|
  {
    if ys != [] {
      var front := ys[..|ys| - 1];
      var last := ys[|ys| - 1];
      assert ys == front + [last];
      AddAllKeepsFirstInsertionOrder(xs, front);
      AddOneKeepsOrder(xs, AddAll(xs, front), front, last);
    }
  }

  /** Adding `ys` and then `zs` builds the same set as adding `ys + zs` in
      one pass: the loop's successive `forEach` calls compose. */
  lemma {:induction false} AddAllConcat<T(!new)>(xs: seq<T>, ys: seq<T>, zs: seq<T>)
    ensures AddAll(AddAll(xs, ys), zs) == AddAll(xs, ys + zs)
    decreases |zs|
  {
    if zs == [] {
      assert ys + zs == ys;
    } else {
      var front, last := zs[..|zs| - 1], zs[|zs| - 1];
      SplitLast(ys, zs);
      AddAllConcat(xs, ys, front);
      AddAllSnoc(xs, ys + front, last);
      AddAllSnoc(AddAll(xs, ys), front, last);
    }
  }

  lemma SplitLast<T>(ys: seq<T>, zs: seq<T>)
    requires zs != []
    ensures zs == zs[..|zs| - 1] + [zs[|zs| - 1]]
    ensures ys + zs == (ys + zs[..|zs| - 1]) + [zs[|zs| - 1]]
  {
    assert zs == zs[..|zs| - 1] + [zs[|zs| - 1]];
  }

  /** Adding one more element at the end is one more `add`. */
  lemma AddAllSnoc<T(!new)>(xs: seq<T>, ys: seq<T>, y: T)
    ensures AddAll(xs, ys + [y]) == Add(AddAll(xs, ys), y)
  {
    var w := ys + [y];
    assert w[..|w| - 1] == ys;
  }

  lemma AddOneKeepsOrder<T(!new)>(xs: seq<T>, before: seq<T>, front: seq<T>, last: T)
    requires IsPrefix(xs, before) && NoDups(before)
    requires forall y :: y in before <==> y in xs || y in front
    requires InFirstOccurrenceOrder(before, |xs|, front)
    ensures InFirstOccurrenceOrder(Add(before, last), |xs|, front + [last])
  {
    var ys := front + [last];
    var r := Add(before, last);
    forall i | |xs| <= i < |before|
      ensures FirstIndex(ys, before[i]) == FirstIndex(front, before[i]) < |front|
    {
      PastPrefixIsNew(xs, before, i);
      FirstIndexOfPrefix(front, last, before[i]);
    }
    if last !in before {
      FirstIndexOfPrefix(front, last, last);
      forall i, j | |xs| <= i < j < |r|
        ensures FirstIndex(ys, r[i]) < FirstIndex(ys, r[j]) < |ys|
      {
        assert r[i] == before[i];
        if j < |before| {
          assert r[j] == before[j];
        }
      }
    }
  }

  /** In a duplicate-free sequence extending `xs`, the elements after `xs`
      are not in `xs`. */
  lemma PastPrefixIsNew<T>(xs: seq<T>, ys: seq<T>, i: int)
    requires IsPrefix(xs, ys) && NoDups(ys) && |xs| <= i < |ys|
    ensures ys[i] !in xs
  {
  }

  lemma {:induction false} FirstIndexOfPrefix<T>(front: seq<T>, last: T, x: T)
    ensures x in front ==> FirstIndex(front + [last], x) == FirstIndex(front, x)
    ensures x !in front && x == last ==> FirstIndex(front + [last], x) == |front|
    decreases |front|
  {
    var ys := front + [last];
    if front != [] {
      assert ys[1..] == front[1..] + [last];
      FirstIndexOfPrefix(front[1..], last, x);
    }
  }

}
