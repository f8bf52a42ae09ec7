/**
 * `collections.OrderedDict` built from a sequence of (name, value) pairs, as
 * the batch driver builds it: the entries are the pairs in order, except that
 * a name met again keeps its first position and takes the later value.
 * An ordered dictionary is the sequence of its entries.
 */
module OrderedDicts {

  /** The keys of a sequence of pairs, in order. */
  function Keys<V>(ps: seq<(string, V)>): (r: seq<string>)
    ensures |r| == |ps| && forall i :: 0 <= i < |ps| ==> r[i] == ps[i].0
  {
    if ps == [] then [] else [ps[0].0] + Keys(ps[1..])
  }

  /** The position of the first occurrence of `x` in `xs`. */
  function FirstIndex<T(==)>(xs: seq<T>, x: T): (r: nat)
    requires x in xs
    ensures r < |xs| && xs[r] == x
    ensures forall j :: 0 <= j < r ==> xs[j] != x
  {
    if xs[0] == x then 0 else 1 + FirstIndex(xs[1..], x)
  }

  /** No key occurs twice. */
  predicate DistinctKeys<V>(d: seq<(string, V)>)
  {
    forall i, j :: 0 <= i < j < |d| ==> d[i].0 != d[j].0
  }

  /**
   * `d[k] = v` on a dictionary: the entry of an existing key keeps its
   * position and takes the new value; a new key goes last.
   */
  function Assign<V>(d: seq<(string, V)>, k: string, v: V): (r: seq<(string, V)>)
    ensures k in Keys(d) ==> |r| == |d| && forall i :: 0 <= i < |d| ==> r[i].0 == d[i].0
    ensures k !in Keys(d) ==> r == d + [(k, v)]
    ensures forall i :: 0 <= i < |r| ==> r[i] == if r[i].0 == k then (k, v) else d[i]
  {
    if k in Keys(d) then seq(|d|, i requires 0 <= i < |d| => if d[i].0 == k then (k, v) else d[i])
    else d + [(k, v)]
  }

  /** The position of the last occurrence of `x` in `xs`. */
  function LastIndex<T(==)>(xs: seq<T>, x: T): (r: nat)
    requires x in xs
    ensures r < |xs| && xs[r] == x
    ensures forall j :: r < j < |xs| ==> xs[j] != x
  {
    if xs[|xs| - 1] == x then |xs| - 1 else LastIndex(xs[..|xs| - 1], x)
  }

  /** The value of the last pair with key `k`: the one that wins. */
  function LastValue<V>(ps: seq<(string, V)>, k: string): V
    requires k in Keys(ps)
  {
    ps[LastIndex(Keys(ps), k)].1
  }

  /** Appending a key moves its own last occurrence to the end and no other. */
  lemma LastIndexAppend<T>(xs: seq<T>, y: T, x: T)
    requires x in xs + [y]
    ensures LastIndex(xs + [y], x) == if x == y then |xs| else LastIndex(xs, x)
  {
    assert (xs + [y])[..|xs|] == xs;
  }

  /**
   * `OrderedDict(pairs)`: every key of the pairs, once each, holding the value
   * of its last pair.
   */
  function FromPairs<V>(ps: seq<(string, V)>): (d: seq<(string, V)>)
    ensures HoldsPairs(d, ps)
  {
    if ps == [] then []
    else
      var init := ps[..|ps| - 1];
      var last := ps[|ps| - 1];
      var d0 := FromPairs(init);
      AssignStep(d0, ps);
      Assign(d0, last.0, last.1)
  }

  /** `d` is the dictionary of the pairs `ps`: distinct keys, the same keys, the winning values. */
  ghost predicate HoldsPairs<V>(d: seq<(string, V)>, ps: seq<(string, V)>)
  {
    && DistinctKeys(d)
    && (forall k :: k in Keys(d) <==> k in Keys(ps))
    && WinningValues(d, ps)
  }

  /** Every entry holds the value of the last pair with its key. */
  ghost predicate WinningValues<V>(d: seq<(string, V)>, ps: seq<(string, V)>)
  {
    forall i :: 0 <= i < |d| ==> d[i].0 in Keys(ps) && d[i].1 == LastValue(ps, d[i].0)
  }

  /** One more pair: assigning it to the dictionary of the earlier pairs gives the dictionary of all of them. */
  lemma AssignStep<V>(d: seq<(string, V)>, ps: seq<(string, V)>)
    requires ps != [] && HoldsPairs(d, ps[..|ps| - 1])
    ensures HoldsPairs(Assign(d, ps[|ps| - 1].0, ps[|ps| - 1].1), ps)
  {
    var init, p := ps[..|ps| - 1], ps[|ps| - 1];
    assert ps == init + [p];
    assert Keys(ps) == Keys(init) + [p.0];
    AssignKeys(d, p.0, p.1);
    AssignValues(d, init, p);
  }

  /** Assigning keeps the keys distinct and adds the assigned key. */
  lemma AssignKeys<V>(d: seq<(string, V)>, k: string, v: V)
    requires DistinctKeys(d)
    ensures DistinctKeys(Assign(d, k, v))
    ensures forall x :: x in Keys(Assign(d, k, v)) <==> x in Keys(d) || x == k
  {
    var r := Assign(d, k, v);
    if k in Keys(d) {
      assert Keys(r) == Keys(d);
    } else {
      assert Keys(r) == Keys(d) + [k];
    }
  }

  /** Assigning the next pair's value keeps every entry's value the winning one. */
  lemma AssignValues<V>(d: seq<(string, V)>, ps: seq<(string, V)>, p: (string, V))
    requires WinningValues(d, ps)
    ensures WinningValues(Assign(d, p.0, p.1), ps + [p])
  {
    var all := ps + [p];
    var r := Assign(d, p.0, p.1);
    assert Keys(all) == Keys(ps) + [p.0];
    forall i | 0 <= i < |r|
      ensures r[i].0 in Keys(all) && r[i].1 == LastValue(all, r[i].0)
    {
      LastIndexAppend(Keys(ps), p.0, r[i].0);
    }
  }

  /** Every element of `xs` occurs in `ks`, and `xs` lists them in the order of their first occurrence in `ks` (so once each). */
  predicate InFirstOccurrenceOrder(xs: seq<string>, ks: seq<string>)
  {
    && (forall i :: 0 <= i < |xs| ==> xs[i] in ks)
    && (forall i, j :: 0 <= i < j < |xs| ==> FirstIndex(ks, xs[i]) < FirstIndex(ks, xs[j]))
  }

  /** A key whose first occurrence precedes those of all the others can go in front of them. */
  lemma ConsKeepsOrder(x: string, xs: seq<string>, ks: seq<string>)
    requires x in ks && InFirstOccurrenceOrder(xs, ks)
    requires forall y :: y in xs ==> y in ks && FirstIndex(ks, x) < FirstIndex(ks, y)
    ensures InFirstOccurrenceOrder([x] + xs, ks)
  {
    var ys := [x] + xs;
    forall i, j | 0 <= i < j < |ys|
      ensures FirstIndex(ks, ys[i]) < FirstIndex(ks, ys[j])
    {
      assert ys[j] == xs[j - 1] && ys[j] in xs;
      if i > 0 {
        assert ys[i] == xs[i - 1];
      }
    }
  }

  /** Dropping the first key keeps the order of the others, which all come after it. */
  lemma TailInOrder(xs: seq<string>, ks: seq<string>)
    requires xs != [] && InFirstOccurrenceOrder(xs, ks)
    ensures InFirstOccurrenceOrder(xs[1..], ks)
    ensures forall y :: y in xs[1..] ==> y in ks && FirstIndex(ks, xs[0]) < FirstIndex(ks, y)
  {
    var tail := xs[1..];
    forall i, j | 0 <= i < j < |tail|
      ensures FirstIndex(ks, tail[i]) < FirstIndex(ks, tail[j])
    {
      assert tail[i] == xs[i + 1] && tail[j] == xs[j + 1];
    }
    forall y | y in tail
      ensures y in ks && FirstIndex(ks, xs[0]) < FirstIndex(ks, y)
    {
      var i :| 0 <= i < |tail| && tail[i] == y;
      assert xs[i + 1] == y;
    }
  }

  /** The first occurrence of a key is not moved by appending more keys. */
  lemma {:induction false} FirstIndexPrefix<T>(xs: seq<T>, ys: seq<T>, x: T)
    requires x in xs
    ensures x in xs + ys && FirstIndex(xs + ys, x) == FirstIndex(xs, x)
  {
    if xs[0] != x {
      assert (xs + ys)[1..] == xs[1..] + ys;
      FirstIndexPrefix(xs[1..], ys, x);
    }
  }

  /** Assigning the next key keeps the entries in the order of first occurrence. */
  lemma AssignKeepsOrder<V>(d: seq<(string, V)>, ks: seq<string>, k: string, v: V)
    requires InFirstOccurrenceOrder(Keys(d), ks)
    requires forall x :: x in Keys(d) <==> x in ks
    ensures InFirstOccurrenceOrder(Keys(Assign(d, k, v)), ks + [k])
  {
    var r := Assign(d, k, v);
    if k in Keys(d) {
      assert Keys(r) == Keys(d);
    } else {
      assert Keys(r) == Keys(d) + [k];
    }
    AppendKeepsOrder(Keys(d), ks, k);
  }

  /** Appending a key to `ks` keeps the first occurrences of the earlier keys, and a new key comes after all of them. */
  lemma AppendKeepsOrder(xs: seq<string>, ks: seq<string>, k: string)
    requires InFirstOccurrenceOrder(xs, ks)
    ensures k in xs ==> InFirstOccurrenceOrder(xs, ks + [k])
    ensures k !in ks ==> InFirstOccurrenceOrder(xs + [k], ks + [k])
  {
    var ks' := ks + [k];
    forall i | 0 <= i < |xs|
      ensures xs[i] in ks' && FirstIndex(ks', xs[i]) == FirstIndex(ks, xs[i])
    {
      FirstIndexPrefix(ks, [k], xs[i]);
    }
    if k !in ks {
      assert FirstIndex(ks', k) == |ks|;
    }
  }

  /**
   * The entries are ordered by the first occurrence of their keys among the
   * pairs: a key keeps the position at which it first appeared.
   */
  lemma {:induction false} FromPairsInFirstOccurrenceOrder<V>(ps: seq<(string, V)>)
    ensures InFirstOccurrenceOrder(Keys(FromPairs(ps)), Keys(ps))
  {
    if ps != [] {
      var init := ps[..|ps| - 1];
      var last := ps[|ps| - 1];
      assert Keys(ps) == Keys(init) + [last.0];
      FromPairsInFirstOccurrenceOrder(init);
      AssignKeepsOrder(FromPairs(init), Keys(init), last.0, last.1);
    }
  }

  /** Two pairs with the same key make a single entry, holding the second value. */
  lemma FromPairsOfRepeatedKey<V>(a: (string, V), b: (string, V))
    requires a.0 == b.0
    ensures FromPairs([a, b]) == [b]
  {
    assert [a, b][..1] == [a];
    assert FromPairs([a]) == [a];
  }

  /** Pairs with distinct keys become the dictionary unchanged. */
  lemma {:induction false} FromPairsOfDistinctKeys<V>(ps: seq<(string, V)>)
    requires DistinctKeys(ps)
    ensures FromPairs(ps) == ps
  {
    if ps != [] {
      var init := ps[..|ps| - 1];
      var last := ps[|ps| - 1];
      assert ps == init + [last];
      assert Keys(ps) == Keys(init) + [last.0];
      assert DistinctKeys(init);
      FromPairsOfDistinctKeys(init);
      assert last.0 !in Keys(init);
      assert FromPairs(ps) == Assign(init, last.0, last.1);
    }
  }
}
