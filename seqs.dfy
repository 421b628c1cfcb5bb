/** Generic sequence helpers: keeping the successful results of a per-element parse. */
module Seqs {
  import opened Wrappers

  /** The values of the `Some` results of `f` over `xs`, in order (a list comprehension with a filter). */
  function FilterMap<A, B>(f: A -> Option<B>, xs: seq<A>): (r: seq<B>)
    ensures |r| <= |xs|
    decreases |xs|
  {
    if |xs| == 0 then []
    else
      var last := f(xs[|xs| - 1]);
      FilterMap(f, xs[..|xs| - 1]) + (if last.Some? then [last.value] else [])
  }

  /** When every element succeeds, nothing is dropped and the order is kept. */
  lemma {:induction false} FilterMapAll<A, B>(f: A -> Option<B>, xs: seq<A>)
    requires forall i :: 0 <= i < |xs| ==> f(xs[i]).Some?
    ensures |FilterMap(f, xs)| == |xs|
    ensures forall i :: 0 <= i < |xs| ==> FilterMap(f, xs)[i] == f(xs[i]).value
    decreases |xs|
  {
    if |xs| > 0 {
      var init := xs[..|xs| - 1];
      assert forall i :: 0 <= i < |init| ==> init[i] == xs[i];
      FilterMapAll(f, init);
    }
  }

  /** One more element: its result, if any, is appended. */
  lemma FilterMapSnoc<A, B>(f: A -> Option<B>, xs: seq<A>, i: nat)
    requires i < |xs|
    ensures FilterMap(f, xs[..i + 1])
         == FilterMap(f, xs[..i]) + (if f(xs[i]).Some? then [f(xs[i]).value] else [])
  {
    assert xs[..i + 1][..i] == xs[..i];
  }

  /** When every element gives the matching element of `ys`, the result is `ys`. */
  lemma FilterMapExact<A, B>(f: A -> Option<B>, xs: seq<A>, ys: seq<B>)
    requires |xs| == |ys|
    requires forall i :: 0 <= i < |xs| ==> f(xs[i]) == Some(ys[i])
    ensures FilterMap(f, xs) == ys
  {
    FilterMapAll(f, xs);
  }

  /** When no element succeeds, the result is empty. */
  lemma {:induction false} FilterMapNone<A, B>(f: A -> Option<B>, xs: seq<A>)
    requires forall i :: 0 <= i < |xs| ==> f(xs[i]).None?
    ensures FilterMap(f, xs) == []
    decreases |xs|
  {
    if |xs| > 0 {
      var init := xs[..|xs| - 1];
      assert forall i :: 0 <= i < |init| ==> init[i] == xs[i];
      FilterMapNone(f, init);
    }
  }

  /** Every kept value is the result of some element, and the elements' order is kept. */
  lemma {:induction false} FilterMapFrom<A, B>(f: A -> Option<B>, xs: seq<A>, k: nat)
    requires k < |FilterMap(f, xs)|
    ensures exists i :: 0 <= i < |xs| && f(xs[i]) == Some(FilterMap(f, xs)[k])
    decreases |xs|
  {
    var init := xs[..|xs| - 1];
    if k < |FilterMap(f, init)| {
      FilterMapFrom(f, init, k);
      var i :| 0 <= i < |init| && f(init[i]) == Some(FilterMap(f, init)[k]);
      assert init[i] == xs[i];
    } else {
      assert f(xs[|xs| - 1]) == Some(FilterMap(f, xs)[k]);
    }
  }

  /** All results of `f` over `xs`, in order, when every one succeeds; None when one fails. */
  function MapAll<A, B>(f: A -> Option<B>, xs: seq<A>): (r: Option<seq<B>>)
    ensures r.Some? <==> forall k :: 0 <= k < |xs| ==> f(xs[k]).Some?
    ensures r.Some? ==> (|r.value| == |xs| && forall k :: 0 <= k < |xs| ==> Some(r.value[k]) == f(xs[k]))
    decreases |xs|
  {
    if |xs| == 0 then Some([])
    else
      var init := xs[..|xs| - 1];
      assert forall k :: 0 <= k < |init| ==> init[k] == xs[k];
      match MapAll(f, init)
      case None => None
      case Some(done) =>
        match f(xs[|xs| - 1])
        case None => None
        case Some(b) => Some(done + [b])
  }

  /** Mapping one more element: it fails when the prefix or the element fails. */
  lemma MapAllSnoc<A, B>(f: A -> Option<B>, xs: seq<A>, i: nat)
    requires i < |xs|
    ensures MapAll(f, xs[..i + 1])
         == if MapAll(f, xs[..i]).None? || f(xs[i]).None? then None
            else Some(MapAll(f, xs[..i]).value + [f(xs[i]).value])
  {
    assert xs[..i + 1][..i] == xs[..i];
  }

  /** Like FilterMap, with each element's position passed to `f`. */
  function FilterMapIndexed<A, B>(f: (nat, A) -> Option<B>, xs: seq<A>): (r: seq<B>)
    ensures |r| <= |xs|
    decreases |xs|
  {
    if |xs| == 0 then []
    else
      var last := f(|xs| - 1, xs[|xs| - 1]);
      FilterMapIndexed(f, xs[..|xs| - 1]) + (if last.Some? then [last.value] else [])
  }

  /** One more element: its result, if any, is appended. */
  lemma FilterMapIndexedSnoc<A, B>(f: (nat, A) -> Option<B>, xs: seq<A>, i: nat)
    requires i < |xs|
    ensures FilterMapIndexed(f, xs[..i + 1])
         == FilterMapIndexed(f, xs[..i]) + (if f(i, xs[i]).Some? then [f(i, xs[i]).value] else [])
  {
    assert xs[..i + 1][..i] == xs[..i];
  }

  /** When every element gives the matching element of `ys`, the result is `ys`. */
  lemma {:induction false} FilterMapIndexedExact<A, B>(f: (nat, A) -> Option<B>, xs: seq<A>, ys: seq<B>)
    requires |xs| == |ys|
    requires forall k :: 0 <= k < |xs| ==> f(k, xs[k]) == Some(ys[k])
    ensures FilterMapIndexed(f, xs) == ys
    decreases |xs|
  {
    if |xs| > 0 {
      var n := |xs| - 1;
      assert forall k :: 0 <= k < n ==> xs[..n][k] == xs[k] && ys[..n][k] == ys[k];
      FilterMapIndexedExact(f, xs[..n], ys[..n]);
      assert ys[..n] + [ys[n]] == ys;
    }
  }

  /** A dictionary lookup in a table of pairs: the value of the first entry with that key. */
  function Lookup<V>(table: seq<(string, V)>, key: string): (r: Option<V>)
    ensures r.Some? <==> exists k :: 0 <= k < |table| && table[k].0 == key
    ensures r.Some? ==> exists k :: 0 <= k < |table| && table[k] == (key, r.value)
    decreases |table|
  {
    if |table| == 0 then None
    else if table[0].0 == key then Some(table[0].1)
    else
      var r := Lookup(table[1..], key);
      assert forall k :: 1 <= k < |table| ==> table[k] == table[1..][k - 1];
      r
  }

  /** The keys of a table of pairs, in order. */
  function Keys<V>(table: seq<(string, V)>): (r: seq<string>)
    ensures |r| == |table|
    ensures forall k :: 0 <= k < |r| ==> r[k] == table[k].0
  {
    seq(|table|, k requires 0 <= k < |table| => table[k].0)
  }

  /** The elements of `xs` that satisfy `p`, in order (a list comprehension with a condition). */
  function Filter<T>(p: T -> bool, xs: seq<T>): (r: seq<T>)
    ensures |r| <= |xs|
    decreases |xs|
  {
    if |xs| == 0 then []
    else (if p(xs[0]) then [xs[0]] else []) + Filter(p, xs[1..])
  }

  /** An element is kept exactly when it is in the input and satisfies the condition. */
  lemma {:induction false} FilterMembers<T>(p: T -> bool, xs: seq<T>, x: T)
    ensures x in Filter(p, xs) <==> x in xs && p(x)
    decreases |xs|
  {
    if |xs| > 0 {
      FilterMembers(p, xs[1..], x);
      assert xs == [xs[0]] + xs[1..];
    }
  }

  /** Nothing is kept when no element satisfies the condition. */
  lemma {:induction false} FilterEmpty<T>(p: T -> bool, xs: seq<T>)
    ensures Filter(p, xs) == [] <==> forall k :: 0 <= k < |xs| ==> !p(xs[k])
    decreases |xs|
  {
    if |xs| > 0 {
      FilterEmpty(p, xs[1..]);
      assert forall k :: 1 <= k < |xs| ==> xs[k] == xs[1..][k - 1];
    }
  }

  /** Filtering a list extended by one element filters the list, then tests the element. */
  lemma {:induction false} FilterSnoc<T>(p: T -> bool, xs: seq<T>, x: T)
    ensures Filter(p, xs + [x]) == Filter(p, xs) + (if p(x) then [x] else [])
    decreases |xs|
  {
    var ys := xs + [x];
    if |xs| == 0 {
      assert ys == [x] && ys[1..] == [];
    } else {
      assert ys[0] == xs[0] && ys[1..] == xs[1..] + [x];
      FilterSnoc(p, xs[1..], x);
      calc {
        Filter(p, ys);
        (if p(xs[0]) then [xs[0]] else []) + Filter(p, xs[1..] + [x]);
        (if p(xs[0]) then [xs[0]] else []) + (Filter(p, xs[1..]) + (if p(x) then [x] else []));
        Filter(p, xs) + (if p(x) then [x] else []);
      }
    }
  }

  /** A longer prefix is the shorter one and the next element. */
  lemma TakeSnoc<T>(xs: seq<T>, i: nat)
    requires i < |xs|
    ensures xs[..i + 1] == xs[..i] + [xs[i]]
  {
  }

  /** The value of `f` at the first position from `i` to `n` where it has one (`re.search`), or None. */
  function FirstSome<T>(f: nat -> Option<T>, n: nat, i: nat): Option<T>
    decreases n - i
  {
    if f(i).Some? then f(i) else if i >= n then None else FirstSome(f, n, i + 1)
  }

  /** That first position, or `n` when there is none. */
  function FirstSomeAt<T>(f: nat -> Option<T>, n: nat, i: nat): nat
    decreases n - i
  {
    if f(i).Some? || i >= n then i else FirstSomeAt(f, n, i + 1)
  }

  /** The search returns `f` at the position it stops at, which has a value unless it is `n`, and `f` has nothing before it. */
  lemma {:induction false} FirstSomeLeftmost<T>(f: nat -> Option<T>, n: nat, i: nat)
    requires i <= n
    ensures var k := FirstSomeAt(f, n, i);
      && i <= k <= n && f(k) == FirstSome(f, n, i) && (k < n ==> f(k).Some?)
      && forall j :: i <= j < k ==> f(j).None?
    decreases n - i
  {
    if f(i).None? && i < n {
      FirstSomeLeftmost(f, n, i + 1);
    }
  }
}
