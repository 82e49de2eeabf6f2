/** Singly linked member lists threaded through the members' `siblings` fields.

    `next[x]` is the sibling link of slot `x`, `heads[g]` the first member of group `g`.  A family of
    lists is described by the sequences of their members. */
module Siblings {
  import opened Library
  import opened Balance

  function HeadOf(xs: seq<nat>): Option<nat> { if xs == [] then None else Some(xs[0]) }

  function NextOf(xs: seq<nat>, i: nat): Option<nat> { if i + 1 < |xs| then Some(xs[i + 1]) else None }

  /** Following the links from `head` visits exactly `xs`, then ends. */
  ghost predicate Chain(next: seq<Option<nat>>, head: Option<nat>, xs: seq<nat>) {
    && head == HeadOf(xs)
    && (forall i | 0 <= i < |xs| :: xs[i] < |next|)
    && (forall i {:trigger NextOf(xs, i)} | 0 <= i < |xs| :: next[xs[i]] == NextOf(xs, i))
  }

  ghost predicate Chains(next: seq<Option<nat>>, heads: seq<Option<nat>>, chains: seq<seq<nat>>) {
    && |heads| == |chains|
    && forall g | 0 <= g < |chains| :: Chain(next, heads[g], chains[g])
  }

  /** No list repeats a member and no two lists share one. */
  ghost predicate Separate(chains: seq<seq<nat>>) {
    && (forall g | 0 <= g < |chains| :: Distinct(chains[g]))
    && (forall g, h, x | 0 <= g < |chains| && 0 <= h < |chains| && x in chains[g] && x in chains[h] :: g == h)
  }

  ghost predicate Nowhere(chains: seq<seq<nat>>, x: nat) {
    forall g | 0 <= g < |chains| :: x !in chains[g]
  }

  ghost predicate Alone(next: seq<Option<nat>>, chains: seq<seq<nat>>, x: nat) {
    x < |next| && next[x] == None && Nowhere(chains, x)
  }

  /** Linking a lone member behind the last one. */
  lemma AppendChain(next: seq<Option<nat>>, head: Option<nat>, xs: seq<nat>, x: nat)
    requires Chain(next, head, xs) && Distinct(xs) && x !in xs && x < |next| && next[x] == None
    ensures if xs == [] then Chain(next, Some(x), [x])
            else Chain(next[xs[|xs| - 1] := Some(x)], head, xs + [x])
  {
    if xs != [] {
      var ys, next' := xs + [x], next[xs[|xs| - 1] := Some(x)];
      forall i | 0 <= i < |ys|
        ensures next'[ys[i]] == NextOf(ys, i)
      {
        if i < |xs| { assert next[xs[i]] == NextOf(xs, i); }
      }
    }
  }

  /** The links after unlinking the member at position `i`: its predecessor skips it. */
  function Unlink(next: seq<Option<nat>>, xs: seq<nat>, i: nat): (r: seq<Option<nat>>)
    requires i < |xs| && forall k | 0 <= k < |xs| :: xs[k] < |next|
    ensures |r| == |next|
  {
    (if i == 0 then next else next[xs[i - 1] := next[xs[i]]])[xs[i] := None]
  }

  lemma RemoveChain(next: seq<Option<nat>>, head: Option<nat>, xs: seq<nat>, i: nat)
    requires Chain(next, head, xs) && Distinct(xs) && i < |xs|
    ensures Chain(Unlink(next, xs, i), if i == 0 then next[xs[0]] else head, Without(xs, i))
  {
    var ys, next' := Without(xs, i), Unlink(next, xs, i);
    forall j | 0 <= j < |ys|
      ensures ys[j] < |next'| && next'[ys[j]] == NextOf(ys, j)
    {
      var k := if j < i then j else j + 1;
      assert ys[j] == xs[k];
      assert next[xs[k]] == NextOf(xs, k);
      assert next[xs[i]] == NextOf(xs, i);
    }
    assert next[xs[0]] == NextOf(xs, 0);
  }

  /** A list none of whose links changed is the same list. */
  lemma SameChain(next: seq<Option<nat>>, next': seq<Option<nat>>, head: Option<nat>, xs: seq<nat>)
    requires Chain(next, head, xs) && |next'| == |next|
    requires forall x | x in xs :: x < |next| && next'[x] == next[x]
    ensures Chain(next', head, xs)
  {
    forall i | 0 <= i < |xs|
      ensures xs[i] < |next'| && next'[xs[i]] == NextOf(xs, i)
    {
      assert xs[i] in xs;
    }
  }

  /** Appending to one list of a family leaves a family of separate lists. */
  lemma AppendToFamily(next: seq<Option<nat>>, heads: seq<Option<nat>>, chains: seq<seq<nat>>, g: nat, x: nat)
    requires Chains(next, heads, chains) && Separate(chains) && g < |chains| && Alone(next, chains, x)
    ensures var xs := chains[g];
      && (xs != [] ==> xs[|xs| - 1] < |next|)
      && Separate(chains[g := xs + [x]])
      && if xs == [] then Chains(next, heads[g := Some(x)], chains[g := [x]])
         else Chains(next[xs[|xs| - 1] := Some(x)], heads, chains[g := xs + [x]])
  {
    var xs := chains[g];
    AppendChain(next, heads[g], xs, x);
    if xs != [] {
      var last := xs[|xs| - 1];
      assert last in xs;
      forall h | 0 <= h < |chains| && h != g
        ensures Chain(next[last := Some(x)], heads[h], chains[h])
      {
        SameChain(next, next[last := Some(x)], heads[h], chains[h]);
      }
    }
  }

  lemma WithoutElems(xs: seq<nat>, i: nat)
    requires Distinct(xs) && i < |xs|
    ensures Distinct(Without(xs, i)) && forall y | y in Without(xs, i) :: y in xs && y != xs[i]
  {
  }

  lemma RemoveSeparate(chains: seq<seq<nat>>, g: nat, i: nat)
    requires Separate(chains) && g < |chains| && i < |chains[g]|
    ensures Separate(chains[g := Without(chains[g], i)])
    ensures Nowhere(chains[g := Without(chains[g], i)], chains[g][i])
  {
    WithoutElems(chains[g], i);
    assert chains[g][i] in chains[g];
  }

  /** Removing a member leaves a family of separate lists, and the member alone. */
  lemma RemoveFromFamily(next: seq<Option<nat>>, heads: seq<Option<nat>>, chains: seq<seq<nat>>, g: nat, i: nat)
    requires Chains(next, heads, chains) && Separate(chains) && g < |chains| && i < |chains[g]|
    ensures var xs := chains[g];
      var chains' := chains[g := Without(xs, i)];
      && (forall k | 0 <= k < |xs| :: xs[k] < |next|)
      && Separate(chains')
      && Chains(Unlink(next, xs, i), if i == 0 then heads[g := next[xs[0]]] else heads, chains')
      && Alone(Unlink(next, xs, i), chains', xs[i])
  {
    var xs := chains[g];
    assert Chain(next, heads[g], xs);
    var next' := Unlink(next, xs, i);
    RemoveChain(next, heads[g], xs, i);
    RemoveSeparate(chains, g, i);
    forall h | 0 <= h < |chains| && h != g
      ensures Chain(next', heads[h], chains[h])
    {
      assert xs[i] in xs && (i > 0 ==> xs[i - 1] in xs);
      SameChain(next, next', heads[h], chains[h]);
    }
  }

  lemma {:induction false} RemoveAt(xs: seq<nat>, i: nat)
    requires Distinct(xs) && i < |xs|
    ensures Remove(xs, xs[i]) == Without(xs, i)
  {
    if i == 0 {
      assert Without(xs, 0) == xs[1..];
    } else {
      RemoveAt(xs[1..], i - 1);
      WithoutTail(xs, i);
      assert xs[1..][i - 1] == xs[i] && xs[0] != xs[i];
    }
  }

  lemma WithoutTail(xs: seq<nat>, i: nat)
    requires 0 < i < |xs|
    ensures Without(xs, i) == [xs[0]] + Without(xs[1..], i - 1)
  {
    var a, b := Without(xs, i), [xs[0]] + Without(xs[1..], i - 1);
    assert |a| == |b|;
    forall k | 0 <= k < |a|
      ensures a[k] == b[k]
    {
      if k >= i { assert a[k] == xs[k + 1]; }
    }
  }
}
