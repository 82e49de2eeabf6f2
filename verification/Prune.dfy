/** Removing every element of one name from an XML tree (`xml_delete_special_node`).

    A list of sibling nodes is its first node, that node's children, and the siblings after it. */
module Prune {
  import opened Library

  datatype Label = Label(isElement: bool, name: string)
  datatype Nodes = Nil | Cons(item: Label, children: Nodes, next: Nodes)

  /** From a node to its first child, or to its next sibling. */
  datatype Dir = Down | Across

  predicate Matches(x: Label, name: string) { x.isElement && x.name == name }

  /** The labels in document order. */
  function Labels(t: Nodes): seq<Label> {
    if t.Nil? then [] else [t.item] + Labels(t.children) + Labels(t.next)
  }

  predicate Reaches(t: Nodes, path: seq<Dir>) {
    t.Cons? && (path == [] || Reaches(if path[0].Down? then t.children else t.next, path[1..]))
  }

  function LabelAt(t: Nodes, path: seq<Dir>): Label
    requires Reaches(t, path)
  {
    if path == [] then t.item else LabelAt(if path[0].Down? then t.children else t.next, path[1..])
  }

  /** The labels before the node at `path`, in document order. */
  function Earlier(t: Nodes, path: seq<Dir>): seq<Label>
    requires Reaches(t, path)
  {
    if path == [] then []
    else if path[0].Down? then [t.item] + Earlier(t.children, path[1..])
    else [t.item] + Labels(t.children) + Earlier(t.next, path[1..])
  }

  ghost predicate NoMatch(xs: seq<Label>, name: string) { forall i | 0 <= i < |xs| :: !Matches(xs[i], name) }

  /** `r` is the first match in document order, or there is none. */
  ghost predicate IsFirst(t: Nodes, name: string, r: Option<seq<Dir>>) {
    match r
    case None => NoMatch(Labels(t), name)
    case Some(path) => Reaches(t, path) && Matches(LabelAt(t, path), name) && NoMatch(Earlier(t, path), name)
  }

  /** A path found `n` siblings further on. */
  function Onward(n: nat, r: Option<seq<Dir>>): Option<seq<Dir>> {
    if r.None? || n == 0 then r else Onward(n - 1, Some([Across] + r.value))
  }

  /** Past a sibling without match, the first match is the one of the siblings after it. */
  lemma FirstAcross(t: Nodes, name: string, r: Option<seq<Dir>>)
    requires t.Cons? && !Matches(t.item, name) && NoMatch(Labels(t.children), name) && IsFirst(t.next, name, r)
    ensures IsFirst(t, name, Onward(1, r))
  {
    if r.Some? {
      assert Onward(0, Some([Across] + r.value)) == Some([Across] + r.value);
      assert ([Across] + r.value)[1..] == r.value;
    }
  }

  lemma FirstBelow(t: Nodes, name: string, path: seq<Dir>)
    requires t.Cons? && !Matches(t.item, name) && IsFirst(t.children, name, Some(path))
    ensures IsFirst(t, name, Some([Down] + path))
  {
    assert ([Down] + path)[1..] == path;
  }

  lemma OnwardOne(n: nat, r: Option<seq<Dir>>)
    ensures Onward(n + 1, r) == Onward(n, Onward(1, r))
  {
  }

  /** `xml_find_node`: along the siblings, each node before its children, those before the next sibling. */
  method FindNode(t: Nodes, name: string) returns (r: Option<seq<Dir>>)
    ensures IsFirst(t, name, r)
    decreases t
  {
    var last, n := t, 0;
    while last.Cons?
      invariant last == t || last < t
      invariant forall r' :: IsFirst(last, name, r') ==> IsFirst(t, name, Onward(n, r'))
      decreases last
    {
      if Matches(last.item, name) {
        assert IsFirst(last, name, Some([]));
        return Onward(n, Some([]));
      }
      var below := FindNode(last.children, name);
      if below.Some? {
        FirstBelow(last, name, below.value);
        return Onward(n, Some([Down] + below.value));
      }
      forall r' | IsFirst(last.next, name, r')
        ensures IsFirst(t, name, Onward(n + 1, r'))
      {
        FirstAcross(last, name, r');
        OnwardOne(n, r');
      }
      last, n := last.next, n + 1;
    }
    assert IsFirst(last, name, None);
    r := None;
  }

  /** `xmlUnlinkNode`: the node goes with everything below it. */
  function Unlink(t: Nodes, path: seq<Dir>): Nodes
    requires Reaches(t, path)
  {
    if path == [] then t.next
    else if path[0].Down? then t.(children := Unlink(t.children, path[1..]))
    else t.(next := Unlink(t.next, path[1..]))
  }

  /** What one pass that drops every match would leave. */
  function Filter(t: Nodes, name: string): Nodes {
    match t
    case Nil => Nil
    case Cons(x, children, next) =>
      if Matches(x, name) then Filter(next, name) else Cons(x, Filter(children, name), Filter(next, name))
  }

  /** Unlinking a first match changes nothing for the filter, and shrinks the tree. */
  lemma {:induction false} UnlinkFilter(t: Nodes, name: string, path: seq<Dir>)
    requires IsFirst(t, name, Some(path))
    ensures Filter(Unlink(t, path), name) == Filter(t, name) && |Labels(Unlink(t, path))| < |Labels(t)|
    decreases path
  {
    if path != [] {
      var rest := path[1..];
      assert Earlier(t, path)[0] == t.item;
      var sub := if path[0].Down? then t.children else t.next;
      assert NoMatch(Earlier(sub, rest), name) by {
        var skip := |Earlier(t, path)| - |Earlier(sub, rest)|;
        forall i | 0 <= i < |Earlier(sub, rest)|
          ensures !Matches(Earlier(sub, rest)[i], name)
        {
          assert Earlier(t, path)[skip + i] == Earlier(sub, rest)[i];
        }
      }
      UnlinkFilter(sub, name, rest);
    }
  }

  /** A tree without match is its own filter. */
  lemma {:induction false} NothingToFilter(t: Nodes, name: string)
    requires NoMatch(Labels(t), name)
    ensures Filter(t, name) == t
  {
    if t.Cons? {
      var a, b := Labels(t.children), Labels(t.next);
      assert Labels(t)[0] == t.item;
      forall i | 0 <= i < |a| ensures !Matches(a[i], name) { assert Labels(t)[1 + i] == a[i]; }
      forall i | 0 <= i < |b| ensures !Matches(b[i], name) { assert Labels(t)[1 + |a| + i] == b[i]; }
      NothingToFilter(t.children, name);
      NothingToFilter(t.next, name);
    }
  }

  // -------- what is kept --------

  /** One line of the document's outline: how deep a node is, and its label. */
  datatype Line = Line(depth: nat, item: Label)

  /** The outline of the document, in document order. */
  function Outline(t: Nodes, depth: nat): (o: seq<Line>)
    ensures forall i | 0 <= i < |o| :: o[i].depth >= depth
    ensures o != [] ==> o[0].depth == depth
  {
    if t.Nil? then [] else [Line(depth, t.item)] + Outline(t.children, depth + 1) + Outline(t.next, depth)
  }

  /** Line `k` is line `i` or one it is nested in: all lines after it up to `i` are deeper. */
  ghost predicate AtOrAbove(o: seq<Line>, k: nat, i: nat)
    requires i < |o|
  {
    k <= i && forall j | k < j <= i :: o[j].depth > o[k].depth
  }

  /** No match at or above line `i`. */
  ghost predicate Survives(o: seq<Line>, name: string, i: nat)
    requires i < |o|
  {
    forall k: nat | AtOrAbove(o, k, i) :: !Matches(o[k].item, name)
  }

  /** Which lines survive. */
  ghost function Keep(o: seq<Line>, name: string): (keep: seq<bool>)
    ensures |keep| == |o|
  {
    seq(|o|, i requires 0 <= i < |o| => Survives(o, name, i))
  }

  /** The lines to keep, in order. */
  function Select(o: seq<Line>, keep: seq<bool>): seq<Line>
    requires |keep| == |o|
  {
    if o == [] then [] else (if keep[0] then [o[0]] else []) + Select(o[1..], keep[1..])
  }

  lemma {:induction false} SelectConcat(a: seq<Line>, k: seq<bool>, b: seq<Line>, l: seq<bool>)
    requires |k| == |a| && |l| == |b|
    ensures Select(a + b, k + l) == Select(a, k) + Select(b, l)
  {
    if a == [] {
      assert a + b == b && k + l == l;
    } else {
      SelectConcat(a[1..], k[1..], b, l);
      assert (a + b)[1..] == a[1..] + b && (k + l)[1..] == k[1..] + l;
    }
  }

  lemma {:induction false} SelectNone(a: seq<Line>, k: seq<bool>)
    requires |k| == |a| && forall i | 0 <= i < |k| :: !k[i]
    ensures Select(a, k) == []
  {
    if a != [] { SelectNone(a[1..], k[1..]); }
  }

  /** Nesting is the same in a stretch of the outline. */
  lemma Shifted(o: seq<Line>, b: seq<Line>, a: nat, k: nat, e: nat)
    requires a + |b| <= |o| && o[a..a + |b|] == b && a <= k <= e < a + |b|
    ensures AtOrAbove(o, k, e) <==> AtOrAbove(b, k - a, e - a)
  {
    assert forall j | a <= j <= e :: o[j] == b[j - a];
    if AtOrAbove(b, k - a, e - a) {
      forall j | k < j <= e ensures o[j].depth > o[k].depth { assert o[j] == b[j - a]; }
    }
    if AtOrAbove(o, k, e) {
      forall j | k - a < j <= e - a ensures b[j].depth > b[k - a].depth { assert o[a + j] == b[j]; }
    }
  }

  /** No match at or above line `i`, from line `a` on. */
  ghost predicate SurvivesFrom(o: seq<Line>, name: string, a: nat, i: nat)
    requires i < |o|
  {
    forall k: nat | a <= k && AtOrAbove(o, k, i) :: !Matches(o[k].item, name)
  }

  lemma StretchSurvives(o: seq<Line>, b: seq<Line>, name: string, a: nat, e: nat)
    requires a + |b| <= |o| && o[a..a + |b|] == b && a <= e < a + |b|
    ensures SurvivesFrom(o, name, a, e) <==> Survives(b, name, e - a)
  {
    if SurvivesFrom(o, name, a, e) {
      forall k: nat | AtOrAbove(b, k, e - a)
        ensures !Matches(b[k].item, name)
      {
        Shifted(o, b, a, a + k, e);
        assert o[a + k] == b[k];
      }
    }
    if Survives(b, name, e - a) {
      forall k: nat | a <= k && AtOrAbove(o, k, e)
        ensures !Matches(o[k].item, name)
      {
        Shifted(o, b, a, k, e);
        assert o[k] == b[k - a];
      }
    }
  }

  /** Below a node, what survives is what survives there, unless the node itself is a match. */
  lemma SurvivesBelow(o: seq<Line>, x: Line, a: seq<Line>, b: seq<Line>, name: string, e: nat)
    requires o == [x] + a + b && 1 <= e <= |a| && forall j | 0 <= j < |a| :: a[j].depth > x.depth
    ensures Survives(o, name, e) <==> !Matches(x.item, name) && Survives(a, name, e - 1)
  {
    assert o[1..1 + |a|] == a;
    StretchSurvives(o, a, name, 1, e);
    NestedInFirst(o, e, |a|);
  }

  lemma NestedInFirst(o: seq<Line>, e: nat, n: nat)
    requires 1 <= e <= n < |o| && forall j | 1 <= j <= n :: o[j].depth > o[0].depth
    ensures AtOrAbove(o, 0, e)
  {
  }

  /** Behind a node and all that is below it, what survives is what survives there. */
  lemma SurvivesBehind(o: seq<Line>, a: seq<Line>, b: seq<Line>, name: string, e: nat)
    requires o == a + b && |a| <= e < |o| && forall j | 0 <= j < |a| :: a[j].depth >= b[0].depth
    ensures Survives(o, name, e) <==> Survives(b, name, e - |a|)
  {
    var n := |a|;
    assert o[n..n + |b|] == b;
    StretchSurvives(o, b, name, n, e);
    forall k: nat | k < n
      ensures !AtOrAbove(o, k, e)
    {
      assert o[n] == b[0] && o[k] == a[k];
    }
  }

  lemma HeadSurvives(o: seq<Line>, name: string)
    requires o != []
    ensures Survives(o, name, 0) <==> !Matches(o[0].item, name)
  {
    assert AtOrAbove(o, 0, 0);
  }

  /** What is kept of a node and what is below it. */
  ghost function KeepBelow(x: Line, a: seq<Line>, name: string): (keep: seq<bool>)
    ensures |keep| == 1 + |a|
  {
    if Matches(x.item, name) then seq(1 + |a|, _ => false) else [true] + Keep(a, name)
  }

  lemma KeepSplit(o: seq<Line>, x: Line, a: seq<Line>, b: seq<Line>, name: string)
    requires o == [x] + a + b && (forall j | 0 <= j < |a| :: a[j].depth > x.depth)
    requires b != [] ==> b[0].depth == x.depth
    ensures Keep(o, name) == KeepBelow(x, a, name) + Keep(b, name)
  {
    var n := 1 + |a|;
    forall e: nat | e < |o|
      ensures Keep(o, name)[e] == (KeepBelow(x, a, name) + Keep(b, name))[e]
    {
      if e == 0 {
        HeadSurvives(o, name);
      } else if e < n {
        SurvivesBelow(o, x, a, b, name, e);
      } else {
        SurvivesBehind(o, [x] + a, b, name, e);
      }
    }
  }

  lemma SelectBelow(x: Line, a: seq<Line>, name: string)
    ensures Select([x] + a, KeepBelow(x, a, name)) ==
      if Matches(x.item, name) then [] else [x] + Select(a, Keep(a, name))
  {
    if Matches(x.item, name) {
      SelectNone([x] + a, KeepBelow(x, a, name));
    } else {
      assert ([x] + a)[1..] == a && KeepBelow(x, a, name)[1..] == Keep(a, name);
    }
  }

  /** The filter leaves exactly the lines without match at or above them, each as deep as before. */
  lemma {:induction false} FilterKeeps(t: Nodes, name: string, depth: nat)
    ensures var o := Outline(t, depth); Outline(Filter(t, name), depth) == Select(o, Keep(o, name))
  {
    if t.Cons? {
      var x, a, b := Line(depth, t.item), Outline(t.children, depth + 1), Outline(t.next, depth);
      FilterKeeps(t.children, name, depth + 1);
      FilterKeeps(t.next, name, depth);
      KeepSplit([x] + a + b, x, a, b, name);
      SelectConcat([x] + a, KeepBelow(x, a, name), b, Keep(b, name));
      SelectBelow(x, a, name);
    }
  }

  /** The outline tells the whole tree. */
  lemma {:induction false} OutlineTells(t: Nodes, t': Nodes, depth: nat)
    requires Outline(t, depth) == Outline(t', depth)
    ensures t == t'
  {
    if t.Cons? && t'.Cons? {
      var a, b := Outline(t.children, depth + 1), Outline(t.next, depth);
      var a', b' := Outline(t'.children, depth + 1), Outline(t'.next, depth);
      var x, x' := Line(depth, t.item), Line(depth, t'.item);
      assert ([x] + a + b)[0] == x && ([x'] + a' + b')[0] == x';
      SameSplit([x] + a + b, x, a, b, a', b', depth);
      OutlineTells(t.children, t'.children, depth + 1);
      OutlineTells(t.next, t'.next, depth);
    }
  }

  /** What is below a node ends where the next line of its depth begins. */
  lemma SameSplit(o: seq<Line>, x: Line, a: seq<Line>, b: seq<Line>, a': seq<Line>, b': seq<Line>, depth: nat)
    requires o == [x] + a + b == [x] + a' + b'
    requires (forall i | 0 <= i < |a| :: a[i].depth > depth) && forall i | 0 <= i < |a'| :: a'[i].depth > depth
    requires (b != [] ==> b[0].depth == depth) && (b' != [] ==> b'[0].depth == depth)
    ensures a == a' && b == b'
  {
    assert forall i | 1 <= i <= |a| :: o[i] == a[i - 1];
    assert forall i | 1 <= i <= |a'| :: o[i] == a'[i - 1];
    assert (b != [] ==> o[1 + |a|] == b[0]) && (b' != [] ==> o[1 + |a'|] == b'[0]);
    assert |a| == |a'|;
    assert a == o[1..1 + |a|] && a' == o[1..1 + |a'|];
    assert b == o[1 + |a|..] && b' == o[1 + |a'|..];
  }

  /** Line `k` is the parent of line `i`: the last one before it that is less deep. */
  ghost predicate IsParent(o: seq<Line>, k: nat, i: nat) {
    k < i < |o| && o[k].depth < o[i].depth && forall j | k < j < i :: o[j].depth >= o[i].depth
  }

  /** Where the kept lines were. */
  function Origins(keep: seq<bool>): seq<nat> {
    if keep == [] then []
    else Origins(keep[..|keep| - 1]) + if keep[|keep| - 1] then [|keep| - 1] else []
  }

  lemma {:induction false} OriginsFacts(o: seq<Line>, keep: seq<bool>)
    requires |keep| == |o|
    ensures var idx := Origins(keep);
      && Drawn(o, idx, Select(o, keep)) && (forall i | 0 <= i < |idx| :: keep[idx[i]])
      && forall e: nat | e < |o| && keep[e] :: e in idx
  {
    if o != [] {
      var n := |o| - 1;
      OriginsFacts(o[..n], keep[..n]);
      SelectConcat(o[..n], keep[..n], [o[n]], [keep[n]]);
      assert o[..n] + [o[n]] == o && keep[..n] + [keep[n]] == keep;
      SelectOne(o[n], keep[n]);
    }
  }

  lemma SelectOne(x: Line, keep: bool)
    ensures Select([x], [keep]) == if keep then [x] else []
  {
    assert Select([x][1..], [keep][1..]) == [];
  }

  /** What is above a line that survives survives. */
  lemma AboveSurvives(o: seq<Line>, name: string, e: nat, b: nat)
    requires b < |o| && AtOrAbove(o, e, b) && Survives(o, name, b)
    ensures Survives(o, name, e)
  {
    forall k: nat | AtOrAbove(o, k, e)
      ensures !Matches(o[k].item, name)
    {
      assert AtOrAbove(o, k, b);
    }
  }

  /** If no surviving line between two others is less deep than the second, no line is. */
  lemma {:induction false} NoneShallower(o: seq<Line>, name: string, a: nat, b: nat, e: nat)
    requires a < e <= b < |o| && Survives(o, name, b)
    requires forall j: nat | a < j < b && Survives(o, name, j) :: o[j].depth >= o[b].depth
    ensures forall j | e <= j <= b :: o[j].depth >= o[b].depth
    decreases b - e
  {
    if e < b {
      NoneShallower(o, name, a, b, e + 1);
      if o[e].depth < o[b].depth {
        assert AtOrAbove(o, e, b);
        AboveSurvives(o, name, e, b);
      }
    }
  }

  /** `o'` has the lines of `o` at the places `idx`, in order. */
  ghost predicate Drawn(o: seq<Line>, idx: seq<nat>, o': seq<Line>) {
    && |o'| == |idx| && (forall i | 0 <= i < |idx| :: idx[i] < |o| && o'[i] == o[idx[i]])
    && forall i, j | 0 <= i < j < |idx| :: idx[i] < idx[j]
  }

  lemma OldParent(o: seq<Line>, idx: seq<nat>, o': seq<Line>, k: nat, i: nat)
    requires Drawn(o, idx, o') && k < |idx| && i < |idx| && IsParent(o, idx[k], idx[i])
    ensures IsParent(o', k, i)
  {
    assert k < i;
    forall j | k < j < i ensures o'[j].depth >= o'[i].depth { assert idx[k] < idx[j] < idx[i]; }
  }

  lemma BetweenDrawn(o: seq<Line>, idx: seq<nat>, o': seq<Line>, k: nat, i: nat, j: nat)
    requires Drawn(o, idx, o') && k < |idx| && i < |idx| && IsParent(o', k, i) && idx[k] < j < idx[i] && j in idx
    ensures o[j].depth >= o[idx[i]].depth
  {
    var e :| 0 <= e < |idx| && idx[e] == j;
    assert k < e < i;
  }

  /** The parent of each kept line is its old parent. */
  lemma ParentsKept(o: seq<Line>, name: string, k: nat, i: nat)
    requires k < |Origins(Keep(o, name))| && i < |Origins(Keep(o, name))|
    ensures var idx := Origins(Keep(o, name)); IsParent(Select(o, Keep(o, name)), k, i) <==> IsParent(o, idx[k], idx[i])
  {
    var keep := Keep(o, name);
    var idx, o' := Origins(keep), Select(o, keep);
    OriginsFacts(o, keep);
    if IsParent(o', k, i) {
      var a, b := idx[k], idx[i];
      forall j: nat | a < j < b && Survives(o, name, j)
        ensures o[j].depth >= o[b].depth
      {
        assert keep[j];
        BetweenDrawn(o, idx, o', k, i, j);
      }
      NoneShallower(o, name, a, b, a + 1);
    }
    if IsParent(o, idx[k], idx[i]) { OldParent(o, idx, o', k, i); }
  }

  /** `xml_delete_special_node`: search again from the root until nothing is found.  The root itself must stay,
      since every search starts from it. */
  method DeleteAll(root: Nodes, name: string) returns (t: Nodes)
    requires root.Cons? && !Matches(root.item, name)
    ensures t == Filter(root, name) && t.Cons? && t.item == root.item && NoMatch(Labels(t), name)
    ensures var o := Outline(root, 0); Outline(t, 0) == Select(o, Keep(o, name))
  {
    t := root;
    var node := FindNode(t, name);
    while node.Some?
      invariant IsFirst(t, name, node) && Filter(t, name) == Filter(root, name)
      invariant t.Cons? && t.item == root.item
      decreases |Labels(t)|
    {
      UnlinkFilter(t, name, node.value);
      t := Unlink(t, node.value);
      node := FindNode(t, name);
    }
    NothingToFilter(t, name);
    FilterKeeps(root, name, 0);
  }
}
