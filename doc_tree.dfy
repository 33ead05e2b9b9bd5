/**
 * The mind-map document: a rooted tree of nodes held as a value.
 *
 * The editor deep-copies the tree before every edit and every history push;
 * as a Dafny value the tree is never shared, so no copy is needed.
 */
module DocTree {
  import opened Wrappers

  /** A JSON scalar: the value of a free-form field of a node. */
  datatype Json = JNum(num: real) | JStr(str: string) | JBool(flag: bool) | JNull

  /**
   * A node of the document. `classTag` is the node's `class` key (absent when
   * the node was created without one), `children` is empty both when the list
   * is empty and when the field is absent, and `extra` holds every other field
   * the node carries (for example position fields copied from a clipboard).
   */
  datatype Node = Node(
    id: string,
    text: string,
    classTag: Option<string>,
    notes: Option<string>,
    children: seq<Node>,
    extra: map<string, Json>)

  /** The node's own fields, without its subtree. */
  function Label(n: Node): (l: Node)
    ensures l.children == [] && l.(children := n.children) == n
  {
    n.(children := [])
  }

  /** Every subtree of `n`, in pre-order: a node, then its children's subtrees in array order. */
  function PreOrder(n: Node): (r: seq<Node>)
    ensures |r| >= 1 && r[0] == n
    decreases n, 1
  {
    [n] + PreOrderAll(n.children)
  }

  /** The pre-order of a list of sibling subtrees, one after the other. */
  function PreOrderAll(cs: seq<Node>): seq<Node>
    decreases cs, 0
  {
    if cs == [] then [] else PreOrder(cs[0]) + PreOrderAll(cs[1..])
  }

  lemma {:induction false} PreOrderAllConcat(a: seq<Node>, b: seq<Node>)
    ensures PreOrderAll(a + b) == PreOrderAll(a) + PreOrderAll(b)
  {
    if a == [] {
      assert a + b == b;
    } else {
      assert (a + b)[0] == a[0];
      assert (a + b)[1..] == a[1..] + b;
      PreOrderAllConcat(a[1..], b);
    }
  }

  /** The ids of a sequence of nodes, position by position. */
  function IdsOf(s: seq<Node>): (r: seq<string>)
    ensures |r| == |s|
    ensures forall k :: 0 <= k < |s| ==> r[k] == s[k].id
  {
    if s == [] then [] else [s[0].id] + IdsOf(s[1..])
  }

  lemma {:induction false} IdsOfConcat(a: seq<Node>, b: seq<Node>)
    ensures IdsOf(a + b) == IdsOf(a) + IdsOf(b)
  {
    assert |IdsOf(a + b)| == |IdsOf(a) + IdsOf(b)|;
    forall k | 0 <= k < |a + b|
      ensures IdsOf(a + b)[k] == (IdsOf(a) + IdsOf(b))[k]
    {
      if k < |a| {
        assert (a + b)[k] == a[k];
      } else {
        assert (a + b)[k] == b[k - |a|];
      }
    }
  }

  /** The labels of a sequence of nodes, position by position. */
  function LabelsOf(s: seq<Node>): (r: seq<Node>)
    ensures |r| == |s|
  {
    if s == [] then [] else [Label(s[0])] + LabelsOf(s[1..])
  }

  /** Position `k` of the labels is the label of node `k`. */
  lemma {:induction false} LabelsOfAt(s: seq<Node>, k: nat)
    requires k < |s|
    ensures LabelsOf(s)[k] == Label(s[k])
  {
    if k > 0 {
      LabelsOfAt(s[1..], k - 1);
    }
  }

  lemma {:induction false} LabelsOfConcat(a: seq<Node>, b: seq<Node>)
    ensures LabelsOf(a + b) == LabelsOf(a) + LabelsOf(b)
  {
    if a == [] {
      assert a + b == b;
    } else {
      assert (a + b)[0] == a[0];
      assert (a + b)[1..] == a[1..] + b;
      LabelsOfConcat(a[1..], b);
    }
  }

  /** The number of children of each node of a sequence, position by position. */
  function ShapeOf(s: seq<Node>): (r: seq<int>)
    ensures |r| == |s|
  {
    if s == [] then [] else [|s[0].children|] + ShapeOf(s[1..])
  }

  /** Position `k` of the shape counts the children of node `k`. */
  lemma {:induction false} ShapeOfAt(s: seq<Node>, k: nat)
    requires k < |s|
    ensures ShapeOf(s)[k] == |s[k].children|
  {
    if k > 0 {
      ShapeOfAt(s[1..], k - 1);
    }
  }

  lemma {:induction false} ShapeOfConcat(a: seq<Node>, b: seq<Node>)
    ensures ShapeOf(a + b) == ShapeOf(a) + ShapeOf(b)
  {
    if a == [] {
      assert a + b == b;
    } else {
      assert (a + b)[0] == a[0];
      assert (a + b)[1..] == a[1..] + b;
      ShapeOfConcat(a[1..], b);
    }
  }

  /**
   * The tree's shape: the number of children of every node, in pre-order.
   * Together with `Labels` it describes the whole tree.
   */
  function Shape(n: Node): seq<int> {
    ShapeOf(PreOrder(n))
  }

  /** A shape with one more child counted at position `k`. */
  function Incr(s: seq<int>, k: nat): (r: seq<int>)
    requires k < |s|
    ensures |r| == |s|
  {
    s[k := s[k] + 1]
  }

  /** A shape with one child fewer counted at position `k`. */
  function Decr(s: seq<int>, k: nat): (r: seq<int>)
    requires k < |s|
    ensures |r| == |s|
  {
    s[k := s[k] - 1]
  }

  /** Counting at position `|a| + k` of `a + b` counts at position `k` of `b`. */
  lemma IncrBehind(a: seq<int>, b: seq<int>, k: nat)
    requires k < |b|
    ensures Incr(a + b, |a| + k) == a + Incr(b, k)
  {
  }

  /** Counting in the front part of a concatenation. */
  lemma IncrFront(a: seq<int>, b: seq<int>, k: nat)
    requires k < |a|
    ensures Incr(a + b, k) == Incr(a, k) + b
  {
  }

  lemma DecrBehind(a: seq<int>, b: seq<int>, k: nat)
    requires k < |b|
    ensures Decr(a + b, |a| + k) == a + Decr(b, k)
  {
  }

  lemma DecrFront(a: seq<int>, b: seq<int>, k: nat)
    requires k < |a|
    ensures Decr(a + b, k) == Decr(a, k) + b
  {
  }

  /** The ids of every node of the tree, in pre-order. */
  function Ids(n: Node): seq<string> {
    IdsOf(PreOrder(n))
  }

  /** The own fields of every node of the tree, in pre-order. */
  function Labels(n: Node): seq<Node> {
    LabelsOf(PreOrder(n))
  }

  /** No id occurs twice. */
  predicate AllDistinct(s: seq<string>) {
    forall i, j :: 0 <= i < j < |s| ==> s[i] != s[j]
  }

  /** The first node of `s` with id `id`: a plain linear search. */
  function FirstWithId(s: seq<Node>, id: string): (r: Option<Node>)
    ensures r.None? <==> id !in IdsOf(s)
    ensures r.Some? ==> r.value in s && r.value.id == id
  {
    if s == [] then None
    else if s[0].id == id then Some(s[0])
    else FirstWithId(s[1..], id)
  }

  lemma {:induction false} FirstWithIdConcat(a: seq<Node>, b: seq<Node>, id: string)
    ensures FirstWithId(a + b, id) == if FirstWithId(a, id).Some? then FirstWithId(a, id) else FirstWithId(b, id)
  {
    if a == [] {
      assert a + b == b;
    } else {
      assert (a + b)[0] == a[0];
      assert (a + b)[1..] == a[1..] + b;
      FirstWithIdConcat(a[1..], b, id);
    }
  }

  /** The position of the first occurrence of `x` in `s`. */
  function IndexOf(s: seq<string>, x: string): (k: nat)
    requires x in s
    ensures k < |s| && s[k] == x
    ensures forall j :: 0 <= j < k ==> s[j] != x
  {
    if s[0] == x then 0 else 1 + IndexOf(s[1..], x)
  }

  lemma {:induction false} IndexOfConcat(a: seq<string>, b: seq<string>, x: string)
    requires x in a + b
    ensures x in a ==> IndexOf(a + b, x) == IndexOf(a, x)
    ensures x !in a ==> x in b && IndexOf(a + b, x) == |a| + IndexOf(b, x)
  {
    var k := IndexOf(a + b, x);
    if x in a {
      var i := IndexOf(a, x);
      assert (a + b)[i] == x;
      assert k <= i;
      assert a[k] == (a + b)[k];
    } else {
      assert x in b;
      var i := IndexOf(b, x);
      assert (a + b)[|a| + i] == x;
      assert forall j :: 0 <= j < |a| ==> (a + b)[j] == a[j];
      assert b[k - |a|] == (a + b)[k];
      assert forall j :: 0 <= j < k - |a| ==> b[j] == (a + b)[|a| + j];
    }
  }

  /** Labels keep the ids. */
  lemma {:induction false} IdsOfLabels(s: seq<Node>)
    ensures IdsOf(LabelsOf(s)) == IdsOf(s)
  {
    if s != [] {
      IdsOfLabels(s[1..]);
    }
  }

  /** The subtrees below a list of siblings are the subtrees of those siblings. */
  lemma {:induction false} InPreOrderAll(cs: seq<Node>, x: string)
    ensures x in IdsOf(PreOrderAll(cs)) <==> exists i :: 0 <= i < |cs| && x in Ids(cs[i])
  {
    if cs != [] {
      IdsOfConcat(PreOrder(cs[0]), PreOrderAll(cs[1..]));
      InPreOrderAll(cs[1..], x);
      if x in IdsOf(PreOrderAll(cs[1..])) {
        var i :| 0 <= i < |cs[1..]| && x in Ids(cs[1..][i]);
        assert cs[1..][i] == cs[i + 1];
      }
      if exists i :: 0 <= i < |cs| && x in Ids(cs[i]) {
        var i :| 0 <= i < |cs| && x in Ids(cs[i]);
        if i > 0 {
          assert cs[1..][i - 1] == cs[i];
        }
      }
    }
  }

  /** A node's labels: its own, then those below it. */
  lemma LabelsUnfold(n: Node)
    ensures Labels(n) == [Label(n)] + LabelsOf(PreOrderAll(n.children))
  {
    LabelsOfConcat([n], PreOrderAll(n.children));
  }

  /** The pre-order of siblings `[c] + cs`: that of `c`, then that of `cs`. */
  lemma PreOrderAllCons(c: Node, cs: seq<Node>)
    ensures PreOrderAll([c] + cs) == PreOrder(c) + PreOrderAll(cs)
  {
    assert ([c] + cs)[0] == c && ([c] + cs)[1..] == cs;
  }

  /** A node's ids: its own, then those below it. */
  lemma IdsUnfold(n: Node)
    ensures Ids(n) == [n.id] + IdsOf(PreOrderAll(n.children))
  {
    IdsOfConcat([n], PreOrderAll(n.children));
  }

  /** A node's shape: its own number of children, then the shape below it. */
  lemma ShapeUnfold(n: Node)
    ensures Shape(n) == [|n.children|] + ShapeOf(PreOrderAll(n.children))
  {
    ShapeOfConcat([n], PreOrderAll(n.children));
  }

  /**
   * Rebuilds `k` sibling subtrees from a pre-order of labels and child counts:
   * the siblings, and the labels and counts left over after them.
   */
  function DecodeForest(ls: seq<Node>, sh: seq<int>, k: nat): (r: (seq<Node>, seq<Node>, seq<int>))
    ensures |r.1| <= |ls|
    decreases |ls|, k
  {
    if k == 0 || ls == [] || sh == [] then ([], ls, sh)
    else
      var m := if sh[0] < 0 then 0 else sh[0];
      var kids := DecodeForest(ls[1..], sh[1..], m);
      var sibs := DecodeForest(kids.1, kids.2, k - 1);
      ([ls[0].(children := kids.0)] + sibs.0, sibs.1, sibs.2)
  }

  /** Decoding the labels and the shape of some siblings, followed by anything, gives back those siblings and that rest. */
  lemma {:induction false} DecodeForestOf(cs: seq<Node>, tl: seq<Node>, ts: seq<int>)
    ensures DecodeForest(LabelsOf(PreOrderAll(cs)) + tl, ShapeOf(PreOrderAll(cs)) + ts, |cs|) == (cs, tl, ts)
    decreases cs
  {
    if cs != [] {
      var c := cs[0];
      var tl', ts' := ForestSplit(cs, tl, ts);
      var ls := LabelsOf(PreOrderAll(c.children)) + tl';
      var sh := ShapeOf(PreOrderAll(c.children)) + ts';
      DecodeForestOf(c.children, tl', ts');
      DecodeForestOf(cs[1..], tl, ts);
      DecodeStep(Label(c), |c.children|, ls, sh, |cs|);
      assert [Label(c).(children := c.children)] + cs[1..] == cs;
    } else {
      assert LabelsOf(PreOrderAll(cs)) + tl == tl && ShapeOf(PreOrderAll(cs)) + ts == ts;
    }
  }

  /** The labels and shape of siblings followed by a rest: the first sibling's own entry, its subtree's, then the others'. */
  lemma ForestSplit(cs: seq<Node>, tl: seq<Node>, ts: seq<int>) returns (tl': seq<Node>, ts': seq<int>)
    requires cs != []
    ensures tl' == LabelsOf(PreOrderAll(cs[1..])) + tl && ts' == ShapeOf(PreOrderAll(cs[1..])) + ts
    ensures LabelsOf(PreOrderAll(cs)) + tl == [Label(cs[0])] + (LabelsOf(PreOrderAll(cs[0].children)) + tl')
    ensures ShapeOf(PreOrderAll(cs)) + ts == [|cs[0].children|] + (ShapeOf(PreOrderAll(cs[0].children)) + ts')
  {
    var c := cs[0];
    var a, b := PreOrderAll(c.children), PreOrderAll(cs[1..]);
    tl', ts' := LabelsOf(b) + tl, ShapeOf(b) + ts;
    assert PreOrderAll(cs) == [c] + (a + b) by {
      assert cs == [c] + cs[1..];
      PreOrderAllCons(c, cs[1..]);
    }
    var la: seq<Node>, lb: seq<Node> := LabelsOf(a), LabelsOf(b);
    assert LabelsOf(PreOrderAll(cs)) == [Label(c)] + (la + lb) by {
      LabelsOfConcat([c], a + b);
      LabelsOfConcat(a, b);
    }
    assert ([Label(c)] + (la + lb)) + tl == [Label(c)] + (la + (lb + tl));
    var sa: seq<int>, sb: seq<int> := ShapeOf(a), ShapeOf(b);
    assert ShapeOf(PreOrderAll(cs)) == [|c.children|] + (sa + sb) by {
      ShapeOfConcat([c], a + b);
      ShapeOfConcat(a, b);
    }
    assert ([|c.children|] + (sa + sb)) + ts == [|c.children|] + (sa + (sb + ts));
  }

  /** One step of the decoder: a node's label and child count, then its children, then its siblings. */
  lemma DecodeStep(l: Node, m: nat, ls: seq<Node>, sh: seq<int>, k: nat)
    requires k > 0
    ensures var kids := DecodeForest(ls, sh, m);
      var sibs := DecodeForest(kids.1, kids.2, k - 1);
      DecodeForest([l] + ls, [m] + sh, k) == ([l.(children := kids.0)] + sibs.0, sibs.1, sibs.2)
  {
    assert ([l] + ls)[0] == l && ([l] + ls)[1..] == ls;
    assert ([m] + sh)[0] == m && ([m] + sh)[1..] == sh;
  }

  /** A single tree as a list of siblings. */
  lemma OneTreeForest(n: Node)
    ensures LabelsOf(PreOrderAll([n])) + [] == Labels(n) && ShapeOf(PreOrderAll([n])) + [] == Shape(n)
  {
    PreOrderAllCons(n, []);
    assert PreOrder(n) + [] == PreOrder(n);
  }

  /** A tree is determined by its labels and its shape. */
  lemma LabelsAndShapeDetermineTree(a: Node, b: Node)
    requires Labels(a) == Labels(b) && Shape(a) == Shape(b)
    ensures a == b
  {
    OneTreeForest(a);
    OneTreeForest(b);
    DecodeForestOf([a], [], []);
    DecodeForestOf([b], [], []);
  }

  /** The linear search finds the node at the first position of the id. */
  lemma {:induction false} FirstWithIdAt(s: seq<Node>, id: string)
    requires id in IdsOf(s)
    ensures FirstWithId(s, id) == Some(s[IndexOf(IdsOf(s), id)])
  {
    if s[0].id != id {
      var t := s[1..];
      assert IdsOf(s) == [s[0].id] + IdsOf(t);
      assert IdsOf(s)[1..] == IdsOf(t);
      FirstWithIdAt(t, id);
      assert t[IndexOf(IdsOf(t), id)] == s[1 + IndexOf(IdsOf(t), id)];
    }
  }

  /** Two concatenations of distinct ids, with no id in common, are distinct together. */
  lemma DistinctConcat(a: seq<string>, b: seq<string>)
    requires AllDistinct(a) && AllDistinct(b)
    requires forall x :: x in a ==> x !in b
    ensures AllDistinct(a + b)
  {
    forall i, j | 0 <= i < j < |a + b| ensures (a + b)[i] != (a + b)[j] {
      if j < |a| {
        assert (a + b)[i] == a[i] && (a + b)[j] == a[j];
      } else if i >= |a| {
        assert (a + b)[i] == b[i - |a|] && (a + b)[j] == b[j - |a|];
      } else {
        assert (a + b)[i] == a[i] && (a + b)[j] == b[j - |a|];
        assert a[i] in a;
      }
    }
  }

  /** A distinct concatenation has distinct, disjoint parts. */
  lemma DistinctSplit(a: seq<string>, b: seq<string>)
    requires AllDistinct(a + b)
    ensures AllDistinct(a) && AllDistinct(b)
    ensures forall x :: x in a ==> x !in b
  {
    forall i, j | 0 <= i < j < |a| ensures a[i] != a[j] {
      assert a[i] == (a + b)[i] && a[j] == (a + b)[j];
    }
    forall i, j | 0 <= i < j < |b| ensures b[i] != b[j] {
      assert b[i] == (a + b)[|a| + i] && b[j] == (a + b)[|a| + j];
    }
    forall i, j | 0 <= i < |a| && 0 <= j < |b| ensures a[i] != b[j] {
      assert a[i] == (a + b)[i] && b[j] == (a + b)[|a| + j];
    }
  }
}
