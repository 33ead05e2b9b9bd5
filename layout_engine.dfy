/**
 * The tree layout of the editor (class LayoutEngine): every visible node of
 * the document is given a rectangle, left to right by depth, with each
 * parent vertically centred on its children; a connector is emitted for every
 * parent/child edge, and the bounding box of all rectangles is kept.
 *
 * The layout is first given as functions (`LayoutTree`, `LayoutKids`,
 * `LayoutScene`); the class `SceneBuilder` below is the recursive
 * `layoutNode` closure, which pushes into shared arrays and updates the
 * bounds in place, and is proved to produce exactly what those functions say.
 * Coordinates are exact reals; the text measurer is a parameter.
 */
module Layout {
  import opened Wrappers
  import opened DocTree
  import opened Seqs

  // ----- configuration ------------------------------------------------------

  datatype Spacing = Spacing(horizontal: real, vertical: real)

  /** A layout configuration; `curvature` is absent unless configured. */
  datatype LayoutConfig = LayoutConfig(
    layoutType: string,
    spacing: Spacing,
    maxTextWidth: real,
    minTextWidth: real,
    curvature: Option<real>)

  datatype Font = Font(size: real, weight: string, family: string, lineHeight: real, paddingX: real, paddingY: real)

  datatype Theme = Theme(font: Font)

  /** The configuration a LayoutEngine uses when it is given none. */
  const DefaultLayoutConfig := LayoutConfig("tree-ltr", Spacing(100.0, 20.0), 300.0, 80.0, None)

  /**
   * The width the canvas reports for a text drawn in a font. Widths are never
   * negative.
   */
  type Measurer = m: (Font, string) -> real | forall f, t :: 0.0 <= m(f, t)
    witness (f: Font, t: string) => 0.0

  /** Everything one layout pass reads: the config, the theme, the collapsed ids and the measurer. */
  datatype Env = Env(config: LayoutConfig, theme: Theme, collapsed: set<string>, measure: Measurer)

  // ----- measureNode ----------------------------------------------------------

  datatype Size = Size(width: real, height: real)

  function Min(a: real, b: real): real { if a <= b then a else b }

  function Max(a: real, b: real): real { if a <= b then b else a }

  /**
   * measureNode: the text width plus horizontal padding, clamped first from
   * below by minTextWidth and then from above by maxTextWidth; the height is
   * one line plus vertical padding.
   */
  function MeasureNode(measure: Measurer, text: string, config: LayoutConfig, theme: Theme): (s: Size)
    ensures s.height == theme.font.lineHeight + 2.0 * theme.font.paddingY
    ensures config.minTextWidth <= config.maxTextWidth ==> config.minTextWidth <= s.width <= config.maxTextWidth
    ensures config.maxTextWidth <= config.minTextWidth ==> s.width == config.maxTextWidth
    ensures s.width <= config.maxTextWidth
    ensures var raw := measure(theme.font, text) + 2.0 * theme.font.paddingX;
      && (config.minTextWidth <= raw <= config.maxTextWidth ==> s.width == raw)
      && (raw <= config.minTextWidth <= config.maxTextWidth ==> s.width == config.minTextWidth)
      && (config.maxTextWidth <= raw ==> s.width == config.maxTextWidth)
  {
    var raw := measure(theme.font, text) + theme.font.paddingX * 2.0;
    Size(Min(Max(raw, config.minTextWidth), config.maxTextWidth), theme.font.lineHeight + theme.font.paddingY * 2.0)
  }

  /** The size of a document node under a layout pass. */
  function SizeOf(env: Env, n: Node): Size {
    MeasureNode(env.measure, n.text, env.config, env.theme)
  }

  // ----- the scene ------------------------------------------------------------

  /** One entry of `nodes`: `id` and `nodeId` both carry the document node's id. */
  datatype PositionedNode = PositionedNode(
    id: string,
    nodeId: string,
    x: real,
    y: real,
    width: real,
    height: real,
    text: string,
    classId: string,
    isCollapsed: bool,
    hasNotes: bool,
    hasChildren: bool,
    depth: nat)

  datatype Connector = Connector(fromNodeId: string, toNodeId: string)

  datatype Bounds = Bounds(minX: real, minY: real, maxX: real, maxY: real)

  datatype Scene = Scene(nodes: seq<PositionedNode>, connectors: seq<Connector>, bounds: Bounds)

  /** `node.class || 'default'`: an absent or empty class gives 'default'. */
  function ClassId(n: Node): string {
    if n.classTag.Some? && n.classTag.value != "" then n.classTag.value else "default"
  }

  /** `!!node.notes`: notes that are present and non-empty. */
  predicate HasNotes(n: Node) {
    n.notes.Some? && n.notes.value != ""
  }

  /** The record layoutNode pushes for `n` placed at (x, y). */
  function Place(env: Env, n: Node, x: real, y: real, depth: nat): (p: PositionedNode)
    ensures p.id == n.id && p.nodeId == n.id && p.text == n.text
    ensures p.x == x && p.y == y && p.depth == depth
    ensures p.width == SizeOf(env, n).width && p.height == SizeOf(env, n).height
    ensures p.classId == (if n.classTag.Some? && n.classTag.value != "" then n.classTag.value else "default")
    ensures p.isCollapsed == (n.id in env.collapsed)
    ensures p.hasNotes == (n.notes.Some? && n.notes.value != "")
    ensures p.hasChildren == (|n.children| > 0)
  {
    var s := SizeOf(env, n);
    PositionedNode(n.id, n.id, x, y, s.width, s.height, n.text, ClassId(n),
      n.id in env.collapsed, HasNotes(n), |n.children| > 0, depth)
  }

  /** The x of every child of `n` when `n` sits at x. */
  function ChildX(env: Env, n: Node, x: real): real {
    x + SizeOf(env, n).width + env.config.spacing.horizontal
  }

  /** The vertical distance between consecutive children of `n`: `n`'s own height plus the spacing. */
  function Step(env: Env, n: Node): real {
    SizeOf(env, n).height + env.config.spacing.vertical
  }

  /** The y of row k of `count` rows `step` apart whose middle is at y. */
  function CentredY(y: real, count: nat, step: real, k: nat): real {
    y - ((count - 1) as real * step) / 2.0 + k as real * step
  }

  /** The y of child k of `n` when `n` sits at y: the children are centred on `n`. */
  function ChildY(env: Env, n: Node, y: real, k: nat): real {
    CentredY(y, |n.children|, Step(env, n), k)
  }

  /** Child 0 sits half the children's extent above `n`, and each next child one step lower. */
  lemma ChildYSteps(env: Env, n: Node, y: real, k: nat)
    ensures ChildY(env, n, y, 0) == y - ((|n.children| - 1) as real * Step(env, n)) / 2.0
    ensures ChildY(env, n, y, k + 1) == ChildY(env, n, y, k) + Step(env, n)
  {
    assert (k + 1) as real * Step(env, n) == k as real * Step(env, n) + Step(env, n);
  }

  /**
   * The nodes and the connectors layoutNode(n, x, y, depth) pushes: `n`
   * itself, then, unless `n` is collapsed, the layout of its children.
   */
  function LayoutTree(env: Env, n: Node, x: real, y: real, depth: nat): (r: (seq<PositionedNode>, seq<Connector>))
    ensures |r.0| >= 1 && r.0[0] == Place(env, n, x, y, depth)
    ensures |r.1| + 1 == |r.0|
    decreases n, 1, 0
  {
    var p := Place(env, n, x, y, depth);
    if n.id in env.collapsed then ([p], [])
    else
      var kids := LayoutKids(env, n, x, y, depth, |n.children|);
      ([p] + kids.0, kids.1)
  }

  /**
   * What the first i rounds of the children loop of layoutNode(n, x, y, depth)
   * push: for each child k < i, the layout of its subtree at
   * (ChildX, ChildY(k)), and then the connector from `n` to it.
   */
  function LayoutKids(env: Env, n: Node, x: real, y: real, depth: nat, i: nat): (r: (seq<PositionedNode>, seq<Connector>))
    requires i <= |n.children|
    ensures |r.1| == |r.0|
    decreases n, 0, i
  {
    if i == 0 then ([], [])
    else
      var prev := LayoutKids(env, n, x, y, depth, i - 1);
      var c := n.children[i - 1];
      var sub := LayoutTree(env, c, ChildX(env, n, x), ChildY(env, n, y, i - 1), depth + 1);
      (prev.0 + sub.0, prev.1 + sub.1 + [Connector(n.id, c.id)])
  }

  /**
   * One round of the children loop: what was pushed before it, followed by
   * the subtree of child `i` and its connector, is what `i + 1` rounds push.
   */
  lemma KidsStep(env: Env, n: Node, x: real, y: real, depth: nat, i: nat,
                 ns: seq<PositionedNode>, ls: seq<Connector>, b: Bounds)
    requires i < |n.children|
    ensures (ns + LayoutKids(env, n, x, y, depth, i).0)
      + LayoutTree(env, n.children[i], ChildX(env, n, x), ChildY(env, n, y, i), depth + 1).0
      == ns + LayoutKids(env, n, x, y, depth, i + 1).0
    ensures (ls + LayoutKids(env, n, x, y, depth, i).1)
      + LayoutTree(env, n.children[i], ChildX(env, n, x), ChildY(env, n, y, i), depth + 1).1
      + [Connector(n.id, n.children[i].id)]
      == ls + LayoutKids(env, n, x, y, depth, i + 1).1
    ensures ExtendAll(ExtendAll(b, LayoutKids(env, n, x, y, depth, i).0),
        LayoutTree(env, n.children[i], ChildX(env, n, x), ChildY(env, n, y, i), depth + 1).0)
      == ExtendAll(b, LayoutKids(env, n, x, y, depth, i + 1).0)
  {
    var kids := LayoutKids(env, n, x, y, depth, i);
    var sub := LayoutTree(env, n.children[i], ChildX(env, n, x), ChildY(env, n, y, i), depth + 1);
    var link := Connector(n.id, n.children[i].id);
    assert LayoutKids(env, n, x, y, depth, i + 1) == (kids.0 + sub.0, kids.1 + sub.1 + [link]);
    Assoc(ns, kids.0, sub.0);
    Assoc(ls, kids.1, sub.1);
    Assoc(ls, kids.1 + sub.1, [link]);
    ExtendAllConcat(b, kids.0, sub.0);
  }

  /** The bounds after one `Math.min`/`Math.max` update with the rectangle of `p`. */
  function Extend(b: Bounds, p: PositionedNode): Bounds {
    Bounds(Min(b.minX, p.x), Min(b.minY, p.y), Max(b.maxX, p.x + p.width), Max(b.maxY, p.y + p.height))
  }

  /** The bounds after updating `b` with every node of `ps`, in order. */
  function ExtendAll(b: Bounds, ps: seq<PositionedNode>): Bounds
    decreases |ps|
  {
    if ps == [] then b else ExtendAll(Extend(b, ps[0]), ps[1..])
  }

  /** layout(root, ...): the root at (0, 0) with depth 0, and bounds starting at all zeroes. */
  function LayoutScene(env: Env, root: Node): (s: Scene)
    ensures |s.nodes| >= 1 && s.nodes[0] == Place(env, root, 0.0, 0.0, 0)
    ensures |s.connectors| == |s.nodes| - 1
  {
    var t := LayoutTree(env, root, 0.0, 0.0, 0);
    Scene(t.0, t.1, ExtendAll(Bounds(0.0, 0.0, 0.0, 0.0), t.0))
  }

  // ----- the bounds -----------------------------------------------------------

  lemma {:induction false} ExtendAllConcat(b: Bounds, s: seq<PositionedNode>, t: seq<PositionedNode>)
    ensures ExtendAll(b, s + t) == ExtendAll(ExtendAll(b, s), t)
    decreases |s|
  {
    if s == [] {
      assert s + t == t;
    } else {
      assert (s + t)[0] == s[0] && (s + t)[1..] == s[1..] + t;
      ExtendAllConcat(Extend(b, s[0]), s[1..], t);
    }
  }

  lemma ExtendAllSingle(b: Bounds, p: PositionedNode)
    ensures ExtendAll(b, [p]) == Extend(b, p)
  {
    assert [p][1..] == [];
  }

  /** The rectangle of `p` lies inside `b`. */
  predicate Encloses(b: Bounds, p: PositionedNode) {
    b.minX <= p.x && b.minY <= p.y && p.x + p.width <= b.maxX && p.y + p.height <= b.maxY
  }

  /** `outer` contains `inner`. */
  predicate Covers(outer: Bounds, inner: Bounds) {
    outer.minX <= inner.minX && outer.minY <= inner.minY && inner.maxX <= outer.maxX && inner.maxY <= outer.maxY
  }

  /** The bounds after the updates contain the starting bounds and every rectangle. */
  lemma {:induction false} ExtendAllEncloses(b: Bounds, ps: seq<PositionedNode>)
    ensures Covers(ExtendAll(b, ps), b)
    ensures forall i :: 0 <= i < |ps| ==> Encloses(ExtendAll(b, ps), ps[i])
    decreases |ps|
  {
    if ps != [] {
      ExtendAllEncloses(Extend(b, ps[0]), ps[1..]);
      forall i | 0 <= i < |ps| ensures Encloses(ExtendAll(b, ps), ps[i]) {
        if i > 0 {
          assert ps[i] == ps[1..][i - 1];
        }
      }
    }
  }

  /** Every side of the updated bounds is the starting side or a side of some rectangle. */
  lemma {:induction false} ExtendAllAttained(b: Bounds, ps: seq<PositionedNode>)
    ensures ExtendAll(b, ps).minX == b.minX || exists i :: 0 <= i < |ps| && ExtendAll(b, ps).minX == ps[i].x
    ensures ExtendAll(b, ps).minY == b.minY || exists i :: 0 <= i < |ps| && ExtendAll(b, ps).minY == ps[i].y
    ensures ExtendAll(b, ps).maxX == b.maxX || exists i :: 0 <= i < |ps| && ExtendAll(b, ps).maxX == ps[i].x + ps[i].width
    ensures ExtendAll(b, ps).maxY == b.maxY || exists i :: 0 <= i < |ps| && ExtendAll(b, ps).maxY == ps[i].y + ps[i].height
    decreases |ps|
  {
    if ps != [] {
      ExtendAllAttained(Extend(b, ps[0]), ps[1..]);
      forall i | 0 <= i < |ps[1..]| ensures ps[1..][i] == ps[i + 1] { }
    }
  }

  /** The rectangles of the scene, and the origin, lie inside its bounds. */
  lemma SceneBoundsEnclose(env: Env, root: Node)
    ensures Covers(LayoutScene(env, root).bounds, Bounds(0.0, 0.0, 0.0, 0.0))
    ensures forall i :: 0 <= i < |LayoutScene(env, root).nodes| ==> Encloses(LayoutScene(env, root).bounds, LayoutScene(env, root).nodes[i])
  {
    ExtendAllEncloses(Bounds(0.0, 0.0, 0.0, 0.0), LayoutScene(env, root).nodes);
  }

  /**
   * With sizes that cannot be negative, every side of the bounds is the
   * matching side of some rectangle of the scene: the bounds are the exact
   * extent of the drawing.
   */
  lemma SceneBoundsExact(env: Env, root: Node)
    requires 0.0 <= env.theme.font.paddingX && 0.0 <= env.config.maxTextWidth
    requires 0.0 <= env.theme.font.lineHeight + 2.0 * env.theme.font.paddingY
    ensures var s := LayoutScene(env, root);
      && (exists i :: 0 <= i < |s.nodes| && s.bounds.minX == s.nodes[i].x)
      && (exists i :: 0 <= i < |s.nodes| && s.bounds.minY == s.nodes[i].y)
      && (exists i :: 0 <= i < |s.nodes| && s.bounds.maxX == s.nodes[i].x + s.nodes[i].width)
      && (exists i :: 0 <= i < |s.nodes| && s.bounds.maxY == s.nodes[i].y + s.nodes[i].height)
  {
    var s := LayoutScene(env, root);
    var b0 := Bounds(0.0, 0.0, 0.0, 0.0);
    ExtendAllAttained(b0, s.nodes);
    ExtendAllEncloses(b0, s.nodes);
    var r := s.nodes[0];
    assert Encloses(s.bounds, r);
    assert 0.0 <= r.width && 0.0 <= r.height;
  }

  // ----- placement ------------------------------------------------------------

  /** Later rounds of the children loop only append to what earlier rounds pushed. */
  lemma {:induction false} KidsPrefix(env: Env, n: Node, x: real, y: real, depth: nat, i: nat, j: nat)
    requires i <= j <= |n.children|
    ensures |LayoutKids(env, n, x, y, depth, i).0| <= |LayoutKids(env, n, x, y, depth, j).0|
    ensures forall t :: 0 <= t < |LayoutKids(env, n, x, y, depth, i).0| ==>
      LayoutKids(env, n, x, y, depth, j).0[t] == LayoutKids(env, n, x, y, depth, i).0[t]
    decreases j
  {
    if i < j {
      KidsPrefix(env, n, x, y, depth, i, j - 1);
      var prev := LayoutKids(env, n, x, y, depth, j - 1).0;
      var sub := LayoutTree(env, n.children[j - 1], ChildX(env, n, x), ChildY(env, n, y, j - 1), depth + 1).0;
      assert LayoutKids(env, n, x, y, depth, j).0 == prev + sub;
      forall t | 0 <= t < |prev| ensures (prev + sub)[t] == prev[t] { }
    }
  }

  /**
   * The placement of child k of an expanded node: it follows `n` and the
   * subtrees of the k children before it, one level deeper, one horizontal
   * spacing right of `n`'s right edge, and k steps of `n`'s height plus the
   * vertical spacing below the top child, the children being centred on `n`.
   */
  lemma {:induction false} ChildPlacement(env: Env, n: Node, x: real, y: real, depth: nat, k: nat)
    requires n.id !in env.collapsed && k < |n.children|
    ensures 1 + |LayoutKids(env, n, x, y, depth, k).0| < |LayoutTree(env, n, x, y, depth).0|
    ensures LayoutTree(env, n, x, y, depth).0[1 + |LayoutKids(env, n, x, y, depth, k).0|]
      == Place(env, n.children[k], LayoutTree(env, n, x, y, depth).0[1 + |LayoutKids(env, n, x, y, depth, k).0|].x,
               LayoutTree(env, n, x, y, depth).0[1 + |LayoutKids(env, n, x, y, depth, k).0|].y, depth + 1)
    ensures LayoutTree(env, n, x, y, depth).0[1 + |LayoutKids(env, n, x, y, depth, k).0|].x
      == x + LayoutTree(env, n, x, y, depth).0[0].width + env.config.spacing.horizontal
    ensures LayoutTree(env, n, x, y, depth).0[1 + |LayoutKids(env, n, x, y, depth, k).0|].y
      == CentredY(y, |n.children|, LayoutTree(env, n, x, y, depth).0[0].height + env.config.spacing.vertical, k)
  {
    var kids := LayoutKids(env, n, x, y, depth, |n.children|).0;
    var p := Place(env, n, x, y, depth);
    var i := |LayoutKids(env, n, x, y, depth, k).0|;
    var t := LayoutTree(env, n, x, y, depth).0;
    KidRoot(env, n, x, y, depth, k);
    assert t == [p] + kids;
    assert t[1 + i] == kids[i] && t[0] == p;
    ChildYFormula(env, n, y, k, LayoutTree(env, n, x, y, depth).0[0].height,
      LayoutTree(env, n, x, y, depth).0[1 + |LayoutKids(env, n, x, y, depth, k).0|].y);
  }

  /** ChildY written out with `n`'s height. */
  lemma ChildYFormula(env: Env, n: Node, y: real, k: nat, height: real, cy: real)
    requires height == SizeOf(env, n).height && cy == ChildY(env, n, y, k)
    ensures cy == CentredY(y, |n.children|, height + env.config.spacing.vertical, k)
  {
  }

  /** After the subtrees of the first k children comes child k, at ChildX and ChildY(k). */
  lemma {:induction false} KidRoot(env: Env, n: Node, x: real, y: real, depth: nat, k: nat)
    requires k < |n.children|
    ensures |LayoutKids(env, n, x, y, depth, k).0| < |LayoutKids(env, n, x, y, depth, |n.children|).0|
    ensures LayoutKids(env, n, x, y, depth, |n.children|).0[|LayoutKids(env, n, x, y, depth, k).0|]
      == Place(env, n.children[k], ChildX(env, n, x), ChildY(env, n, y, k), depth + 1)
  {
    var before := LayoutKids(env, n, x, y, depth, k).0;
    var sub := LayoutTree(env, n.children[k], ChildX(env, n, x), ChildY(env, n, y, k), depth + 1).0;
    KidsPrefix(env, n, x, y, depth, k + 1, |n.children|);
    assert LayoutKids(env, n, x, y, depth, k + 1).0 == before + sub;
    assert (before + sub)[|before|] == sub[0];
  }

  /** A collapsed node is emitted, flagged as collapsed, and nothing of its subtree is. */
  lemma CollapsedEmitsOnlyItself(env: Env, n: Node, x: real, y: real, depth: nat)
    requires n.id in env.collapsed
    ensures LayoutTree(env, n, x, y, depth).0 == [Place(env, n, x, y, depth)]
    ensures LayoutTree(env, n, x, y, depth).1 == []
    ensures Place(env, n, x, y, depth).isCollapsed
    ensures Place(env, n, x, y, depth).hasChildren <==> |n.children| > 0
  {
  }

  // ----- what the scene shows ------------------------------------------------

  /**
   * The visible tree in pre-order: a node, then, unless it is collapsed, the
   * visible trees of its children in array order.
   */
  function VisibleOrder(collapsed: set<string>, n: Node): (r: seq<Node>)
    ensures |r| >= 1 && r[0] == n
    decreases n, 1
  {
    [n] + (if n.id in collapsed then [] else VisibleOrderAll(collapsed, n.children))
  }

  function VisibleOrderAll(collapsed: set<string>, cs: seq<Node>): seq<Node>
    decreases cs, 0
  {
    if cs == [] then [] else VisibleOrder(collapsed, cs[0]) + VisibleOrderAll(collapsed, cs[1..])
  }

  lemma {:induction false} VisibleOrderAllConcat(collapsed: set<string>, a: seq<Node>, b: seq<Node>)
    ensures VisibleOrderAll(collapsed, a + b) == VisibleOrderAll(collapsed, a) + VisibleOrderAll(collapsed, b)
  {
    if a == [] {
      assert a + b == b;
    } else {
      assert (a + b)[0] == a[0] && (a + b)[1..] == a[1..] + b;
      VisibleOrderAllConcat(collapsed, a[1..], b);
      Assoc(VisibleOrder(collapsed, a[0]), VisibleOrderAll(collapsed, a[1..]), VisibleOrderAll(collapsed, b));
    }
  }

  lemma {:induction false} VisibleOrderAllSnoc(collapsed: set<string>, cs: seq<Node>, i: nat)
    requires i < |cs|
    ensures VisibleOrderAll(collapsed, cs[..i + 1]) == VisibleOrderAll(collapsed, cs[..i]) + VisibleOrder(collapsed, cs[i])
  {
    SpliceAt(cs, i, cs[i]);
    VisibleOrderAllConcat(collapsed, cs[..i], [cs[i]]);
    assert [cs[i]][1..] == [];
    EmptyRight(VisibleOrder(collapsed, cs[i]));
  }

  /** Each entry of `ps` is the record of the matching document node of `vs`. */
  predicate PlacedAs(env: Env, ps: seq<PositionedNode>, vs: seq<Node>) {
    |ps| == |vs| && forall i :: 0 <= i < |ps| ==> ps[i] == Place(env, vs[i], ps[i].x, ps[i].y, ps[i].depth)
  }

  lemma {:induction false} PlacedAsConcat(env: Env, ps: seq<PositionedNode>, vs: seq<Node>, qs: seq<PositionedNode>, ws: seq<Node>)
    requires PlacedAs(env, ps, vs) && PlacedAs(env, qs, ws)
    ensures PlacedAs(env, ps + qs, vs + ws)
  {
    forall i | 0 <= i < |ps + qs| ensures (ps + qs)[i] == Place(env, (vs + ws)[i], (ps + qs)[i].x, (ps + qs)[i].y, (ps + qs)[i].depth) {
      if i < |ps| {
        assert (ps + qs)[i] == ps[i] && (vs + ws)[i] == vs[i];
      } else {
        assert (ps + qs)[i] == qs[i - |ps|] && (vs + ws)[i] == ws[i - |ps|];
      }
    }
  }

  /**
   * layoutNode emits the visible tree in pre-order: entry i of the nodes is
   * the record of the i-th visible document node, with its text, class,
   * notes and children flags, collapsed flag and measured size.
   */
  lemma {:induction false} LayoutFollowsVisibleOrder(env: Env, n: Node, x: real, y: real, depth: nat)
    ensures PlacedAs(env, LayoutTree(env, n, x, y, depth).0, VisibleOrder(env.collapsed, n))
    decreases n, 1, 0
  {
    var p := Place(env, n, x, y, depth);
    assert PlacedAs(env, [p], [n]);
    if n.id !in env.collapsed {
      var cs := n.children;
      LayoutKidsFollowVisibleOrder(env, n, x, y, depth, |cs|);
      SliceEnds(cs);
      PlacedAsConcat(env, [p], [n], LayoutKids(env, n, x, y, depth, |cs|).0, VisibleOrderAll(env.collapsed, cs));
    }
  }

  lemma {:induction false} LayoutKidsFollowVisibleOrder(env: Env, n: Node, x: real, y: real, depth: nat, i: nat)
    requires i <= |n.children|
    ensures PlacedAs(env, LayoutKids(env, n, x, y, depth, i).0, VisibleOrderAll(env.collapsed, n.children[..i]))
    decreases n, 0, i
  {
    var cs := n.children;
    if i == 0 {
      assert cs[..0] == [];
    } else {
      var c := cs[i - 1];
      LayoutKidsFollowVisibleOrder(env, n, x, y, depth, i - 1);
      LayoutFollowsVisibleOrder(env, c, ChildX(env, n, x), ChildY(env, n, y, i - 1), depth + 1);
      VisibleOrderAllSnoc(env.collapsed, cs, i - 1);
      PlacedAsConcat(env, LayoutKids(env, n, x, y, depth, i - 1).0, VisibleOrderAll(env.collapsed, cs[..i - 1]),
        LayoutTree(env, c, ChildX(env, n, x), ChildY(env, n, y, i - 1), depth + 1).0, VisibleOrder(env.collapsed, c));
    }
  }

  /** With no node of the tree collapsed, the visible tree is the whole document in pre-order. */
  lemma {:induction false} NothingCollapsedShowsAll(collapsed: set<string>, n: Node)
    requires forall m :: m in PreOrder(n) ==> m.id !in collapsed
    ensures VisibleOrder(collapsed, n) == PreOrder(n)
    decreases n, 1
  {
    assert n in PreOrder(n);
    forall m | m in PreOrderAll(n.children) ensures m.id !in collapsed {
      assert m in PreOrder(n);
    }
    NothingCollapsedShowsAllAmong(collapsed, n.children);
  }

  lemma {:induction false} NothingCollapsedShowsAllAmong(collapsed: set<string>, cs: seq<Node>)
    requires forall m :: m in PreOrderAll(cs) ==> m.id !in collapsed
    ensures VisibleOrderAll(collapsed, cs) == PreOrderAll(cs)
    decreases cs, 0
  {
    if cs != [] {
      forall m | m in PreOrder(cs[0]) ensures m.id !in collapsed {
        assert m in PreOrderAll(cs);
      }
      forall m | m in PreOrderAll(cs[1..]) ensures m.id !in collapsed {
        assert m in PreOrderAll(cs);
      }
      NothingCollapsedShowsAll(collapsed, cs[0]);
      NothingCollapsedShowsAllAmong(collapsed, cs[1..]);
    }
  }

  /** Every node of the visible tree is a node of the document tree. */
  lemma {:induction false} VisibleIsSubtree(collapsed: set<string>, n: Node)
    ensures forall m :: m in VisibleOrder(collapsed, n) ==> m in PreOrder(n)
    decreases n, 1
  {
    InConcat([n], PreOrderAll(n.children));
    if n.id !in collapsed {
      VisibleAmongIsSubtree(collapsed, n.children);
      InConcat([n], VisibleOrderAll(collapsed, n.children));
    }
  }

  lemma {:induction false} VisibleAmongIsSubtree(collapsed: set<string>, cs: seq<Node>)
    ensures forall m :: m in VisibleOrderAll(collapsed, cs) ==> m in PreOrderAll(cs)
    decreases cs, 0
  {
    if cs != [] {
      VisibleIsSubtree(collapsed, cs[0]);
      VisibleAmongIsSubtree(collapsed, cs[1..]);
      InConcat(VisibleOrder(collapsed, cs[0]), VisibleOrderAll(collapsed, cs[1..]));
      InConcat(PreOrder(cs[0]), PreOrderAll(cs[1..]));
    }
  }

  /** A node below a node of the tree is below the root. */
  lemma {:induction false} BelowIsBelowRoot(n: Node, c: Node, d: Node)
    requires c in PreOrder(n) && d in PreOrderAll(c.children)
    ensures d in PreOrderAll(n.children)
    decreases n, 1
  {
    InConcat([n], PreOrderAll(n.children));
    if c != n {
      BelowIsBelowAmong(n.children, c, d);
    }
  }

  lemma {:induction false} BelowIsBelowAmong(cs: seq<Node>, c: Node, d: Node)
    requires c in PreOrderAll(cs) && d in PreOrderAll(c.children)
    ensures d in PreOrderAll(cs)
    decreases cs, 0
  {
    InConcat(PreOrder(cs[0]), PreOrderAll(cs[1..]));
    InConcat([cs[0]], PreOrderAll(cs[0].children));
    if c in PreOrder(cs[0]) {
      BelowIsBelowRoot(cs[0], c, d);
    } else {
      BelowIsBelowAmong(cs[1..], c, d);
    }
  }

  lemma IdsOfSubset(vs: seq<Node>, ws: seq<Node>)
    requires forall m :: m in vs ==> m in ws
    ensures forall x :: x in IdsOf(vs) ==> x in IdsOf(ws)
  {
    forall x | x in IdsOf(vs) ensures x in IdsOf(ws) {
      var i :| 0 <= i < |vs| && IdsOf(vs)[i] == x;
      assert vs[i] in vs;
      var j :| 0 <= j < |ws| && ws[j] == vs[i];
      assert IdsOf(ws)[j] == x;
    }
  }

  lemma IdOfMember(m: Node, ws: seq<Node>)
    requires m in ws
    ensures m.id in IdsOf(ws)
  {
    var j :| 0 <= j < |ws| && ws[j] == m;
    assert IdsOf(ws)[j] == m.id;
  }

  /**
   * With all ids distinct, no node below a collapsed node belongs to the
   * visible tree: a collapsed node hides its whole subtree.
   */
  lemma {:induction false} CollapsedHidesDescendants(collapsed: set<string>, n: Node, c: Node, d: Node)
    requires AllDistinct(Ids(n))
    requires c in PreOrder(n) && c.id in collapsed
    requires d in PreOrderAll(c.children)
    ensures d.id !in IdsOf(VisibleOrder(collapsed, n))
    decreases n, 1
  {
    var below := PreOrderAll(n.children);
    IdsUnfold(n);
    DistinctSplit([n.id], IdsOf(below));
    BelowIsBelowRoot(n, c, d);
    IdOfMember(d, below);
    IdsOfConcat([n], VisibleOrderAll(collapsed, n.children));
    if n.id !in collapsed {
      InConcat([n], below);
      CollapsedHidesDescendantsAmong(collapsed, n.children, c, d);
    }
  }

  lemma {:induction false} CollapsedHidesDescendantsAmong(collapsed: set<string>, cs: seq<Node>, c: Node, d: Node)
    requires AllDistinct(IdsOf(PreOrderAll(cs)))
    requires c in PreOrderAll(cs) && c.id in collapsed
    requires d in PreOrderAll(c.children)
    ensures d.id !in IdsOf(VisibleOrderAll(collapsed, cs))
    decreases cs, 0
  {
    var first, rest := PreOrder(cs[0]), PreOrderAll(cs[1..]);
    IdsOfConcat(first, rest);
    DistinctSplit(IdsOf(first), IdsOf(rest));
    InConcat(first, rest);
    IdsOfConcat(VisibleOrder(collapsed, cs[0]), VisibleOrderAll(collapsed, cs[1..]));
    VisibleIsSubtree(collapsed, cs[0]);
    VisibleAmongIsSubtree(collapsed, cs[1..]);
    IdsOfSubset(VisibleOrder(collapsed, cs[0]), first);
    IdsOfSubset(VisibleOrderAll(collapsed, cs[1..]), rest);
    if c in first {
      CollapsedHidesDescendants(collapsed, cs[0], c, d);
      InConcat([cs[0]], PreOrderAll(cs[0].children));
      BelowIsBelowRoot(cs[0], c, d);
      IdOfMember(d, first);
    } else {
      CollapsedHidesDescendantsAmong(collapsed, cs[1..], c, d);
      BelowIsBelowAmong(cs[1..], c, d);
      IdOfMember(d, rest);
    }
  }

  /**
   * Connector `l` runs from entry a to a later entry b of `ps`, where the
   * document node `vs[b]` behind entry b is a child of the node `vs[a]` behind
   * entry a; entry b is a level deeper and one horizontal spacing right of
   * entry a's right edge.
   */
  predicate Joins(ps: seq<PositionedNode>, vs: seq<Node>, l: Connector, horizontal: real) {
    exists a, b :: 0 <= a < b < |ps| && b < |vs| && vs[b] in vs[a].children
      && ps[a].id == l.fromNodeId && ps[b].id == l.toNodeId
      && ps[b].depth == ps[a].depth + 1 && ps[b].x == ps[a].x + ps[a].width + horizontal
  }

  lemma JoinsWiden(pre: seq<PositionedNode>, ps: seq<PositionedNode>, post: seq<PositionedNode>,
                   vpre: seq<Node>, vs: seq<Node>, vpost: seq<Node>, l: Connector, horizontal: real)
    requires Joins(ps, vs, l, horizontal) && |pre| == |vpre|
    ensures Joins(pre + ps + post, vpre + vs + vpost, l, horizontal)
  {
    var a, b :| 0 <= a < b < |ps| && b < |vs| && vs[b] in vs[a].children
      && ps[a].id == l.fromNodeId && ps[b].id == l.toNodeId
      && ps[b].depth == ps[a].depth + 1 && ps[b].x == ps[a].x + ps[a].width + horizontal;
    assert (pre + ps + post)[|pre| + a] == ps[a] && (pre + ps + post)[|pre| + b] == ps[b];
    assert (vpre + vs + vpost)[|pre| + a] == vs[a] && (vpre + vs + vpost)[|pre| + b] == vs[b];
  }

  /**
   * Every connector of layoutNode(n, ...) runs from the record of a visible
   * node to the record of one of that node's children, which sits a level
   * deeper and one horizontal spacing right of its parent's right edge. The
   * records follow the visible order (LayoutFollowsVisibleOrder), so entry a
   * is the record of the document node `vs[a]`.
   */
  lemma {:induction false} ConnectorsJoinParentAndChild(env: Env, n: Node, x: real, y: real, depth: nat)
    ensures forall j :: 0 <= j < |LayoutTree(env, n, x, y, depth).1| ==>
      Joins(LayoutTree(env, n, x, y, depth).0, VisibleOrder(env.collapsed, n),
        LayoutTree(env, n, x, y, depth).1[j], env.config.spacing.horizontal)
    decreases n, 1, 0
  {
    if n.id !in env.collapsed {
      KidsConnectorsJoin(env, n, x, y, depth, |n.children|);
      var kids := LayoutKids(env, n, x, y, depth, |n.children|);
      assert LayoutTree(env, n, x, y, depth) == ([Place(env, n, x, y, depth)] + kids.0, kids.1);
      SliceEnds(n.children);
    }
  }

  lemma {:induction false} KidsConnectorsJoin(env: Env, n: Node, x: real, y: real, depth: nat, i: nat)
    requires i <= |n.children|
    ensures forall j :: 0 <= j < |LayoutKids(env, n, x, y, depth, i).1| ==>
      Joins([Place(env, n, x, y, depth)] + LayoutKids(env, n, x, y, depth, i).0,
        [n] + VisibleOrderAll(env.collapsed, n.children[..i]),
        LayoutKids(env, n, x, y, depth, i).1[j], env.config.spacing.horizontal)
    decreases n, 0, i
  {
    if i > 0 {
      var cs := n.children;
      var c := cs[i - 1];
      var cx, cy := ChildX(env, n, x), ChildY(env, n, y, i - 1);
      KidsConnectorsJoin(env, n, x, y, depth, i - 1);
      ConnectorsJoinParentAndChild(env, c, cx, cy, depth + 1);
      var prev := LayoutKids(env, n, x, y, depth, i - 1);
      var sub := LayoutTree(env, c, cx, cy, depth + 1);
      var pv := VisibleOrderAll(env.collapsed, cs[..i - 1]);
      assert |prev.0| == |pv| by {
        LayoutKidsFollowVisibleOrder(env, n, x, y, depth, i - 1);
      }
      assert VisibleOrderAll(env.collapsed, cs[..i]) == pv + VisibleOrder(env.collapsed, c) by {
        VisibleOrderAllSnoc(env.collapsed, cs, i - 1);
      }
      JoinsAfterChild(Place(env, n, x, y, depth), prev.0, prev.1, sub.0, sub.1, Connector(n.id, c.id),
        n, pv, VisibleOrder(env.collapsed, c), env.config.spacing.horizontal);
    }
  }

  /** One round of the children loop keeps every connector joining a parent and its child. */
  lemma {:induction false} JoinsAfterChild(p: PositionedNode, prevNodes: seq<PositionedNode>, prevLinks: seq<Connector>,
                                           subNodes: seq<PositionedNode>, subLinks: seq<Connector>, link: Connector,
                                           v: Node, prevVisible: seq<Node>, subVisible: seq<Node>, h: real)
    requires forall j :: 0 <= j < |prevLinks| ==> Joins([p] + prevNodes, [v] + prevVisible, prevLinks[j], h)
    requires forall j :: 0 <= j < |subLinks| ==> Joins(subNodes, subVisible, subLinks[j], h)
    requires |prevNodes| == |prevVisible| && |subVisible| >= 1 && subVisible[0] in v.children
    requires |subNodes| >= 1 && link.fromNodeId == p.id && link.toNodeId == subNodes[0].id
    requires subNodes[0].depth == p.depth + 1 && subNodes[0].x == p.x + p.width + h
    ensures forall j :: 0 <= j < |prevLinks + subLinks + [link]| ==>
      Joins([p] + (prevNodes + subNodes), [v] + (prevVisible + subVisible), (prevLinks + subLinks + [link])[j], h)
  {
    var links := prevLinks + subLinks + [link];
    forall j | 0 <= j < |links|
      ensures Joins([p] + (prevNodes + subNodes), [v] + (prevVisible + subVisible), links[j], h)
    {
      if j < |prevLinks| {
        assert links[j] == prevLinks[j];
        JoinsBefore([p] + prevNodes, subNodes, [v] + prevVisible, subVisible, prevLinks[j], h);
        Assoc([p], prevNodes, subNodes);
        Assoc([v], prevVisible, subVisible);
      } else if j < |prevLinks| + |subLinks| {
        assert links[j] == subLinks[j - |prevLinks|];
        JoinsAfter([p] + prevNodes, subNodes, [v] + prevVisible, subVisible, subLinks[j - |prevLinks|], h);
        Assoc([p], prevNodes, subNodes);
        Assoc([v], prevVisible, subVisible);
      } else {
        assert links[j] == link;
        JoinsNewLink(p, prevNodes, subNodes, link, v, prevVisible, subVisible, h);
      }
    }
  }

  /** A connector joining entries of `ps` still does so once more records follow. */
  lemma JoinsBefore(ps: seq<PositionedNode>, post: seq<PositionedNode>, vs: seq<Node>, vpost: seq<Node>,
                    l: Connector, h: real)
    requires Joins(ps, vs, l, h)
    ensures Joins(ps + post, vs + vpost, l, h)
  {
    JoinsWiden([], ps, post, [], vs, vpost, l, h);
    assert [] + ps + post == ps + post;
    assert [] + vs + vpost == vs + vpost;
  }

  /** A connector joining entries of `ps` still does so once as many records and nodes come before. */
  lemma JoinsAfter(pre: seq<PositionedNode>, ps: seq<PositionedNode>, vpre: seq<Node>, vs: seq<Node>,
                   l: Connector, h: real)
    requires Joins(ps, vs, l, h) && |pre| == |vpre|
    ensures Joins(pre + ps, vpre + vs, l, h)
  {
    JoinsWiden(pre, ps, [], vpre, vs, [], l, h);
    EmptyRight(pre + ps);
    EmptyRight(vpre + vs);
  }

  /** The connector the loop adds joins the parent's record, entry 0, to the child's, entry 1 + |prevNodes|. */
  lemma JoinsNewLink(p: PositionedNode, prevNodes: seq<PositionedNode>, subNodes: seq<PositionedNode>, link: Connector,
                     v: Node, prevVisible: seq<Node>, subVisible: seq<Node>, h: real)
    requires |prevNodes| == |prevVisible| && |subVisible| >= 1 && subVisible[0] in v.children
    requires |subNodes| >= 1 && link.fromNodeId == p.id && link.toNodeId == subNodes[0].id
    requires subNodes[0].depth == p.depth + 1 && subNodes[0].x == p.x + p.width + h
    ensures Joins([p] + (prevNodes + subNodes), [v] + (prevVisible + subVisible), link, h)
  {
    var all := [p] + (prevNodes + subNodes);
    var vall := [v] + (prevVisible + subVisible);
    assert all[0] == p && all[1 + |prevNodes|] == subNodes[0];
    assert vall[0] == v && vall[1 + |prevNodes|] == subVisible[0];
  }

  /** The ids of the entries of `ps`, in order. */
  function NodeIds(ps: seq<PositionedNode>): (r: seq<string>)
    ensures |r| == |ps| && forall k :: 0 <= k < |ps| ==> r[k] == ps[k].id
  {
    seq(|ps|, k requires 0 <= k < |ps| => ps[k].id)
  }

  /** The ids the connectors of `ls` lead to, in order. */
  function TargetIds(ls: seq<Connector>): (r: seq<string>)
    ensures |r| == |ls| && forall k :: 0 <= k < |ls| ==> r[k] == ls[k].toNodeId
  {
    seq(|ls|, k requires 0 <= k < |ls| => ls[k].toNodeId)
  }

  lemma NodeIdsConcat(a: seq<PositionedNode>, b: seq<PositionedNode>)
    ensures NodeIds(a + b) == NodeIds(a) + NodeIds(b)
  {
    assert forall k :: 0 <= k < |a + b| ==> NodeIds(a + b)[k] == (NodeIds(a) + NodeIds(b))[k];
  }

  lemma TargetIdsConcat(a: seq<Connector>, b: seq<Connector>)
    ensures TargetIds(a + b) == TargetIds(a) + TargetIds(b)
  {
    assert forall k :: 0 <= k < |a + b| ==> TargetIds(a + b)[k] == (TargetIds(a) + TargetIds(b))[k];
  }

  /** The connectors of `ls` lead to the entries of `ps`, each exactly as often as it occurs. */
  predicate LeadTo(ls: seq<Connector>, ps: seq<PositionedNode>) {
    multiset(TargetIds(ls)) == multiset(NodeIds(ps))
  }

  /**
   * The connectors of layoutNode(n, ...) lead to the emitted nodes other
   * than `n` itself, each exactly as often as it is emitted.
   */
  lemma {:induction false} ConnectorTargetsAreNonRootNodes(env: Env, n: Node, x: real, y: real, depth: nat)
    ensures LeadTo(LayoutTree(env, n, x, y, depth).1, LayoutTree(env, n, x, y, depth).0[1..])
    decreases n, 1, 0
  {
    var p := Place(env, n, x, y, depth);
    if n.id in env.collapsed {
      assert [p][1..] == [];
    } else {
      var kids := LayoutKids(env, n, x, y, depth, |n.children|);
      KidsTargets(env, n, x, y, depth, |n.children|);
      assert ([p] + kids.0)[1..] == kids.0;
    }
  }

  lemma {:induction false} KidsTargets(env: Env, n: Node, x: real, y: real, depth: nat, i: nat)
    requires i <= |n.children|
    ensures LeadTo(LayoutKids(env, n, x, y, depth, i).1, LayoutKids(env, n, x, y, depth, i).0)
    decreases n, 0, i
  {
    if i > 0 {
      var c := n.children[i - 1];
      var cx, cy := ChildX(env, n, x), ChildY(env, n, y, i - 1);
      KidsTargets(env, n, x, y, depth, i - 1);
      ConnectorTargetsAreNonRootNodes(env, c, cx, cy, depth + 1);
      var prev := LayoutKids(env, n, x, y, depth, i - 1);
      var sub := LayoutTree(env, c, cx, cy, depth + 1);
      TargetsAfterChild(prev.0, prev.1, sub.0, sub.1, Connector(n.id, c.id));
    }
  }

  /** One round of the children loop adds one connector to the child's own id. */
  lemma {:induction false} TargetsAfterChild(prevNodes: seq<PositionedNode>, prevLinks: seq<Connector>,
                                             subNodes: seq<PositionedNode>, subLinks: seq<Connector>, link: Connector)
    requires LeadTo(prevLinks, prevNodes)
    requires |subNodes| >= 1 && LeadTo(subLinks, subNodes[1..])
    requires link.toNodeId == subNodes[0].id
    ensures LeadTo(prevLinks + subLinks + [link], prevNodes + subNodes)
  {
    TargetIdsConcat(prevLinks + subLinks, [link]);
    TargetIdsConcat(prevLinks, subLinks);
    NodeIdsConcat(prevNodes, subNodes);
    CutAt(subNodes, 0);
    SliceEnds(subNodes);
    NodeIdsConcat([subNodes[0]], subNodes[1..]);
    assert NodeIds([subNodes[0]]) == [link.toNodeId];
    assert TargetIds([link]) == [link.toNodeId];
  }

  // ----- the scene as a whole -----------------------------------------------

  /** Every rectangle of the scene has the common height and a width within the configured range. */
  lemma SceneSizes(env: Env, root: Node)
    ensures forall i :: 0 <= i < |LayoutScene(env, root).nodes| ==>
      LayoutScene(env, root).nodes[i].height == env.theme.font.lineHeight + 2.0 * env.theme.font.paddingY
    ensures env.config.minTextWidth <= env.config.maxTextWidth ==>
      forall i :: 0 <= i < |LayoutScene(env, root).nodes| ==>
        env.config.minTextWidth <= LayoutScene(env, root).nodes[i].width <= env.config.maxTextWidth
  {
    LayoutFollowsVisibleOrder(env, root, 0.0, 0.0, 0);
  }

  /**
   * With all ids distinct, a node below a collapsed node has no rectangle in
   * the scene and no connector starts or ends at it.
   */
  lemma SceneHidesCollapsedSubtrees(env: Env, root: Node, c: Node, d: Node)
    requires AllDistinct(Ids(root))
    requires c in PreOrder(root) && c.id in env.collapsed
    requires d in PreOrderAll(c.children)
    ensures forall i :: 0 <= i < |LayoutScene(env, root).nodes| ==> LayoutScene(env, root).nodes[i].id != d.id
    ensures forall j :: 0 <= j < |LayoutScene(env, root).connectors| ==>
      LayoutScene(env, root).connectors[j].fromNodeId != d.id && LayoutScene(env, root).connectors[j].toNodeId != d.id
  {
    var s := LayoutScene(env, root);
    var vs := VisibleOrder(env.collapsed, root);
    LayoutFollowsVisibleOrder(env, root, 0.0, 0.0, 0);
    CollapsedHidesDescendants(env.collapsed, root, c, d);
    forall i | 0 <= i < |s.nodes| ensures s.nodes[i].id != d.id {
      assert s.nodes[i].id == vs[i].id == IdsOf(vs)[i];
    }
    ConnectorsJoinParentAndChild(env, root, 0.0, 0.0, 0);
    forall j | 0 <= j < |s.connectors| ensures s.connectors[j].fromNodeId != d.id && s.connectors[j].toNodeId != d.id {
      assert Joins(s.nodes, vs, s.connectors[j], env.config.spacing.horizontal);
    }
  }

  // ----- getConnectorPath -----------------------------------------------------

  datatype Point = Point(x: real, y: real)

  /** The cubic Bezier curve `M start C control1, control2, end` of an SVG path. */
  datatype PathGeometry = PathGeometry(start: Point, control1: Point, control2: Point, end: Point)

  /** `config.curvature || 0.3`: an absent or zero curvature gives 0.3. */
  function Curvature(config: LayoutConfig): (c: real)
    ensures config.curvature.Some? && config.curvature.value != 0.0 ==> c == config.curvature.value
    ensures config.curvature.None? || config.curvature.value == 0.0 ==> c == 0.3
  {
    if config.curvature.Some? && config.curvature.value != 0.0 then config.curvature.value else 0.3
  }

  /**
   * getConnectorPath(from, to, config): a curve from the middle of the right
   * edge of `from` to the middle of the left edge of `to`, leaving and
   * arriving horizontally, each control point pulled a fraction `c` of the
   * horizontal span towards the other end.
   */
  function ConnectorPath(from: PositionedNode, to: PositionedNode, config: LayoutConfig): (g: PathGeometry)
    ensures g.start == Point(from.x + from.width, from.y + from.height / 2.0)
    ensures g.end == Point(to.x, to.y + to.height / 2.0)
    ensures g.control1.y == g.start.y && g.control2.y == g.end.y
    ensures g.control1.x - g.start.x == g.end.x - g.control2.x == (g.end.x - g.start.x) * Curvature(config)
    ensures g.control1.x + g.control2.x == g.start.x + g.end.x
  {
    var dx := to.x - (from.x + from.width);
    var c := Curvature(config);
    var x1 := from.x + from.width;
    var y1 := from.y + from.height / 2.0;
    var x2 := to.x;
    var y2 := to.y + to.height / 2.0;
    PathGeometry(Point(x1, y1), Point(x1 + dx * c, y1), Point(x2 - dx * c, y2), Point(x2, y2))
  }

  /**
   * With a curvature between 0 and 1 and `to` to the right of `from`, both
   * control points lie within the horizontal span of the curve.
   */
  lemma {:induction false} ControlPointsWithinSpan(from: PositionedNode, to: PositionedNode, config: LayoutConfig)
    requires 0.0 <= Curvature(config) <= 1.0
    requires from.x + from.width <= to.x
    ensures var g := ConnectorPath(from, to, config);
      && g.start.x <= g.control1.x <= g.end.x
      && g.start.x <= g.control2.x <= g.end.x
  {
    var g := ConnectorPath(from, to, config);
    var e := ProductBounds(Curvature(config), g.end.x - g.start.x);
    assert g.control1.x == g.start.x + e && g.control2.x == g.end.x - e;
  }

  /** For `0 <= c <= 1` and `0 <= dx`, `dx * c` lies between 0 and `dx`. */
  lemma ProductBounds(c: real, dx: real) returns (e: real)
    requires 0.0 <= c <= 1.0 && 0.0 <= dx
    ensures e == dx * c && 0.0 <= e <= dx
  {
    e := dx * c;
    MulNonNegative(dx, c);
    MulNonNegative(dx, 1.0 - c);
    assert dx * (1.0 - c) == dx - dx * c;
  }

  lemma MulNonNegative(a: real, b: real)
    requires 0.0 <= a && 0.0 <= b
    ensures 0.0 <= a * b
  {
  }

  /**
   * Between a parent and a child placed by the layout, the horizontal span
   * of the connector is the horizontal spacing, so each control point sits
   * `c` times that spacing in from its end.
   */
  lemma {:induction false} ConnectorSpanIsSpacing(from: PositionedNode, to: PositionedNode, config: LayoutConfig)
    requires to.x == from.x + from.width + config.spacing.horizontal
    ensures ConnectorPath(from, to, config).end.x - ConnectorPath(from, to, config).start.x == config.spacing.horizontal
    ensures ConnectorPath(from, to, config).control1.x == from.x + from.width + Curvature(config) * config.spacing.horizontal
    ensures ConnectorPath(from, to, config).control2.x == to.x - Curvature(config) * config.spacing.horizontal
  {
  }

  // ----- the layoutNode closure -----------------------------------------------

  /**
   * The state layoutNode shares across its recursive calls: the `nodes` and
   * `links` arrays and the four fields of the `bounds` object.
   */
  class SceneBuilder {
    const env: Env
    var nodes: seq<PositionedNode>
    var links: seq<Connector>
    var minX: real
    var minY: real
    var maxX: real
    var maxY: real

    function CurrentBounds(): Bounds
      reads this
    {
      Bounds(minX, minY, maxX, maxY)
    }

    /** The arrays start empty and the bounds at all zeroes. */
    constructor (env: Env)
      ensures this.env == env
      ensures nodes == [] && links == [] && CurrentBounds() == Bounds(0.0, 0.0, 0.0, 0.0)
    {
      this.env := env;
      nodes := [];
      links := [];
      minX, minY, maxX, maxY := 0.0, 0.0, 0.0, 0.0;
    }

    /**
     * layoutNode(node, x, y, depth): appends what LayoutTree says and widens
     * the bounds by exactly those rectangles.
     */
    method LayoutNode(node: Node, x: real, y: real, depth: nat)
      modifies this
      ensures nodes == old(nodes) + LayoutTree(env, node, x, y, depth).0
      ensures links == old(links) + LayoutTree(env, node, x, y, depth).1
      ensures CurrentBounds() == ExtendAll(old(CurrentBounds()), LayoutTree(env, node, x, y, depth).0)
      decreases node, 1
    {
      var size := MeasureNode(env.measure, node.text, env.config, env.theme);
      var isCollapsed := node.id in env.collapsed;
      var p := PositionedNode(node.id, node.id, x, y, size.width, size.height, node.text, ClassId(node),
        isCollapsed, HasNotes(node), |node.children| > 0, depth);
      assert p == Place(env, node, x, y, depth);
      ghost var nodes0, b0 := nodes, CurrentBounds();
      nodes := nodes + [p];
      minX := Min(minX, x);
      minY := Min(minY, y);
      maxX := Max(maxX, x + size.width);
      maxY := Max(maxY, y + size.height);
      ExtendAllSingle(b0, p);
      if !isCollapsed {
        ghost var kids := LayoutKids(env, node, x, y, depth, |node.children|);
        LayoutChildren(node, x, y, depth, size);
        Assoc(nodes0, [p], kids.0);
        ExtendAllConcat(b0, [p], kids.0);
      }
    }

    /**
     * The `node.children.forEach` loop of layoutNode, with `childY` advanced
     * by one step per child; `size` is the size measured for `node`.
     */
    method LayoutChildren(node: Node, x: real, y: real, depth: nat, size: Size)
      requires size == SizeOf(env, node)
      modifies this
      ensures nodes == old(nodes) + LayoutKids(env, node, x, y, depth, |node.children|).0
      ensures links == old(links) + LayoutKids(env, node, x, y, depth, |node.children|).1
      ensures CurrentBounds() == ExtendAll(old(CurrentBounds()), LayoutKids(env, node, x, y, depth, |node.children|).0)
      decreases node, 0
    {
      var cs := node.children;
      var childY := y - ((|cs| - 1) as real * (size.height + env.config.spacing.vertical)) / 2.0;
      var i := 0;
      ChildYSteps(env, node, y, 0);
      EmptyRight(nodes);
      EmptyRight(links);
      while i < |cs|
        invariant 0 <= i <= |cs|
        invariant childY == ChildY(env, node, y, i)
        invariant nodes == old(nodes) + LayoutKids(env, node, x, y, depth, i).0
        invariant links == old(links) + LayoutKids(env, node, x, y, depth, i).1
        invariant CurrentBounds() == ExtendAll(old(CurrentBounds()), LayoutKids(env, node, x, y, depth, i).0)
      {
        var childX := x + size.width + env.config.spacing.horizontal;
        var link := Connector(node.id, cs[i].id);
        KidsStep(env, node, x, y, depth, i, old(nodes), old(links), old(CurrentBounds()));
        LayoutNode(cs[i], childX, childY, depth + 1);
        links := links + [link];
        childY := childY + (size.height + env.config.spacing.vertical);
        ChildYSteps(env, node, y, i);
        i := i + 1;
      }
    }
  }

  // ----- the LayoutEngine class -----------------------------------------------

  /** A layout engine: the document, configuration, theme and collapsed ids it was built with. */
  class LayoutEngine {
    const rootNode: Node
    const layoutConfig: LayoutConfig
    const theme: Theme
    const collapsedNodes: set<string>
    const measure: Measurer

    /** An absent configuration becomes DefaultLayoutConfig, an absent collapsed set the empty set. */
    constructor (rootNode: Node, layoutConfig: Option<LayoutConfig>, theme: Theme, collapsedNodes: Option<set<string>>, measure: Measurer)
      ensures this.rootNode == rootNode && this.theme == theme && this.measure == measure
      ensures this.layoutConfig == layoutConfig.GetOr(DefaultLayoutConfig)
      ensures this.collapsedNodes == collapsedNodes.GetOr({})
    {
      this.rootNode := rootNode;
      this.layoutConfig := layoutConfig.GetOr(DefaultLayoutConfig);
      this.theme := theme;
      this.collapsedNodes := collapsedNodes.GetOr({});
      this.measure := measure;
    }

    /**
     * layout(rootNode, config, theme, collapsed): each absent argument is the
     * engine's own; the result is LayoutScene of the chosen inputs, so equal
     * inputs give equal scenes.
     */
    method Layout(rootNode: Option<Node>, config: Option<LayoutConfig>, theme: Option<Theme>, collapsed: Option<set<string>>)
      returns (scene: Scene)
      ensures scene == LayoutScene(
        Env(config.GetOr(layoutConfig), theme.GetOr(this.theme), collapsed.GetOr(collapsedNodes), measure),
        rootNode.GetOr(this.rootNode))
    {
      var env := Env(config.GetOr(layoutConfig), theme.GetOr(this.theme), collapsed.GetOr(collapsedNodes), measure);
      var builder := new SceneBuilder(env);
      builder.LayoutNode(rootNode.GetOr(this.rootNode), 0.0, 0.0, 0);
      scene := Scene(builder.nodes, builder.links, builder.CurrentBounds());
    }

    /** measureNode(text, config, theme), each absent argument being the engine's own. */
    function MeasureText(text: string, config: Option<LayoutConfig>, theme: Option<Theme>): (s: Size)
      reads this
      ensures s == MeasureNode(measure, text, config.GetOr(layoutConfig), theme.GetOr(this.theme))
      ensures s.height == theme.GetOr(this.theme).font.lineHeight + 2.0 * theme.GetOr(this.theme).font.paddingY
      ensures var c := config.GetOr(layoutConfig);
        && s.width <= c.maxTextWidth
        && (c.minTextWidth <= c.maxTextWidth ==> c.minTextWidth <= s.width)
    {
      MeasureNode(measure, text, config.GetOr(layoutConfig), theme.GetOr(this.theme))
    }
  }
}
