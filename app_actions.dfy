/**
 * The document actions the editor registers with the runtime: the generic
 * property setter updateNodeProperty and its aliases setText, setNotes and
 * setClass, addChild and removeNode.
 *
 * Each action deep-copies the document and edits the copy in place, walking
 * the tree with a short-circuiting `some`. The walks are given twice: as
 * functions (the handlers the runtime calls are built from them) and as
 * methods with the loops of the source, proved to compute the same trees.
 */
module AppActions {
  import opened Wrappers
  import opened DocTree
  import opened Runtime
  import opened Seqs

  // ----- parameters ---------------------------------------------------------

  /** The properties updateNodeProperty can set. */
  datatype Prop = Text | Notes | Class

  /** The fields of addChild's params other than parentId and text. */
  datatype NodeData = NodeData(
    id: Option<string>,
    classTag: Option<string>,
    notes: Option<string>,
    children: seq<Node>,
    extra: map<string, Json>)

  /**
   * The params of each action. addChild's `text` (here `childText`) is optional; `freshId` is the
   * id that `node-<time>-<random>` would produce at the moment of the call.
   */
  datatype Params =
    | PropertyParams(nodeId: string, property: Prop, value: string)
    | TextParams(nodeId: string, text: string)
    | NotesParams(nodeId: string, notes: string)
    | ClassParams(nodeId: string, classTag: string)
    | AddChildParams(parentId: string, childText: Option<string>, nodeData: NodeData, freshId: string)
    | RemoveParams(nodeId: string)

  /** The text of a child added without one. */
  const DefaultText: string := "New Node"

  /** The class of a child created with a generated id. */
  const DefaultClass: string := "default"

  /** The layout fields addChild drops from the node data. */
  const PositionFields: set<string> := {"x", "y", "width", "height"}

  // ----- updateNodeProperty ------------------------------------------------

  /** `node[property] = value`. */
  function SetProp(n: Node, property: Prop, value: string): (r: Node)
    ensures r.id == n.id && r.children == n.children && r.extra == n.extra
    ensures r.text == (if property == Text then value else n.text)
    ensures r.notes == (if property == Notes then Some(value) else n.notes)
    ensures r.classTag == (if property == Class then Some(value) else n.classTag)
  {
    match property
    case Text => n.(text := value)
    case Notes => n.(notes := Some(value))
    case Class => n.(classTag := Some(value))
  }


  /** findAndUpdate: the edited tree and whether some node matched. */
  function UpdateFirst(n: Node, nodeId: string, property: Prop, value: string): (r: (Node, bool))
    ensures !r.1 ==> r.0 == n
    ensures r.0.id == n.id
    decreases n, 1
  {
    if n.id == nodeId then
      (SetProp(n, property, value), true)
    else
      var (cs, found) := UpdateAmong(n.children, nodeId, property, value);
      (n.(children := cs), found)
  }

  /** `node.children.some(findAndUpdate)`: stops at the first child whose subtree matched. */
  function UpdateAmong(cs: seq<Node>, nodeId: string, property: Prop, value: string): (r: (seq<Node>, bool))
    ensures !r.1 ==> r.0 == cs
    ensures |r.0| == |cs|
    decreases cs, 0
  {
    if cs == [] then ([], false)
    else
      var (c, found) := UpdateFirst(cs[0], nodeId, property, value);
      if found then
        ([c] + cs[1..], true)
      else
        var (rest, foundLater) := UpdateAmong(cs[1..], nodeId, property, value);
        ([c] + rest, foundLater)
  }

  /** The walk reports a match exactly when some node of the tree has the id. */
  lemma {:induction false} UpdateFoundIff(n: Node, nodeId: string, property: Prop, value: string)
    ensures UpdateFirst(n, nodeId, property, value).1 <==> nodeId in Ids(n)
    decreases n, 1
  {
    IdsUnfold(n);
    if n.id != nodeId {
      UpdateAmongFoundIff(n.children, nodeId, property, value);
    }
  }

  lemma {:induction false} UpdateAmongFoundIff(cs: seq<Node>, nodeId: string, property: Prop, value: string)
    ensures UpdateAmong(cs, nodeId, property, value).1 <==> nodeId in IdsOf(PreOrderAll(cs))
    decreases cs, 0
  {
    if cs != [] {
      IdsOfConcat(PreOrder(cs[0]), PreOrderAll(cs[1..]));
      UpdateFoundIff(cs[0], nodeId, property, value);
      UpdateAmongFoundIff(cs[1..], nodeId, property, value);
    }
  }

  /**
   * One turn of the `some` loop over `cs`: with the children before `i`
   * unmatched, the walk of `cs` is the walk of `cs[i..]` behind them; a match
   * at `cs[i]` ends it with `cs[i]` replaced, a miss moves on to `cs[i + 1..]`.
   */
  lemma {:induction false} UpdateAmongStep(cs: seq<Node>, i: nat, nodeId: string, property: Prop, value: string, c: Node, f: bool)
    requires i < |cs| && (c, f) == UpdateFirst(cs[i], nodeId, property, value)
    requires UpdateAmong(cs, nodeId, property, value) == (cs[..i] + UpdateAmong(cs[i..], nodeId, property, value).0, UpdateAmong(cs[i..], nodeId, property, value).1)
    ensures f ==> UpdateAmong(cs, nodeId, property, value) == (cs[i := c], true)
    ensures !f ==> UpdateAmong(cs, nodeId, property, value) == (cs[..i + 1] + UpdateAmong(cs[i + 1..], nodeId, property, value).0, UpdateAmong(cs[i + 1..], nodeId, property, value).1)
  {
    SpliceAt(cs, i, c);
    var s := cs[i..];
    assert s[0] == cs[i];
    if f {
      UpdateAmongHitUnfold(s, nodeId, property, value);
    } else {
      UpdateAmongMissUnfold(s, nodeId, property, value);
      Assoc(cs[..i], [cs[i]], UpdateAmong(cs[i + 1..], nodeId, property, value).0);
    }
  }

  /** The walk over siblings when the first one's subtree holds the match. */
  lemma UpdateAmongHitUnfold(cs: seq<Node>, nodeId: string, property: Prop, value: string)
    requires cs != [] && UpdateFirst(cs[0], nodeId, property, value).1
    ensures UpdateAmong(cs, nodeId, property, value) == ([UpdateFirst(cs[0], nodeId, property, value).0] + cs[1..], true)
  {
  }

  /** The walk over siblings when the first one's subtree has no match. */
  lemma UpdateAmongMissUnfold(cs: seq<Node>, nodeId: string, property: Prop, value: string)
    requires cs != [] && !UpdateFirst(cs[0], nodeId, property, value).1
    ensures UpdateAmong(cs, nodeId, property, value)
      == ([cs[0]] + UpdateAmong(cs[1..], nodeId, property, value).0, UpdateAmong(cs[1..], nodeId, property, value).1)
  {
  }

  /** findAndUpdate as the source runs it: the `some` loop over the children. */
  method FindAndUpdate(node: Node, nodeId: string, property: Prop, value: string) returns (r: Node, found: bool)
    ensures (r, found) == UpdateFirst(node, nodeId, property, value)
    decreases node, 1
  {
    if node.id == nodeId {
      r := SetProp(node, property, value);
      return r, true;
    }
    var children;
    children, found := SomeFindAndUpdate(node.children, nodeId, property, value);
    r := node.(children := children);
  }

  /** `children.some(findAndUpdate)`: walk the children in order until one subtree matched. */
  method SomeFindAndUpdate(cs: seq<Node>, nodeId: string, property: Prop, value: string) returns (children: seq<Node>, found: bool)
    ensures (children, found) == UpdateAmong(cs, nodeId, property, value)
    decreases cs, 0
  {
    var i := 0;
    SliceEnds(cs);
    assert [] + UpdateAmong(cs, nodeId, property, value).0 == UpdateAmong(cs, nodeId, property, value).0;
    while i < |cs|
      invariant 0 <= i <= |cs|
      invariant UpdateAmong(cs, nodeId, property, value) == (cs[..i] + UpdateAmong(cs[i..], nodeId, property, value).0, UpdateAmong(cs[i..], nodeId, property, value).1)
    {
      var c, f := FindAndUpdate(cs[i], nodeId, property, value);
      UpdateAmongStep(cs, i, nodeId, property, value, c, f);
      if f {
        return cs[i := c], true;
      }
      i := i + 1;
    }
    EmptyRight(cs);
    return cs, false;
  }

  /** updateNodeProperty: set the property on the first pre-order node with the id. */
  function UpdateNodeProperty(state: Node, params: Params): (r: Option<Node>)
    ensures r.Some? && r.value.id == state.id
    ensures !params.PropertyParams? ==> r.value == state
    ensures params.PropertyParams? && params.nodeId !in Ids(state) ==> r.value == state
    ensures params.PropertyParams? && params.nodeId in Ids(state) ==>
      FindNode(r.value, params.nodeId)
        == Some(SetProp(FindNode(state, params.nodeId).value, params.property, params.value))
  {
    match params
    case PropertyParams(nodeId, property, value) =>
      UpdateFoundIff(state, nodeId, property, value);
      UpdateSetsFirstMatch(state, nodeId, property, value);
      Some(UpdateFirst(state, nodeId, property, value).0)
    case _ => Some(state)
  }

  /** setText: updateNodeProperty with property `text` and the value of `text`. */
  function SetText(state: Node, params: Params): (r: Option<Node>)
    ensures params.TextParams? ==>
      r == UpdateNodeProperty(state, PropertyParams(params.nodeId, Text, params.text))
    ensures params.TextParams? && params.nodeId in Ids(state) ==>
      FindNode(r.value, params.nodeId).value.text == params.text
    ensures !params.TextParams? ==> r == Some(state)
  {
    match params
    case TextParams(nodeId, text) => UpdateNodeProperty(state, PropertyParams(nodeId, Text, text))
    case _ => Some(state)
  }

  /** setNotes: updateNodeProperty with property `notes` and the value of `notes`. */
  function SetNotes(state: Node, params: Params): (r: Option<Node>)
    ensures params.NotesParams? ==>
      r == UpdateNodeProperty(state, PropertyParams(params.nodeId, Notes, params.notes))
    ensures params.NotesParams? && params.nodeId in Ids(state) ==>
      FindNode(r.value, params.nodeId).value.notes == Some(params.notes)
    ensures !params.NotesParams? ==> r == Some(state)
  {
    match params
    case NotesParams(nodeId, notes) => UpdateNodeProperty(state, PropertyParams(nodeId, Notes, notes))
    case _ => Some(state)
  }

  /** setClass: updateNodeProperty with property `class` and the value of `class`. */
  function SetClass(state: Node, params: Params): (r: Option<Node>)
    ensures params.ClassParams? ==>
      r == UpdateNodeProperty(state, PropertyParams(params.nodeId, Class, params.classTag))
    ensures params.ClassParams? && params.nodeId in Ids(state) ==>
      FindNode(r.value, params.nodeId).value.classTag == Some(params.classTag)
    ensures !params.ClassParams? ==> r == Some(state)
  {
    match params
    case ClassParams(nodeId, classTag) => UpdateNodeProperty(state, PropertyParams(nodeId, Class, classTag))
    case _ => Some(state)
  }

  /** After updateNodeProperty's walk, findNode returns the old match with the property set. */
  lemma {:induction false} UpdateSetsFirstMatch(n: Node, nodeId: string, property: Prop, value: string)
    ensures nodeId in Ids(n) ==>
      FindNode(UpdateFirst(n, nodeId, property, value).0, nodeId)
        == Some(SetProp(FindNode(n, nodeId).value, property, value))
    decreases n, 1
  {
    if n.id != nodeId && nodeId in Ids(n) {
      IdsUnfold(n);
      UpdateAmongSetsFirstMatch(n.children, nodeId, property, value);
    }
  }

  lemma {:induction false} UpdateAmongSetsFirstMatch(cs: seq<Node>, nodeId: string, property: Prop, value: string)
    ensures nodeId in IdsOf(PreOrderAll(cs)) ==>
      FindAmong(UpdateAmong(cs, nodeId, property, value).0, nodeId)
        == Some(SetProp(FindAmong(cs, nodeId).value, property, value))
    decreases cs, 0
  {
    if cs != [] && nodeId in IdsOf(PreOrderAll(cs)) {
      IdsOfConcat(PreOrder(cs[0]), PreOrderAll(cs[1..]));
      var u := UpdateFirst(cs[0], nodeId, property, value);
      var out := UpdateAmong(cs, nodeId, property, value).0;
      UpdateFoundIff(cs[0], nodeId, property, value);
      if u.1 {
        UpdateSetsFirstMatch(cs[0], nodeId, property, value);
        assert out == [u.0] + cs[1..];
        assert out[0] == u.0;
      } else {
        var rest := UpdateAmong(cs[1..], nodeId, property, value).0;
        UpdateAmongSetsFirstMatch(cs[1..], nodeId, property, value);
        assert out == [cs[0]] + rest;
        assert out[0] == cs[0] && out[1..] == rest;
      }
    }
  }

  /**
   * updateNodeProperty changes only the first pre-order node with the id: in
   * the pre-order sequence of own fields exactly that position is updated.
   */
  lemma {:induction false} UpdateChangesOnlyFirstMatch(n: Node, nodeId: string, property: Prop, value: string)
    requires nodeId in Ids(n)
    ensures var k := IndexOf(Ids(n), nodeId);
      Labels(UpdateFirst(n, nodeId, property, value).0)
        == Labels(n)[k := SetProp(Labels(n)[k], property, value)]
    decreases n, 2
  {
    var r := UpdateFirst(n, nodeId, property, value).0;
    var below := LabelsOf(PreOrderAll(n.children));
    LabelsUnfold(n);
    LabelsUnfold(r);
    IdsUnfold(n);
    if n.id == nodeId {
      assert IndexOf(Ids(n), nodeId) == 0;
      var v := SetProp(Label(n), property, value);
      PutAtHead(Label(n), below, v);
      assert Labels(r) == [v] + below;
    } else {
      var cs := UpdateAmong(n.children, nodeId, property, value).0;
      assert r == n.(children := cs);
      assert nodeId in IdsOf(PreOrderAll(n.children));
      var k := IndexOf(IdsOf(PreOrderAll(n.children)), nodeId);
      assert IndexOf(Ids(n), nodeId) == 1 + k by {
        IndexOfConcat([n.id], IdsOf(PreOrderAll(n.children)), nodeId);
      }
      var v := SetProp(below[k], property, value);
      assert LabelsOf(PreOrderAll(cs)) == below[k := v] by {
        UpdateAmongChangesOnlyFirstMatch(n.children, nodeId, property, value);
      }
      PutBehindHead(Label(n), below, k, v);
      assert Labels(r) == [Label(n)] + below[k := v];
    }
  }

  lemma {:induction false} UpdateAmongChangesOnlyFirstMatch(cs: seq<Node>, nodeId: string, property: Prop, value: string)
    requires nodeId in IdsOf(PreOrderAll(cs))
    ensures var k := IndexOf(IdsOf(PreOrderAll(cs)), nodeId);
      LabelsOf(PreOrderAll(UpdateAmong(cs, nodeId, property, value).0))
        == LabelsOf(PreOrderAll(cs))[k := SetProp(LabelsOf(PreOrderAll(cs))[k], property, value)]
    decreases cs, 1
  {
    IdsOfConcat(PreOrder(cs[0]), PreOrderAll(cs[1..]));
    UpdateFoundIff(cs[0], nodeId, property, value);
    if nodeId in Ids(cs[0]) {
      UpdateHitChangesOnlyFirstMatch(cs, nodeId, property, value);
    } else {
      UpdateMissChangesOnlyFirstMatch(cs, nodeId, property, value);
    }
  }

  /** The match lies in the first sibling's subtree. */
  lemma {:induction false} UpdateHitChangesOnlyFirstMatch(cs: seq<Node>, nodeId: string, property: Prop, value: string)
    requires cs != [] && nodeId in Ids(cs[0]) && nodeId in IdsOf(PreOrderAll(cs))
    ensures var k := IndexOf(IdsOf(PreOrderAll(cs)), nodeId);
      LabelsOf(PreOrderAll(UpdateAmong(cs, nodeId, property, value).0))
        == LabelsOf(PreOrderAll(cs))[k := SetProp(LabelsOf(PreOrderAll(cs))[k], property, value)]
    decreases cs, 0
  {
    var a := PreOrder(cs[0]);
    var b := PreOrderAll(cs[1..]);
    var u := UpdateFirst(cs[0], nodeId, property, value);
    UpdateFoundIff(cs[0], nodeId, property, value);
    assert UpdateAmong(cs, nodeId, property, value).0 == [u.0] + cs[1..];
    PreOrderAllCons(u.0, cs[1..]);
    assert PreOrderAll(cs) == a + b;
    IdsOfConcat(a, b);
    IndexOfConcat(IdsOf(a), IdsOf(b), nodeId);
    var k := IndexOf(IdsOf(a), nodeId);
    assert IndexOf(IdsOf(PreOrderAll(cs)), nodeId) == k;
    UpdateChangesOnlyFirstMatch(cs[0], nodeId, property, value);
    LabelsOfConcat(a, b);
    LabelsOfConcat(PreOrder(u.0), b);
    PutInConcat(LabelsOf(a), LabelsOf(b), k, SetProp(LabelsOf(a)[k], property, value));
  }

  /** The first sibling's subtree has no match: the walk goes on to the rest. */
  lemma {:induction false} UpdateMissChangesOnlyFirstMatch(cs: seq<Node>, nodeId: string, property: Prop, value: string)
    requires cs != [] && nodeId !in Ids(cs[0]) && nodeId in IdsOf(PreOrderAll(cs))
    ensures var k := IndexOf(IdsOf(PreOrderAll(cs)), nodeId);
      LabelsOf(PreOrderAll(UpdateAmong(cs, nodeId, property, value).0))
        == LabelsOf(PreOrderAll(cs))[k := SetProp(LabelsOf(PreOrderAll(cs))[k], property, value)]
    decreases cs, 0
  {
    var a := PreOrder(cs[0]);
    var b := PreOrderAll(cs[1..]);
    var rest := UpdateAmong(cs[1..], nodeId, property, value).0;
    assert PreOrderAll(cs) == a + b;
    assert nodeId in IdsOf(b) by {
      IdsOfConcat(a, b);
    }
    var k := IndexOf(IdsOf(b), nodeId);
    var la, lb := LabelsOf(a), LabelsOf(b);
    var kk := IndexOf(IdsOf(PreOrderAll(cs)), nodeId);
    assert kk == |la| + k by {
      IdsOfConcat(a, b);
      IndexOfConcat(IdsOf(a), IdsOf(b), nodeId);
    }
    var after := LabelsOf(PreOrderAll(UpdateAmong(cs, nodeId, property, value).0));
    assert after == la + LabelsOf(PreOrderAll(rest)) by {
      UpdateFoundIff(cs[0], nodeId, property, value);
      assert UpdateAmong(cs, nodeId, property, value).0 == [cs[0]] + rest;
      PreOrderAllCons(cs[0], rest);
      LabelsOfConcat(a, PreOrderAll(rest));
    }
    assert LabelsOf(PreOrderAll(rest)) == LabelsOf(b)[k := SetProp(LabelsOf(b)[k], property, value)] by {
      UpdateAmongChangesOnlyFirstMatch(cs[1..], nodeId, property, value);
    }
    var v := SetProp(lb[k], property, value);
    var whole := LabelsOf(PreOrderAll(cs));
    assert whole == la + lb by {
      LabelsOfConcat(a, b);
    }
    PutBehind(la, lb, k, v);
    assert after == whole[kk := SetProp(whole[kk], property, value)];
  }

  /** updateNodeProperty keeps the tree's shape: every node keeps its number of children. */
  lemma {:induction false} UpdateKeepsShape(n: Node, nodeId: string, property: Prop, value: string)
    ensures Shape(UpdateFirst(n, nodeId, property, value).0) == Shape(n)
    decreases n, 1
  {
    var r := UpdateFirst(n, nodeId, property, value).0;
    ShapeUnfold(n);
    ShapeUnfold(r);
    if n.id != nodeId {
      UpdateAmongKeepsShape(n.children, nodeId, property, value);
    }
  }

  lemma {:induction false} UpdateAmongKeepsShape(cs: seq<Node>, nodeId: string, property: Prop, value: string)
    ensures ShapeOf(PreOrderAll(UpdateAmong(cs, nodeId, property, value).0)) == ShapeOf(PreOrderAll(cs))
    decreases cs, 0
  {
    if cs != [] {
      var u := UpdateFirst(cs[0], nodeId, property, value);
      var b := PreOrderAll(cs[1..]);
      UpdateKeepsShape(cs[0], nodeId, property, value);
      PreOrderAllCons(cs[0], cs[1..]);
      ShapeOfConcat(PreOrder(cs[0]), b);
      if u.1 {
        UpdateAmongHitUnfold(cs, nodeId, property, value);
        PreOrderAllCons(u.0, cs[1..]);
        ShapeOfConcat(PreOrder(u.0), b);
      } else {
        var rest := UpdateAmong(cs[1..], nodeId, property, value).0;
        UpdateAmongMissUnfold(cs, nodeId, property, value);
        UpdateAmongKeepsShape(cs[1..], nodeId, property, value);
        PreOrderAllCons(cs[0], rest);
        ShapeOfConcat(PreOrder(cs[0]), PreOrderAll(rest));
      }
    }
  }

  // ----- addChild -----------------------------------------------------------

  /** `nodeData.id` is truthy: present and not the empty string. */
  predicate HasId(data: NodeData) {
    data.id.Some? && data.id.value != ""
  }

  /**
   * The child addChild pushes: the node data with its layout fields dropped
   * when it carries an id, and otherwise a bare node with the generated id.
   */
  function NewChild(text: string, data: NodeData, freshId: string): (c: Node)
    ensures c.text == text && c.extra.Keys !! PositionFields
    ensures HasId(data) ==>
      && c.id == data.id.value
      && c.classTag == data.classTag && c.notes == data.notes && c.children == data.children
      && c.extra.Keys == data.extra.Keys - PositionFields
      && forall k :: k in c.extra ==> c.extra[k] == data.extra[k]
    ensures !HasId(data) ==>
      && c.id == freshId && c.classTag == Some(DefaultClass)
      && c.notes == None && c.children == [] && c.extra == map[]
  {
    if HasId(data) then
      Node(data.id.value, text, data.classTag, data.notes, data.children, data.extra - PositionFields)
    else
      Node(freshId, text, Some(DefaultClass), None, [], map[])
  }

  /** findAndAdd: the tree with `child` appended to the first pre-order node with id `parentId`. */
  function AddFirst(n: Node, parentId: string, child: Node): (r: (Node, bool))
    ensures !r.1 ==> r.0 == n
    ensures r.0.id == n.id
    decreases n, 1
  {
    if n.id == parentId then (n.(children := n.children + [child]), true)
    else
      var (cs, found) := AddAmong(n.children, parentId, child);
      (n.(children := cs), found)
  }

  /** `node.children.some(findAndAdd)`. */
  function AddAmong(cs: seq<Node>, parentId: string, child: Node): (r: (seq<Node>, bool))
    ensures !r.1 ==> r.0 == cs
    ensures |r.0| == |cs|
    decreases cs, 0
  {
    if cs == [] then ([], false)
    else
      var (c, found) := AddFirst(cs[0], parentId, child);
      if found then ([c] + cs[1..], true)
      else
        var (rest, foundLater) := AddAmong(cs[1..], parentId, child);
        ([c] + rest, foundLater)
  }

  /** The walk reports a match exactly when some node of the tree has the id. */
  lemma {:induction false} AddFoundIff(n: Node, parentId: string, child: Node)
    ensures AddFirst(n, parentId, child).1 <==> parentId in Ids(n)
    decreases n, 1
  {
    IdsUnfold(n);
    if n.id != parentId {
      AddAmongFoundIff(n.children, parentId, child);
    }
  }

  lemma {:induction false} AddAmongFoundIff(cs: seq<Node>, parentId: string, child: Node)
    ensures AddAmong(cs, parentId, child).1 <==> parentId in IdsOf(PreOrderAll(cs))
    decreases cs, 0
  {
    if cs != [] {
      IdsOfConcat(PreOrder(cs[0]), PreOrderAll(cs[1..]));
      AddFoundIff(cs[0], parentId, child);
      AddAmongFoundIff(cs[1..], parentId, child);
    }
  }

  /** One turn of findAndAdd's `some` loop, as for updateNodeProperty. */
  lemma {:induction false} AddAmongStep(cs: seq<Node>, i: nat, parentId: string, child: Node, c: Node, f: bool)
    requires i < |cs| && (c, f) == AddFirst(cs[i], parentId, child)
    requires AddAmong(cs, parentId, child) == (cs[..i] + AddAmong(cs[i..], parentId, child).0, AddAmong(cs[i..], parentId, child).1)
    ensures f ==> AddAmong(cs, parentId, child) == (cs[i := c], true)
    ensures !f ==> AddAmong(cs, parentId, child) == (cs[..i + 1] + AddAmong(cs[i + 1..], parentId, child).0, AddAmong(cs[i + 1..], parentId, child).1)
  {
    SpliceAt(cs, i, c);
    var s := cs[i..];
    assert s[0] == cs[i];
    if f {
      AddAmongHitUnfold(s, parentId, child);
    } else {
      AddAmongMissUnfold(s, parentId, child);
      Assoc(cs[..i], [cs[i]], AddAmong(cs[i + 1..], parentId, child).0);
    }
  }

  /** findAndAdd as the source runs it: `children.push` on a match, else the `some` loop. */
  method FindAndAdd(node: Node, parentId: string, child: Node) returns (r: Node, found: bool)
    ensures (r, found) == AddFirst(node, parentId, child)
    decreases node, 1
  {
    if node.id == parentId {
      var children := node.children;
      children := children + [child];
      return node.(children := children), true;
    }
    var children;
    children, found := SomeFindAndAdd(node.children, parentId, child);
    r := node.(children := children);
  }

  /** `children.some(findAndAdd)`: walk the children in order until one subtree held the parent. */
  method SomeFindAndAdd(cs: seq<Node>, parentId: string, child: Node) returns (children: seq<Node>, found: bool)
    ensures (children, found) == AddAmong(cs, parentId, child)
    decreases cs, 0
  {
    var i := 0;
    SliceEnds(cs);
    assert [] + AddAmong(cs, parentId, child).0 == AddAmong(cs, parentId, child).0;
    while i < |cs|
      invariant 0 <= i <= |cs|
      invariant AddAmong(cs, parentId, child) == (cs[..i] + AddAmong(cs[i..], parentId, child).0, AddAmong(cs[i..], parentId, child).1)
    {
      var c, f := FindAndAdd(cs[i], parentId, child);
      AddAmongStep(cs, i, parentId, child, c, f);
      if f {
        return cs[i := c], true;
      }
      i := i + 1;
    }
    EmptyRight(cs);
    return cs, false;
  }

  /** The child addChild would insert for these params. */
  function ChildFor(params: Params): Node
    requires params.AddChildParams?
  {
    NewChild(params.childText.GetOr(DefaultText), params.nodeData, params.freshId)
  }

  /** addChild: append the new child to the first pre-order node with id `parentId`. */
  function AddChild(state: Node, params: Params): (r: Option<Node>)
    ensures r.Some? && r.value.id == state.id
    ensures !params.AddChildParams? ==> r.value == state
    ensures params.AddChildParams? && params.parentId !in Ids(state) ==> r.value == state
    ensures params.AddChildParams? && params.parentId in Ids(state) ==>
      var parent := FindNode(state, params.parentId).value;
      FindNode(r.value, params.parentId) == Some(parent.(children := parent.children + [ChildFor(params)]))
  {
    match params
    case AddChildParams(parentId, childText, nodeData, freshId) =>
      var child := NewChild(childText.GetOr(DefaultText), nodeData, freshId);
      AddFoundIff(state, parentId, child);
      AddAppendsToFirstMatch(state, parentId, child);
      Some(AddFirst(state, parentId, child).0)
    case _ => Some(state)
  }

  /** After addChild's walk, findNode returns the old match with the child appended to its children. */
  lemma {:induction false} AddAppendsToFirstMatch(n: Node, parentId: string, child: Node)
    ensures parentId in Ids(n) ==>
      var m := FindNode(n, parentId).value;
      FindNode(AddFirst(n, parentId, child).0, parentId) == Some(m.(children := m.children + [child]))
    decreases n, 1
  {
    if n.id != parentId && parentId in Ids(n) {
      IdsUnfold(n);
      AddAmongAppendsToFirstMatch(n.children, parentId, child);
    }
  }

  lemma {:induction false} AddAmongAppendsToFirstMatch(cs: seq<Node>, parentId: string, child: Node)
    ensures parentId in IdsOf(PreOrderAll(cs)) ==>
      var m := FindAmong(cs, parentId).value;
      FindAmong(AddAmong(cs, parentId, child).0, parentId) == Some(m.(children := m.children + [child]))
    decreases cs, 0
  {
    if cs != [] && parentId in IdsOf(PreOrderAll(cs)) {
      IdsOfConcat(PreOrder(cs[0]), PreOrderAll(cs[1..]));
      var u := AddFirst(cs[0], parentId, child);
      var out := AddAmong(cs, parentId, child).0;
      AddFoundIff(cs[0], parentId, child);
      if u.1 {
        AddAppendsToFirstMatch(cs[0], parentId, child);
        assert out == [u.0] + cs[1..];
        assert out[0] == u.0;
      } else {
        var rest := AddAmong(cs[1..], parentId, child).0;
        AddAmongAppendsToFirstMatch(cs[1..], parentId, child);
        assert out == [cs[0]] + rest;
        assert out[0] == cs[0] && out[1..] == rest;
      }
    }
  }

  /** The walk over siblings when the first one's subtree holds the parent. */
  lemma AddAmongHitUnfold(cs: seq<Node>, parentId: string, child: Node)
    requires cs != [] && AddFirst(cs[0], parentId, child).1
    ensures AddAmong(cs, parentId, child) == ([AddFirst(cs[0], parentId, child).0] + cs[1..], true)
  {
  }

  /** The walk over siblings when the first one's subtree does not hold the parent. */
  lemma AddAmongMissUnfold(cs: seq<Node>, parentId: string, child: Node)
    requires cs != [] && !AddFirst(cs[0], parentId, child).1
    ensures AddAmong(cs, parentId, child)
      == ([cs[0]] + AddAmong(cs[1..], parentId, child).0, AddAmong(cs[1..], parentId, child).1)
  {
  }

  /**
   * addChild inserts the child's subtree into the pre-order and touches
   * nothing else: every other node keeps its own fields and its place.
   */
  lemma {:induction false} AddInsertsSubtree(n: Node, parentId: string, child: Node) returns (pre: seq<Node>, post: seq<Node>)
    requires parentId in Ids(n)
    ensures Labels(n) == pre + post
    ensures Labels(AddFirst(n, parentId, child).0) == pre + Labels(child) + post
    ensures |pre| == IndexOf(Ids(n), parentId) + |PreOrder(FindNode(n, parentId).value)|
    decreases n, 2
  {
    var r := AddFirst(n, parentId, child).0;
    var below := LabelsOf(PreOrderAll(n.children));
    LabelsUnfold(n);
    LabelsUnfold(r);
    IdsUnfold(n);
    if n.id == parentId {
      assert PreOrderAll(r.children) == PreOrderAll(n.children) + PreOrder(child) by {
        PreOrderAllConcat(n.children, [child]);
        PreOrderAllCons(child, []);
        EmptyRight(PreOrder(child));
      }
      LabelsOfConcat(PreOrderAll(n.children), PreOrder(child));
      pre, post := Labels(n), [];
      Assoc([Label(n)], below, Labels(child));
      EmptyRight(pre + Labels(child));
      EmptyRight(pre);
    } else {
      IdsUnfold(n);
      AddAmongFoundIff(n.children, parentId, child);
      var p, q := AddAmongInsertsSubtree(n.children, parentId, child);
      pre, post := [Label(n)] + p, q;
      Assoc([Label(n)], p, q);
      Assoc([Label(n)], p + Labels(child), q);
      Assoc([Label(n)], p, Labels(child));
      IndexOfConcat([n.id], IdsOf(PreOrderAll(n.children)), parentId);
    }
  }

  lemma {:induction false} AddAmongInsertsSubtree(cs: seq<Node>, parentId: string, child: Node) returns (pre: seq<Node>, post: seq<Node>)
    requires parentId in IdsOf(PreOrderAll(cs))
    ensures LabelsOf(PreOrderAll(cs)) == pre + post
    ensures LabelsOf(PreOrderAll(AddAmong(cs, parentId, child).0)) == pre + Labels(child) + post
    ensures |pre| == IndexOf(IdsOf(PreOrderAll(cs)), parentId) + |PreOrder(FindAmong(cs, parentId).value)|
    decreases cs, 1
  {
    IdsOfConcat(PreOrder(cs[0]), PreOrderAll(cs[1..]));
    if parentId in Ids(cs[0]) {
      pre, post := AddHitInsertsSubtree(cs, parentId, child);
    } else {
      pre, post := AddMissInsertsSubtree(cs, parentId, child);
    }
  }

  /** The parent lies in the first sibling's subtree. */
  lemma {:induction false} AddHitInsertsSubtree(cs: seq<Node>, parentId: string, child: Node) returns (pre: seq<Node>, post: seq<Node>)
    requires cs != [] && parentId in Ids(cs[0]) && parentId in IdsOf(PreOrderAll(cs))
    ensures LabelsOf(PreOrderAll(cs)) == pre + post
    ensures LabelsOf(PreOrderAll(AddAmong(cs, parentId, child).0)) == pre + Labels(child) + post
    ensures |pre| == IndexOf(IdsOf(PreOrderAll(cs)), parentId) + |PreOrder(FindAmong(cs, parentId).value)|
    decreases cs, 0
  {
    var b := PreOrderAll(cs[1..]);
    var u := AddFirst(cs[0], parentId, child);
    AddFoundIff(cs[0], parentId, child);
    AddAmongHitUnfold(cs, parentId, child);
    var p, q := AddInsertsSubtree(cs[0], parentId, child);
    PreOrderAllCons(u.0, cs[1..]);
    LabelsOfConcat(PreOrder(u.0), b);
    PreOrderAllCons(cs[0], cs[1..]);
    LabelsOfConcat(PreOrder(cs[0]), b);
    pre, post := p, q + LabelsOf(b);
    Assoc(p, q, LabelsOf(b));
    Assoc(p + Labels(child), q, LabelsOf(b));
    IdsOfConcat(PreOrder(cs[0]), b);
    IndexOfConcat(Ids(cs[0]), IdsOf(b), parentId);
  }

  /** The first sibling's subtree has no node with the id: the walk goes on to the rest. */
  lemma {:induction false} AddMissInsertsSubtree(cs: seq<Node>, parentId: string, child: Node) returns (pre: seq<Node>, post: seq<Node>)
    requires cs != [] && parentId !in Ids(cs[0]) && parentId in IdsOf(PreOrderAll(cs))
    ensures LabelsOf(PreOrderAll(cs)) == pre + post
    ensures LabelsOf(PreOrderAll(AddAmong(cs, parentId, child).0)) == pre + Labels(child) + post
    ensures |pre| == IndexOf(IdsOf(PreOrderAll(cs)), parentId) + |PreOrder(FindAmong(cs, parentId).value)|
    decreases cs, 0
  {
    var a := PreOrder(cs[0]);
    var b := PreOrderAll(cs[1..]);
    var rest := AddAmong(cs[1..], parentId, child).0;
    PreOrderAllCons(cs[0], cs[1..]);
    IdsOfConcat(a, b);
    AddFoundIff(cs[0], parentId, child);
    AddAmongMissUnfold(cs, parentId, child);
    var p, q := AddAmongInsertsSubtree(cs[1..], parentId, child);
    PreOrderAllCons(cs[0], rest);
    LabelsOfConcat(a, PreOrderAll(rest));
    LabelsOfConcat(a, b);
    pre, post := LabelsOf(a) + p, q;
    Assoc(LabelsOf(a), p, q);
    Assoc(LabelsOf(a), p + Labels(child), q);
    Assoc(LabelsOf(a), p, Labels(child));
    IndexOfConcat(IdsOf(a), IdsOf(b), parentId);
  }

  /**
   * addChild's effect on the tree's shape: the parent, the first pre-order
   * node with the id, has one child more, the child's own shape comes right
   * after the parent's old subtree, and every other node keeps its number of
   * children.
   */
  lemma {:induction false} AddGrowsShape(n: Node, parentId: string, child: Node) returns (pre: seq<int>, post: seq<int>)
    requires parentId in Ids(n)
    ensures Shape(n) == pre + post
    ensures |pre| == IndexOf(Ids(n), parentId) + |PreOrder(FindNode(n, parentId).value)|
    ensures Shape(AddFirst(n, parentId, child).0)
      == Incr(pre, IndexOf(Ids(n), parentId)) + Shape(child) + post
    decreases n, 2
  {
    if n.id == parentId {
      pre, post := AddHereGrowsShape(n, parentId, child);
    } else {
      pre, post := AddBelowGrowsShape(n, parentId, child);
    }
  }

  /** The node itself is the parent. */
  lemma {:induction false} AddHereGrowsShape(n: Node, parentId: string, child: Node) returns (pre: seq<int>, post: seq<int>)
    requires n.id == parentId
    ensures Shape(n) == pre + post
    ensures |pre| == IndexOf(Ids(n), parentId) + |PreOrder(FindNode(n, parentId).value)|
    ensures Shape(AddFirst(n, parentId, child).0)
      == Incr(pre, IndexOf(Ids(n), parentId)) + Shape(child) + post
  {
    var r := AddFirst(n, parentId, child).0;
    var below := ShapeOf(PreOrderAll(n.children));
    var head: seq<int> := [|n.children|];
    ShapeUnfold(n);
    ShapeUnfold(r);
    IdsUnfold(n);
    assert r.children == n.children + [child];
    PreOrderAllConcat(n.children, [child]);
    assert PreOrderAll([child]) == PreOrder(child);
    ShapeOfConcat(PreOrderAll(n.children), PreOrder(child));
    assert Shape(r) == [|n.children| + 1] + (below + Shape(child));
    pre, post := Shape(n), [];
    IncrFront(head, below, 0);
    assert Incr(pre, 0) == [|n.children| + 1] + below;
    Assoc<int>([|n.children| + 1], below, Shape(child));
    EmptyRight(Incr(pre, 0) + Shape(child));
    EmptyRight(pre);
  }

  /** The parent lies strictly below the node. */
  lemma {:induction false} AddBelowGrowsShape(n: Node, parentId: string, child: Node) returns (pre: seq<int>, post: seq<int>)
    requires n.id != parentId && parentId in Ids(n)
    ensures Shape(n) == pre + post
    ensures |pre| == IndexOf(Ids(n), parentId) + |PreOrder(FindNode(n, parentId).value)|
    ensures Shape(AddFirst(n, parentId, child).0)
      == Incr(pre, IndexOf(Ids(n), parentId)) + Shape(child) + post
    decreases n, 1
  {
    var cs := AddAmong(n.children, parentId, child).0;
    var r := n.(children := cs);
    assert AddFirst(n, parentId, child).0 == r;
    var head: seq<int> := [|n.children|];
    ShapeUnfold(n);
    ShapeUnfold(r);
    var below := IdsOf(PreOrderAll(n.children));
    assert Ids(n) == [n.id] + below by {
      IdsUnfold(n);
    }
    AddAmongFoundIff(n.children, parentId, child);
    var p, q := AddAmongGrowsShape(n.children, parentId, child);
    var k := IndexOf(below, parentId);
    assert IndexOf(Ids(n), parentId) == 1 + k by {
      IndexOfConcat([n.id], below, parentId);
    }
    assert Shape(r) == head + ((Incr(p, k) + Shape(child)) + q);
    pre, post := head + p, q;
    IncrBehind(head, p, k);
    Assoc(head, p, q);
    Assoc(head, Incr(p, k) + Shape(child), q);
    Assoc(head, Incr(p, k), Shape(child));
  }

  lemma {:induction false} AddAmongGrowsShape(cs: seq<Node>, parentId: string, child: Node) returns (pre: seq<int>, post: seq<int>)
    requires parentId in IdsOf(PreOrderAll(cs))
    ensures ShapeOf(PreOrderAll(cs)) == pre + post
    ensures |pre| == IndexOf(IdsOf(PreOrderAll(cs)), parentId) + |PreOrder(FindAmong(cs, parentId).value)|
    ensures ShapeOf(PreOrderAll(AddAmong(cs, parentId, child).0))
      == Incr(pre, IndexOf(IdsOf(PreOrderAll(cs)), parentId))
        + Shape(child) + post
    decreases cs, 1
  {
    IdsOfConcat(PreOrder(cs[0]), PreOrderAll(cs[1..]));
    if parentId in Ids(cs[0]) {
      pre, post := AddHitGrowsShape(cs, parentId, child);
    } else {
      pre, post := AddMissGrowsShape(cs, parentId, child);
    }
  }

  /** The parent lies in the first sibling's subtree. */
  lemma {:induction false} AddHitGrowsShape(cs: seq<Node>, parentId: string, child: Node) returns (pre: seq<int>, post: seq<int>)
    requires cs != [] && parentId in Ids(cs[0]) && parentId in IdsOf(PreOrderAll(cs))
    ensures ShapeOf(PreOrderAll(cs)) == pre + post
    ensures |pre| == IndexOf(IdsOf(PreOrderAll(cs)), parentId) + |PreOrder(FindAmong(cs, parentId).value)|
    ensures ShapeOf(PreOrderAll(AddAmong(cs, parentId, child).0))
      == Incr(pre, IndexOf(IdsOf(PreOrderAll(cs)), parentId))
        + Shape(child) + post
    decreases cs, 0
  {
    var b := PreOrderAll(cs[1..]);
    var u := AddFirst(cs[0], parentId, child);
    AddFoundIff(cs[0], parentId, child);
    AddAmongHitUnfold(cs, parentId, child);
    var p, q := AddGrowsShape(cs[0], parentId, child);
    PreOrderAllCons(u.0, cs[1..]);
    ShapeOfConcat(PreOrder(u.0), b);
    PreOrderAllCons(cs[0], cs[1..]);
    ShapeOfConcat(PreOrder(cs[0]), b);
    IdsOfConcat(PreOrder(cs[0]), b);
    IndexOfConcat(Ids(cs[0]), IdsOf(b), parentId);
    var k := IndexOf(Ids(cs[0]), parentId);
    pre, post := p, q + ShapeOf(b);
    Assoc(p, q, ShapeOf(b));
    Assoc(Incr(p, k) + Shape(child), q, ShapeOf(b));
  }

  /** The first sibling's subtree has no node with the id: the walk goes on to the rest. */
  lemma {:induction false} AddMissGrowsShape(cs: seq<Node>, parentId: string, child: Node) returns (pre: seq<int>, post: seq<int>)
    requires cs != [] && parentId !in Ids(cs[0]) && parentId in IdsOf(PreOrderAll(cs))
    ensures ShapeOf(PreOrderAll(cs)) == pre + post
    ensures |pre| == IndexOf(IdsOf(PreOrderAll(cs)), parentId) + |PreOrder(FindAmong(cs, parentId).value)|
    ensures ShapeOf(PreOrderAll(AddAmong(cs, parentId, child).0))
      == Incr(pre, IndexOf(IdsOf(PreOrderAll(cs)), parentId))
        + Shape(child) + post
    decreases cs, 0
  {
    var a := PreOrder(cs[0]);
    var b := PreOrderAll(cs[1..]);
    var rest := AddAmong(cs[1..], parentId, child).0;
    PreOrderAllCons(cs[0], cs[1..]);
    IdsOfConcat(a, b);
    IndexOfConcat(IdsOf(a), IdsOf(b), parentId);
    AddFoundIff(cs[0], parentId, child);
    AddAmongMissUnfold(cs, parentId, child);
    var p, q := AddAmongGrowsShape(cs[1..], parentId, child);
    PreOrderAllCons(cs[0], rest);
    ShapeOfConcat(a, PreOrderAll(rest));
    ShapeOfConcat(a, b);
    var k := IndexOf(IdsOf(b), parentId);
    var sa := ShapeOf(a);
    pre, post := sa + p, q;
    IncrBehind(sa, p, k);
    Assoc(sa, p, q);
    Assoc(sa, Incr(p, k) + Shape(child), q);
    Assoc(sa, Incr(p, k), Shape(child));
  }

  /**
   * With distinct ids, a child whose ids are distinct and new keeps the ids
   * of the document distinct; a child made with a generated id not yet in the
   * tree is such a child.
   */
  lemma AddChildKeepsIdsDistinct(state: Node, params: Params)
    requires params.AddChildParams?
    requires AllDistinct(Ids(state))
    requires HasId(params.nodeData) ==>
      AllDistinct(Ids(ChildFor(params))) && forall x :: x in Ids(ChildFor(params)) ==> x !in Ids(state)
    requires !HasId(params.nodeData) ==> params.freshId !in Ids(state)
    ensures AllDistinct(Ids(AddChild(state, params).value))
  {
    var child := ChildFor(params);
    assert AllDistinct(Ids(child)) && forall x :: x in Ids(child) ==> x !in Ids(state) by {
      if !HasId(params.nodeData) {
        IdsUnfold(child);
        assert Ids(child) == [params.freshId];
      }
    }
    AddFoundIff(state, params.parentId, child);
    if params.parentId in Ids(state) {
      var pre, post := AddInsertsSubtree(state, params.parentId, child);
      var r := AddChild(state, params).value;
      assert r == AddFirst(state, params.parentId, child).0;
      var ip, ic, iq := IdsOf(pre), Ids(child), IdsOf(post);
      assert Ids(state) == ip + iq by {
        IdsOfLabels(PreOrder(state));
        IdsOfConcat(pre, post);
      }
      assert Ids(r) == ip + ic + iq by {
        IdsOfLabels(PreOrder(r));
        IdsOfLabels(PreOrder(child));
        IdsOfConcat(pre + Labels(child), post);
        IdsOfConcat(pre, Labels(child));
      }
      DistinctSplit(ip, iq);
      DistinctConcat(ip, ic);
      assert forall x :: x in ip + ic ==> x !in iq;
      DistinctConcat(ip + ic, iq);
    }
  }

  // ----- removeNode ---------------------------------------------------------

  /** `children.findIndex(child => child.id === nodeId)`: the first child with the id, or -1. */
  function FindIndex(cs: seq<Node>, nodeId: string): (k: int)
    ensures -1 <= k < |cs|
    ensures k >= 0 ==> cs[k].id == nodeId && forall j :: 0 <= j < k ==> cs[j].id != nodeId
    ensures k == -1 ==> forall j :: 0 <= j < |cs| ==> cs[j].id != nodeId
  {
    if cs == [] then -1
    else if cs[0].id == nodeId then 0
    else
      var k := FindIndex(cs[1..], nodeId);
      if k == -1 then -1 else k + 1
  }

  /**
   * removeFromParent: splice out the first direct child with the id; if none
   * matches, try each child's subtree in turn. Returns the tree and the
   * removed subtree.
   */
  function RemoveFirst(n: Node, nodeId: string): (r: (Node, Option<Node>))
    ensures r.1.None? ==> r.0 == n
    ensures r.1.Some? ==> r.1.value.id == nodeId
    ensures r.0.id == n.id
    decreases n, 1
  {
    var k := FindIndex(n.children, nodeId);
    if k != -1 then
      (n.(children := n.children[..k] + n.children[k + 1..]), Some(n.children[k]))
    else
      var (cs, removed) := RemoveAmong(n.children, nodeId);
      (n.(children := cs), removed)
  }

  /** `node.children.some(removeFromParent)`. */
  function RemoveAmong(cs: seq<Node>, nodeId: string): (r: (seq<Node>, Option<Node>))
    ensures r.1.None? ==> r.0 == cs
    ensures r.1.Some? ==> r.1.value.id == nodeId
    ensures |r.0| == |cs|
    decreases cs, 0
  {
    if cs == [] then ([], None)
    else
      var (c, removed) := RemoveFirst(cs[0], nodeId);
      if removed.Some? then ([c] + cs[1..], removed)
      else
        var (rest, removedLater) := RemoveAmong(cs[1..], nodeId);
        ([c] + rest, removedLater)
  }

  /** removeFromParent removes something exactly when some node strictly below has the id. */
  lemma {:induction false} RemoveFoundIff(n: Node, nodeId: string)
    ensures RemoveFirst(n, nodeId).1.Some? <==> nodeId in IdsOf(PreOrderAll(n.children))
    decreases n, 1
  {
    InPreOrderAll(n.children, nodeId);
    if FindIndex(n.children, nodeId) != -1 {
      IdsUnfold(n.children[FindIndex(n.children, nodeId)]);
    } else {
      RemoveAmongFoundIff(n.children, nodeId);
      forall i | 0 <= i < |n.children|
        ensures nodeId in Ids(n.children[i]) <==> nodeId in IdsOf(PreOrderAll(n.children[i].children))
      {
        IdsUnfold(n.children[i]);
      }
    }
  }

  /** The `some` loop removes something exactly when some node strictly below one of the siblings has the id. */
  lemma {:induction false} RemoveAmongFoundIff(cs: seq<Node>, nodeId: string)
    ensures RemoveAmong(cs, nodeId).1.Some? <==>
      exists i :: 0 <= i < |cs| && nodeId in IdsOf(PreOrderAll(cs[i].children))
    decreases cs, 0
  {
    if cs != [] {
      RemoveFoundIff(cs[0], nodeId);
      RemoveAmongFoundIff(cs[1..], nodeId);
      if exists i :: 0 <= i < |cs| && nodeId in IdsOf(PreOrderAll(cs[i].children)) {
        var i :| 0 <= i < |cs| && nodeId in IdsOf(PreOrderAll(cs[i].children));
        if i > 0 {
          assert cs[1..][i - 1] == cs[i];
        }
      }
      if exists i :: 0 <= i < |cs[1..]| && nodeId in IdsOf(PreOrderAll(cs[1..][i].children)) {
        var i :| 0 <= i < |cs[1..]| && nodeId in IdsOf(PreOrderAll(cs[1..][i].children));
        assert cs[1..][i] == cs[i + 1];
      }
    }
  }

  /** One turn of removeFromParent's `some` loop, as for updateNodeProperty. */
  lemma {:induction false} RemoveAmongStep(cs: seq<Node>, i: nat, nodeId: string, c: Node, f: Option<Node>)
    requires i < |cs| && (c, f) == RemoveFirst(cs[i], nodeId)
    requires RemoveAmong(cs, nodeId) == (cs[..i] + RemoveAmong(cs[i..], nodeId).0, RemoveAmong(cs[i..], nodeId).1)
    ensures f.Some? ==> RemoveAmong(cs, nodeId) == (cs[i := c], f)
    ensures f.None? ==> RemoveAmong(cs, nodeId) == (cs[..i + 1] + RemoveAmong(cs[i + 1..], nodeId).0, RemoveAmong(cs[i + 1..], nodeId).1)
  {
    SpliceAt(cs, i, c);
    var s := cs[i..];
    assert s[0] == cs[i];
    if f.Some? {
      RemoveAmongHitUnfold(s, nodeId);
    } else {
      RemoveAmongMissUnfold(s, nodeId);
      Assoc(cs[..i], [cs[i]], RemoveAmong(cs[i + 1..], nodeId).0);
    }
  }

  /** `children.findIndex(child => child.id === nodeId)` as a scan from the front. */
  method ScanForChild(children: seq<Node>, nodeId: string) returns (index: int)
    ensures index == FindIndex(children, nodeId)
  {
    var j := 0;
    while j < |children| && children[j].id != nodeId
      invariant 0 <= j <= |children|
      invariant forall m :: 0 <= m < j ==> children[m].id != nodeId
    {
      j := j + 1;
    }
    index := if j < |children| then j else -1;
  }

  /** removeFromParent as the source runs it: the findIndex loop, the splice, then the `some` loop. */
  method RemoveFromParent(node: Node, nodeId: string) returns (r: Node, found: bool)
    ensures r == RemoveFirst(node, nodeId).0
    ensures found == RemoveFirst(node, nodeId).1.Some?
    decreases node, 1
  {
    var children := node.children;
    var index := ScanForChild(children, nodeId);
    if index != -1 {
      children := children[..index] + children[index + 1..];
      return node.(children := children), true;
    }
    children, found := SomeRemoveFromParent(node.children, nodeId);
    r := node.(children := children);
  }

  /** `children.some(removeFromParent)`: walk the children in order until one subtree lost a node. */
  method SomeRemoveFromParent(cs: seq<Node>, nodeId: string) returns (children: seq<Node>, found: bool)
    ensures children == RemoveAmong(cs, nodeId).0
    ensures found == RemoveAmong(cs, nodeId).1.Some?
    decreases cs, 0
  {
    var i := 0;
    SliceEnds(cs);
    assert [] + RemoveAmong(cs, nodeId).0 == RemoveAmong(cs, nodeId).0;
    while i < |cs|
      invariant 0 <= i <= |cs|
      invariant RemoveAmong(cs, nodeId) == (cs[..i] + RemoveAmong(cs[i..], nodeId).0, RemoveAmong(cs[i..], nodeId).1)
    {
      var c, f := RemoveFromParent(cs[i], nodeId);
      ghost var removed := RemoveFirst(cs[i], nodeId).1;
      RemoveAmongStep(cs, i, nodeId, c, removed);
      if f {
        return cs[i := c], true;
      }
      i := i + 1;
    }
    EmptyRight(cs);
    return cs, false;
  }

  /**
   * removeNode: reads only the `nodeId` of its params, so every params shape
   * that carries one removes by it; addChild's params carry none, and no node
   * has a missing id. The root cannot be deleted; otherwise remove the first
   * match found by removeFromParent.
   */
  function RemoveNode(state: Node, params: Params): (r: Option<Node>)
    ensures r.Some? && r.value.id == state.id
    ensures params.AddChildParams? ==> r.value == state
    ensures !params.AddChildParams? && params.nodeId == state.id ==> r.value == state
    ensures !params.AddChildParams? && params.nodeId !in Ids(state) ==> r.value == state
  {
    if params.AddChildParams? then Some(state)
    else if params.nodeId == state.id then Some(state)
    else
      IdsUnfold(state);
      RemoveFoundIff(state, params.nodeId);
      Some(RemoveFirst(state, params.nodeId).0)
  }

  /** removeNode looks at the `nodeId` of its params and at nothing else they carry. */
  lemma RemoveNodeReadsOnlyNodeId(state: Node, params: Params)
    requires !params.AddChildParams?
    ensures RemoveNode(state, params) == RemoveNode(state, RemoveParams(params.nodeId))
  {
  }

  /** The walk over siblings when the first one's removeFromParent removed something. */
  lemma RemoveAmongHitUnfold(cs: seq<Node>, nodeId: string)
    requires cs != [] && RemoveFirst(cs[0], nodeId).1.Some?
    ensures RemoveAmong(cs, nodeId) == ([RemoveFirst(cs[0], nodeId).0] + cs[1..], RemoveFirst(cs[0], nodeId).1)
  {
  }

  /** The walk over siblings when the first one's removeFromParent removed nothing. */
  lemma RemoveAmongMissUnfold(cs: seq<Node>, nodeId: string)
    requires cs != [] && RemoveFirst(cs[0], nodeId).1.None?
    ensures RemoveAmong(cs, nodeId) == ([cs[0]] + RemoveAmong(cs[1..], nodeId).0, RemoveAmong(cs[1..], nodeId).1)
  {
  }

  /**
   * removeFromParent cuts the removed subtree out of the tree: it is one
   * block of the pre-order, lying below a node `pp[kp]` of which it was a
   * child. Afterwards the pre-order holds the same nodes before and after the
   * block, each with its own fields; that node has one child fewer and every
   * other node keeps its number of children.
   */
  lemma {:induction false} RemoveCutsOutSubtree(n: Node, nodeId: string) returns (pp: seq<Node>, pq: seq<Node>, kp: nat)
    requires RemoveFirst(n, nodeId).1.Some?
    ensures PreOrder(n) == pp + PreOrder(RemoveFirst(n, nodeId).1.value) + pq
    ensures kp < |pp| && RemoveFirst(n, nodeId).1.value in pp[kp].children
    ensures Labels(RemoveFirst(n, nodeId).0) == LabelsOf(pp) + LabelsOf(pq)
    ensures Shape(RemoveFirst(n, nodeId).0) == Decr(ShapeOf(pp), kp) + ShapeOf(pq)
    decreases n, 2
  {
    if FindIndex(n.children, nodeId) != -1 {
      pp, pq, kp := RemoveChildCutsOut(n, nodeId);
    } else {
      pp, pq, kp := RemoveBelowCutsOut(n, nodeId);
    }
  }

  /** The removed node is a direct child. */
  lemma {:induction false} RemoveChildCutsOut(n: Node, nodeId: string) returns (pp: seq<Node>, pq: seq<Node>, kp: nat)
    requires FindIndex(n.children, nodeId) != -1
    ensures RemoveFirst(n, nodeId).1.Some?
    ensures PreOrder(n) == pp + PreOrder(RemoveFirst(n, nodeId).1.value) + pq
    ensures kp < |pp| && RemoveFirst(n, nodeId).1.value in pp[kp].children
    ensures Labels(RemoveFirst(n, nodeId).0) == LabelsOf(pp) + LabelsOf(pq)
    ensures Shape(RemoveFirst(n, nodeId).0) == Decr(ShapeOf(pp), kp) + ShapeOf(pq)
  {
    var k := FindIndex(n.children, nodeId);
    var a, t, b := n.children[..k], n.children[k], n.children[k + 1..];
    var r := n.(children := a + b);
    assert RemoveFirst(n, nodeId) == (r, Some(t));
    var pa, pb := PreOrderAll(a), PreOrderAll(b);
    assert PreOrder(n) == [n] + (pa + (PreOrder(t) + pb)) by {
      CutAt(n.children, k);
      PreOrderAllConcat(a, [t] + b);
      PreOrderAllCons(t, b);
    }
    assert PreOrder(r) == [r] + (pa + pb) by {
      PreOrderAllConcat(a, b);
    }
    pp, pq, kp := [n] + pa, pb, 0;
    Assoc([n], pa, PreOrder(t) + pb);
    Assoc(pp, PreOrder(t), pb);
    assert pp[0] == n;
    assert Labels(r) == LabelsOf(pp) + LabelsOf(pq) by {
      LabelsOfConcat([r], pa + pb);
      LabelsOfConcat(pa, pb);
      LabelsOfConcat([n], pa);
      assert LabelsOf([r]) == LabelsOf([n]);
      Assoc(LabelsOf([n]), LabelsOf(pa), LabelsOf(pb));
    }
    var head: seq<int> := [|n.children|];
    var less: seq<int> := [|n.children| - 1];
    var sa, sb := ShapeOf(pa), ShapeOf(pb);
    assert ShapeOf(pp) == head + sa by {
      ShapeOfConcat([n], pa);
    }
    assert Decr(ShapeOf(pp), kp) == less + sa by {
      DecrFront(head, sa, 0);
    }
    assert Shape(r) == less + (sa + sb) by {
      ShapeOfConcat([r], pa + pb);
      ShapeOfConcat(pa, pb);
    }
    Assoc(less, sa, sb);
  }

  /** No direct child has the id: the walk goes on to the children's subtrees. */
  lemma {:induction false} RemoveBelowCutsOut(n: Node, nodeId: string) returns (pp: seq<Node>, pq: seq<Node>, kp: nat)
    requires FindIndex(n.children, nodeId) == -1 && RemoveFirst(n, nodeId).1.Some?
    ensures PreOrder(n) == pp + PreOrder(RemoveFirst(n, nodeId).1.value) + pq
    ensures kp < |pp| && RemoveFirst(n, nodeId).1.value in pp[kp].children
    ensures Labels(RemoveFirst(n, nodeId).0) == LabelsOf(pp) + LabelsOf(pq)
    ensures Shape(RemoveFirst(n, nodeId).0) == Decr(ShapeOf(pp), kp) + ShapeOf(pq)
    decreases n, 1
  {
    var (cs, removed) := RemoveAmong(n.children, nodeId);
    var r := n.(children := cs);
    assert RemoveFirst(n, nodeId) == (r, removed);
    var t := removed.value;
    var p, q, k := RemoveAmongCutsOutSubtree(n.children, nodeId);
    pp, pq, kp := [n] + p, q, 1 + k;
    assert PreOrder(n) == pp + PreOrder(t) + pq by {
      Assoc([n], p + PreOrder(t), q);
      Assoc([n], p, PreOrder(t));
    }
    assert pp[kp] == p[k];
    assert Labels(r) == LabelsOf(pp) + LabelsOf(pq) by {
      LabelsOfConcat([r], PreOrderAll(cs));
      LabelsOfConcat([n], p);
      assert LabelsOf([r]) == LabelsOf([n]);
      Assoc(LabelsOf([n]), LabelsOf(p), LabelsOf(q));
    }
    assert Shape(r) == Decr(ShapeOf(pp), kp) + ShapeOf(pq) by {
      var head: seq<int> := [|n.children|];
      ShapeOfConcat([r], PreOrderAll(cs));
      ShapeOfConcat([n], p);
      assert ShapeOf([r]) == head;
      DecrBehind(head, ShapeOf(p), k);
      Assoc(head, Decr(ShapeOf(p), k), ShapeOf(q));
    }
  }

  lemma {:induction false} RemoveAmongCutsOutSubtree(cs: seq<Node>, nodeId: string) returns (pp: seq<Node>, pq: seq<Node>, kp: nat)
    requires RemoveAmong(cs, nodeId).1.Some?
    ensures PreOrderAll(cs) == pp + PreOrder(RemoveAmong(cs, nodeId).1.value) + pq
    ensures kp < |pp| && RemoveAmong(cs, nodeId).1.value in pp[kp].children
    ensures LabelsOf(PreOrderAll(RemoveAmong(cs, nodeId).0)) == LabelsOf(pp) + LabelsOf(pq)
    ensures ShapeOf(PreOrderAll(RemoveAmong(cs, nodeId).0)) == Decr(ShapeOf(pp), kp) + ShapeOf(pq)
    decreases cs, 1
  {
    if RemoveFirst(cs[0], nodeId).1.Some? {
      pp, pq, kp := RemoveHitCutsOut(cs, nodeId);
    } else {
      pp, pq, kp := RemoveMissCutsOut(cs, nodeId);
    }
  }

  /** The first sibling's walk removed the node. */
  lemma {:induction false} RemoveHitCutsOut(cs: seq<Node>, nodeId: string) returns (pp: seq<Node>, pq: seq<Node>, kp: nat)
    requires cs != [] && RemoveFirst(cs[0], nodeId).1.Some?
    ensures RemoveAmong(cs, nodeId).1.Some?
    ensures PreOrderAll(cs) == pp + PreOrder(RemoveAmong(cs, nodeId).1.value) + pq
    ensures kp < |pp| && RemoveAmong(cs, nodeId).1.value in pp[kp].children
    ensures LabelsOf(PreOrderAll(RemoveAmong(cs, nodeId).0)) == LabelsOf(pp) + LabelsOf(pq)
    ensures ShapeOf(PreOrderAll(RemoveAmong(cs, nodeId).0)) == Decr(ShapeOf(pp), kp) + ShapeOf(pq)
    decreases cs, 0
  {
    var (c, removed) := RemoveFirst(cs[0], nodeId);
    var t := removed.value;
    var b := PreOrderAll(cs[1..]);
    RemoveAmongHitUnfold(cs, nodeId);
    var p, q, k := RemoveCutsOutSubtree(cs[0], nodeId);
    pp, pq, kp := p, q + b, k;
    assert PreOrderAll(cs) == pp + PreOrder(t) + pq by {
      PreOrderAllCons(cs[0], cs[1..]);
      Assoc(p + PreOrder(t), q, b);
    }
    var after := PreOrderAll([c] + cs[1..]);
    assert after == PreOrder(c) + b by {
      PreOrderAllCons(c, cs[1..]);
    }
    assert LabelsOf(after) == LabelsOf(pp) + LabelsOf(pq) by {
      LabelsOfConcat(PreOrder(c), b);
      LabelsOfConcat(q, b);
      Assoc(LabelsOf(p), LabelsOf(q), LabelsOf(b));
    }
    assert ShapeOf(after) == Decr(ShapeOf(pp), kp) + ShapeOf(pq) by {
      ShapeOfConcat(PreOrder(c), b);
      ShapeOfConcat(q, b);
      Assoc(Decr(ShapeOf(p), k), ShapeOf(q), ShapeOf(b));
    }
  }

  /** The first sibling's walk removed nothing: the walk goes on to the rest. */
  lemma {:induction false} RemoveMissCutsOut(cs: seq<Node>, nodeId: string) returns (pp: seq<Node>, pq: seq<Node>, kp: nat)
    requires cs != [] && RemoveFirst(cs[0], nodeId).1.None? && RemoveAmong(cs, nodeId).1.Some?
    ensures PreOrderAll(cs) == pp + PreOrder(RemoveAmong(cs, nodeId).1.value) + pq
    ensures kp < |pp| && RemoveAmong(cs, nodeId).1.value in pp[kp].children
    ensures LabelsOf(PreOrderAll(RemoveAmong(cs, nodeId).0)) == LabelsOf(pp) + LabelsOf(pq)
    ensures ShapeOf(PreOrderAll(RemoveAmong(cs, nodeId).0)) == Decr(ShapeOf(pp), kp) + ShapeOf(pq)
    decreases cs, 0
  {
    var a := PreOrder(cs[0]);
    var rest := RemoveAmong(cs[1..], nodeId).0;
    RemoveAmongMissUnfold(cs, nodeId);
    var t := RemoveAmong(cs[1..], nodeId).1.value;
    var p, q, k := RemoveAmongCutsOutSubtree(cs[1..], nodeId);
    pp, pq, kp := a + p, q, |a| + k;
    assert PreOrderAll(cs) == pp + PreOrder(t) + pq by {
      PreOrderAllCons(cs[0], cs[1..]);
      Assoc(a, p + PreOrder(t), q);
      Assoc(a, p, PreOrder(t));
    }
    PutBehind(a, p, k, p[k]);
    var after := PreOrderAll([cs[0]] + rest);
    assert after == a + PreOrderAll(rest) by {
      PreOrderAllCons(cs[0], rest);
    }
    assert LabelsOf(after) == LabelsOf(pp) + LabelsOf(pq) by {
      LabelsOfConcat(a, PreOrderAll(rest));
      LabelsOfConcat(a, p);
      Assoc(LabelsOf(a), LabelsOf(p), LabelsOf(q));
    }
    var sa, sp, sq := ShapeOf(a), ShapeOf(p), ShapeOf(q);
    DecrShapeBehind(a, p, k);
    assert Decr(ShapeOf(pp), kp) == sa + Decr(sp, k);
    var below := PreOrderAll(rest);
    assert ShapeOf(below) == Decr(sp, k) + sq;
    assert ShapeOf(after) == sa + ShapeOf(below) by {
      ShapeOfConcat(a, below);
    }
    Assoc(sa, Decr(sp, k), sq);
  }

  /** One child fewer at node `|a| + k` of `a + p` is one child fewer at node `k` of `p`. */
  lemma DecrShapeBehind(a: seq<Node>, p: seq<Node>, k: nat)
    requires k < |p|
    ensures Decr(ShapeOf(a + p), |a| + k) == ShapeOf(a) + Decr(ShapeOf(p), k)
  {
    ShapeOfConcat(a, p);
    DecrBehind(ShapeOf(a), ShapeOf(p), k);
  }

  /**
   * With distinct ids, removeNode of a non-root id in the tree deletes the
   * node findNode finds, with its whole subtree: no id of the subtree is
   * left; its parent loses one child; every other node keeps its own fields,
   * its number of children and its place in the pre-order.
   */
  lemma RemoveNodeDeletesSubtree(state: Node, nodeId: string) returns (removed: Node, pp: seq<Node>, pq: seq<Node>, kp: nat)
    requires AllDistinct(Ids(state))
    requires nodeId != state.id && nodeId in Ids(state)
    ensures removed == FindNode(state, nodeId).value
    ensures PreOrder(state) == pp + PreOrder(removed) + pq && |pp| == IndexOf(Ids(state), nodeId)
    ensures kp < |pp| && removed in pp[kp].children
    ensures Labels(RemoveNode(state, RemoveParams(nodeId)).value) == LabelsOf(pp) + LabelsOf(pq)
    ensures Shape(RemoveNode(state, RemoveParams(nodeId)).value) == Decr(ShapeOf(pp), kp) + ShapeOf(pq)
    ensures forall x :: x in Ids(removed) ==> x !in Ids(RemoveNode(state, RemoveParams(nodeId)).value)
  {
    IdsUnfold(state);
    RemoveFoundIff(state, nodeId);
    removed := RemoveFirst(state, nodeId).1.value;
    pp, pq, kp := RemoveCutsOutSubtree(state, nodeId);
    var r := RemoveNode(state, RemoveParams(nodeId)).value;
    assert r == RemoveFirst(state, nodeId).0;
    var ip, it, iq := IdsOf(pp), Ids(removed), IdsOf(pq);
    assert Ids(state) == (ip + it) + iq by {
      IdsOfConcat(pp + PreOrder(removed), pq);
      IdsOfConcat(pp, PreOrder(removed));
    }
    assert Ids(r) == ip + iq by {
      IdsOfLabels(PreOrder(r));
      IdsOfLabels(pp);
      IdsOfLabels(pq);
      IdsOfConcat(LabelsOf(pp), LabelsOf(pq));
    }
    IdsUnfold(removed);
    DistinctBlock(ip, it, iq, nodeId);
    assert PreOrder(state)[|pp|] == removed;
    FindNodeIsFirstInPreOrder(state, nodeId);
    FirstWithIdAt(PreOrder(state), nodeId);
  }

  /**
   * In distinct ids `ip + it + iq` where the block `it` starts with `x`, `x`
   * first occurs right after `ip`, and no id of the block lies outside it.
   */
  lemma DistinctBlock(ip: seq<string>, it: seq<string>, iq: seq<string>, x: string)
    requires AllDistinct((ip + it) + iq) && |it| >= 1 && it[0] == x
    ensures IndexOf((ip + it) + iq, x) == |ip|
    ensures forall y :: y in it ==> y !in ip + iq
  {
    DistinctSplit(ip + it, iq);
    DistinctSplit(ip, it);
    InConcat(ip, iq);
    IndexOfConcat(ip + it, iq, x);
    IndexOfConcat(ip, it, x);
  }

  // ----- the action table and the sample document ---------------------------

  /** The `actions` object handed to the runtime. */
  function Actions(): (m: map<string, (Node, Params) -> Option<Node>>)
    ensures m.Keys == {"updateNodeProperty", "setText", "setNotes", "setClass", "addChild", "removeNode"}
  {
    map[
      "updateNodeProperty" := UpdateNodeProperty,
      "setText" := SetText,
      "setNotes" := SetNotes,
      "setClass" := SetClass,
      "addChild" := AddChild,
      "removeNode" := RemoveNode]
  }

  /**
   * `initialData`: the document the editor starts with. Its pre-order is
   * root, idea1, sub1, sub2, idea2, all distinct.
   */
  function InitialData(): (d: Node)
    ensures Ids(d) == ["root", "idea1", "sub1", "sub2", "idea2"]
    ensures AllDistinct(Ids(d))
  {
    var sub1 := Node("sub1", "Subtopic 1", Some("default"), None, [], map[]);
    var sub2 := Node("sub2", "Subtopic 2", Some("default"), None, [], map[]);
    var idea1 := Node("idea1", "First Idea", Some("idea"), None, [sub1, sub2], map[]);
    var idea2 := Node("idea2", "Second Idea", Some("calm"), Some("Some important notes here"), [], map[]);
    var root := Node("root", "Mind Map", Some("default"), None, [idea1, idea2], map[]);
    assert Ids(root) == ["root", "idea1", "sub1", "sub2", "idea2"] by {
      assert PreOrder(sub1) == [sub1] && PreOrder(sub2) == [sub2] && PreOrder(idea2) == [idea2];
      assert PreOrder(idea1) == [idea1, sub1, sub2] by {
        PreOrderAllCons(sub1, [sub2]);
        PreOrderAllCons(sub2, []);
      }
      assert PreOrder(root) == [root, idea1, sub1, sub2, idea2] by {
        PreOrderAllCons(idea1, [idea2]);
        PreOrderAllCons(idea2, []);
      }
    }
    InitialIdsDistinct();
    root
  }

  /** The ids of the initial document differ pairwise: in length, or at some position. */
  lemma InitialIdsDistinct()
    ensures AllDistinct(["root", "idea1", "sub1", "sub2", "idea2"])
  {
    var ids := ["root", "idea1", "sub1", "sub2", "idea2"];
    assert |ids[0]| != |ids[1]| && |ids[0]| != |ids[4]| && |ids[1]| != |ids[2]| && |ids[1]| != |ids[3]|;
    assert |ids[2]| != |ids[4]| && |ids[3]| != |ids[4]|;
    assert ids[0][0] != ids[2][0] && ids[0][0] != ids[3][0] && ids[2][3] != ids[3][3] && ids[1][4] != ids[4][4];
  }
}
