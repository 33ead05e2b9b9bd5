/**
 * The command runtime of the editor (class MindmapRuntime): the current
 * document, a table of named action handlers, a bounded undo history with a
 * cursor, and a set of listeners.
 *
 * The history discipline is first given as functions over a `Timeline` (the
 * document, the snapshots and the cursor); the class below updates its fields
 * exactly as those functions say.
 */
module Runtime {
  import opened Wrappers
  import opened DocTree

  // ----- findNode -----------------------------------------------------------

  /** findNode: the first node of a pre-order, depth-first walk whose id is `nodeId`. */
  function FindNode(node: Node, nodeId: string): (r: Option<Node>)
    ensures r.Some? ==> r.value.id == nodeId
    ensures r.None? <==> nodeId !in Ids(node)
    decreases node, 1
  {
    if node.id == nodeId then Some(node) else FindAmong(node.children, nodeId)
  }

  /** The `for (const child of node.children)` loop of findNode: the first child subtree holding a match. */
  function FindAmong(cs: seq<Node>, nodeId: string): (r: Option<Node>)
    ensures r.Some? ==> r.value.id == nodeId
    ensures r.None? <==> nodeId !in IdsOf(PreOrderAll(cs))
    decreases cs, 0
  {
    if cs == [] then None
    else
      IdsOfConcat(PreOrder(cs[0]), PreOrderAll(cs[1..]));
      match FindNode(cs[0], nodeId)
      case Some(found) => Some(found)
      case None => FindAmong(cs[1..], nodeId)
  }

  /** findNode agrees with a linear search of the pre-order sequence of subtrees. */
  lemma {:induction false} FindNodeIsFirstInPreOrder(node: Node, nodeId: string)
    ensures FindNode(node, nodeId) == FirstWithId(PreOrder(node), nodeId)
    decreases node, 1
  {
    FirstWithIdConcat([node], PreOrderAll(node.children), nodeId);
    if node.id != nodeId {
      FindAmongIsFirstInPreOrder(node.children, nodeId);
    }
  }

  lemma {:induction false} FindAmongIsFirstInPreOrder(cs: seq<Node>, nodeId: string)
    ensures FindAmong(cs, nodeId) == FirstWithId(PreOrderAll(cs), nodeId)
    decreases cs, 0
  {
    if cs != [] {
      FirstWithIdConcat(PreOrder(cs[0]), PreOrderAll(cs[1..]), nodeId);
      FindNodeIsFirstInPreOrder(cs[0], nodeId);
      FindAmongIsFirstInPreOrder(cs[1..], nodeId);
    }
  }

  // ----- history, as functions ----------------------------------------------

  /** The default of the constructor's `maxHistorySize`. */
  const DefaultMaxHistorySize: int := 50

  /** The document, the history snapshots and the cursor `historyIndex`. */
  datatype Timeline = Timeline(state: Node, history: seq<Node>, historyIndex: int)

  /** How many snapshots a history bounded by `maxHistorySize` can keep. */
  function Capacity(maxHistorySize: int): nat {
    if maxHistorySize < 0 then 0 else maxHistorySize
  }

  /** The cursor lies within the history (or is -1 on an empty one) and the history is within its bound. */
  predicate ValidTimeline(t: Timeline, maxHistorySize: int) {
    -1 <= t.historyIndex < |t.history| <= Capacity(maxHistorySize)
  }

  /** A freshly constructed runtime: no snapshots, cursor -1. */
  function InitialTimeline(initialData: Node): (t: Timeline)
    ensures forall m: int :: ValidTimeline(t, m)
    ensures t.state == initialData && t.historyIndex == |t.history| - 1
  {
    Timeline(initialData, [], -1)
  }

  /**
   * pushHistory: drop the snapshots after the cursor, append the current
   * document, then evict the oldest snapshot if the bound is exceeded, and
   * otherwise advance the cursor.
   */
  function Pushed(t: Timeline, maxHistorySize: int): (r: Timeline)
    requires ValidTimeline(t, maxHistorySize)
    ensures ValidTimeline(r, maxHistorySize)
    ensures r.state == t.state
    // the cursor ends on the newest snapshot, so nothing is left to redo
    ensures r.historyIndex == |r.history| - 1
    ensures maxHistorySize >= 1 ==> |r.history| >= 1 && r.history[r.historyIndex] == t.state
    // below capacity, the snapshots up to the cursor stay and the cursor advances
    ensures t.historyIndex + 2 <= maxHistorySize ==>
      r.historyIndex == t.historyIndex + 1 && r.history[..r.historyIndex] == t.history[..t.historyIndex + 1]
    // at capacity, the oldest snapshot is evicted and the cursor stays put
    ensures 1 <= maxHistorySize < t.historyIndex + 2 ==>
      r.historyIndex == t.historyIndex && r.history[..r.historyIndex] == t.history[1..t.historyIndex + 1]
  {
    var kept := t.history[..t.historyIndex + 1] + [t.state];
    if |kept| > maxHistorySize then
      t.(history := kept[1..])
    else
      t.(history := kept, historyIndex := t.historyIndex + 1)
  }

  /** canUndo: the cursor is above the oldest snapshot. */
  predicate UndoPossible(t: Timeline) {
    t.historyIndex > 0
  }

  /** canRedo: snapshots lie after the cursor. */
  predicate RedoPossible(t: Timeline) {
    t.historyIndex < |t.history| - 1
  }

  /** undo: when the cursor is above 0, step it back and restore the snapshot under it. */
  function Undone(t: Timeline, maxHistorySize: int): (r: Timeline)
    requires ValidTimeline(t, maxHistorySize)
    ensures ValidTimeline(r, maxHistorySize)
    ensures r.history == t.history
    ensures !UndoPossible(t) ==> r == t
    ensures UndoPossible(t) ==> r.historyIndex == t.historyIndex - 1 && r.state == t.history[r.historyIndex]
    ensures UndoPossible(t) ==> RedoPossible(r)
  {
    if UndoPossible(t) then
      var i := t.historyIndex - 1;
      t.(historyIndex := i, state := t.history[i])
    else
      t
  }

  /** redo: when snapshots lie after the cursor, step it forward and restore the snapshot under it. */
  function Redone(t: Timeline, maxHistorySize: int): (r: Timeline)
    requires ValidTimeline(t, maxHistorySize)
    ensures ValidTimeline(r, maxHistorySize)
    ensures r.history == t.history
    ensures !RedoPossible(t) ==> r == t
    ensures RedoPossible(t) ==> r.historyIndex == t.historyIndex + 1 && r.state == t.history[r.historyIndex]
    ensures RedoPossible(t) && t.historyIndex >= 0 ==> UndoPossible(r)
  {
    if RedoPossible(t) then
      var i := t.historyIndex + 1;
      t.(historyIndex := i, state := t.history[i])
    else
      t
  }

  /**
   * What dispatch and setState do to the timeline: push the current document,
   * then commit the handler's result unless it is undefined (`None`).
   */
  function Dispatched(t: Timeline, result: Option<Node>, maxHistorySize: int): (r: Timeline)
    requires ValidTimeline(t, maxHistorySize)
    ensures ValidTimeline(r, maxHistorySize)
    ensures r.state == result.GetOr(t.state)
    ensures r.history == Pushed(t, maxHistorySize).history
    ensures r.historyIndex == |r.history| - 1
  {
    var pushed := Pushed(t, maxHistorySize);
    if result.Some? then pushed.(state := result.value) else pushed
  }

  /** `k` undos in a row. */
  function UndoTimes(t: Timeline, k: nat, maxHistorySize: int): (r: Timeline)
    requires ValidTimeline(t, maxHistorySize)
    ensures ValidTimeline(r, maxHistorySize)
  {
    if k == 0 then t else Undone(UndoTimes(t, k - 1, maxHistorySize), maxHistorySize)
  }

  /** `k` redos in a row. */
  function RedoTimes(t: Timeline, k: nat, maxHistorySize: int): (r: Timeline)
    requires ValidTimeline(t, maxHistorySize)
    ensures ValidTimeline(r, maxHistorySize)
    decreases k
  {
    if k == 0 then t else RedoTimes(Redone(t, maxHistorySize), k - 1, maxHistorySize)
  }

  /** Undos keep the snapshots and move the cursor back by one each, restoring the snapshot under it. */
  lemma {:induction false} UndoTimesMovesCursor(t: Timeline, k: nat, maxHistorySize: int)
    requires ValidTimeline(t, maxHistorySize)
    requires k <= t.historyIndex
    ensures UndoTimes(t, k, maxHistorySize).history == t.history
    ensures UndoTimes(t, k, maxHistorySize).historyIndex == t.historyIndex - k
    ensures k >= 1 ==> UndoTimes(t, k, maxHistorySize).state == t.history[t.historyIndex - k]
  {
    if k > 0 {
      UndoTimesMovesCursor(t, k - 1, maxHistorySize);
    }
  }

  /**
   * `k` undos followed by `k` redos (k at most the cursor) come back to the
   * same snapshots and cursor, with the document under the cursor restored.
   */
  lemma {:induction false} UndoThenRedoReturns(t: Timeline, k: nat, maxHistorySize: int)
    requires ValidTimeline(t, maxHistorySize)
    requires 1 <= k <= t.historyIndex
    ensures RedoTimes(UndoTimes(t, k, maxHistorySize), k, maxHistorySize)
      == t.(state := t.history[t.historyIndex])
  {
    var s := UndoTimes(t, k - 1, maxHistorySize);
    UndoTimesMovesCursor(t, k - 1, maxHistorySize);
    var back := Redone(Undone(s, maxHistorySize), maxHistorySize);
    assert UndoTimes(t, k, maxHistorySize) == Undone(s, maxHistorySize);
    assert RedoTimes(UndoTimes(t, k, maxHistorySize), k, maxHistorySize) == RedoTimes(back, k - 1, maxHistorySize);
    if k == 1 {
      assert s == t;
      assert back == t.(state := t.history[t.historyIndex]);
    } else {
      assert back == s;
      UndoThenRedoReturns(t, k - 1, maxHistorySize);
    }
  }


  /**
   * When the snapshot under the cursor is the current document (the intended
   * discipline), `k` undos followed by `k` redos give back the very same timeline.
   */
  lemma SyncedUndoThenRedoIsIdentity(t: Timeline, k: nat, maxHistorySize: int)
    requires ValidTimeline(t, maxHistorySize) && Synced(t)
    requires k <= t.historyIndex
    ensures RedoTimes(UndoTimes(t, k, maxHistorySize), k, maxHistorySize) == t
  {
    if k >= 1 {
      UndoThenRedoReturns(t, k, maxHistorySize);
    }
  }

  // ----- undo after dispatch: as written and as intended ----------------------

  /**
   * As written: on a fresh runtime, one dispatch leaves a single snapshot under
   * a cursor of 0, so undo is disabled and the action cannot be reverted.
   */
  lemma UndoCannotRevertFirstDispatch(initialData: Node, result: Node, maxHistorySize: int)
    requires maxHistorySize >= 1
    ensures var t := Dispatched(InitialTimeline(initialData), Some(result), maxHistorySize);
      && t.state == result
      && t.history == [initialData]
      && !UndoPossible(t)
      && Undone(t, maxHistorySize) == t
  {
  }

  /**
   * As written: a committed result that differs from every earlier document
   * is stored in no snapshot, so once undo has left it no redo comes back to it.
   */
  lemma {:induction false} DispatchedResultIsNotSnapshotted(t: Timeline, result: Node, maxHistorySize: int)
    requires ValidTimeline(t, maxHistorySize)
    requires result != t.state && result !in t.history
    ensures var r := Dispatched(t, Some(result), maxHistorySize);
      r.state == result && result !in r.history
  {
    var kept := t.history[..t.historyIndex + 1] + [t.state];
    assert forall x :: x in kept ==> x == t.state || x in t.history;
    var r := Dispatched(t, Some(result), maxHistorySize);
    assert r.history == kept || r.history == kept[1..];
    assert forall x :: x in kept[1..] ==> x in kept;
  }

  /** In the intended discipline the snapshot under the cursor is the current document. */
  predicate Synced(t: Timeline) {
    0 <= t.historyIndex < |t.history| && t.history[t.historyIndex] == t.state
  }

  /** Intended construction: the initial document is the first snapshot. */
  function InitialSynced(initialData: Node): (t: Timeline)
    ensures Synced(t) && t.state == initialData
    ensures forall m: int :: m >= 1 ==> ValidTimeline(t, m)
  {
    Timeline(initialData, [initialData], 0)
  }

  /** Intended dispatch: commit the handler's result first, then push the new document. */
  function Committed(t: Timeline, result: Option<Node>, maxHistorySize: int): (r: Timeline)
    requires ValidTimeline(t, maxHistorySize) && maxHistorySize >= 1
    ensures ValidTimeline(r, maxHistorySize) && Synced(r)
    ensures r.state == result.GetOr(t.state)
  {
    Pushed(t.(state := result.GetOr(t.state)), maxHistorySize)
  }

  /** Undo and redo keep the intended discipline. */
  lemma UndoRedoKeepSynced(t: Timeline, maxHistorySize: int)
    requires ValidTimeline(t, maxHistorySize) && Synced(t)
    ensures Synced(Undone(t, maxHistorySize)) && Synced(Redone(t, maxHistorySize))
  {
  }

  /**
   * Intended behaviour: with room for two snapshots, undo right after a
   * dispatch restores the document from before it, and redo then restores the
   * dispatched result.
   */
  lemma {:induction false} CommittedUndoRedo(t: Timeline, result: Option<Node>, maxHistorySize: int)
    requires ValidTimeline(t, maxHistorySize) && Synced(t) && maxHistorySize >= 2
    ensures var r := Committed(t, result, maxHistorySize);
      && UndoPossible(r)
      && Undone(r, maxHistorySize).state == t.state
      && Redone(Undone(r, maxHistorySize), maxHistorySize).state == r.state
  {
    var s := t.(state := result.GetOr(t.state));
    var r := Pushed(s, maxHistorySize);
    if t.historyIndex + 2 <= maxHistorySize {
      assert r.history[..r.historyIndex][r.historyIndex - 1] == t.history[..t.historyIndex + 1][t.historyIndex];
    } else {
      assert r.history[..r.historyIndex][r.historyIndex - 1] == t.history[1..t.historyIndex + 1][t.historyIndex - 1];
    }
  }

  // ----- the runtime object -------------------------------------------------

  /** An action as the host issues it: a handler name and its parameters. */
  datatype Action<P> = Action(actionType: string, params: P)

  /** What dispatch and importJSON throw. */
  datatype RuntimeError = UnknownAction(actionType: string) | InvalidJson

  /**
   * The runtime. `P` is the type of action parameters; `L` stands for a
   * listener callback, of which only the identity is kept. `delivered` records
   * the document handed to the listeners by every notification.
   */
  class MindmapRuntime<P, L(==)> {
    var state: Node
    const actions: map<string, (Node, P) -> Option<Node>>
    const maxHistorySize: int
    var history: seq<Node>
    var historyIndex: int
    var listeners: set<L>
    var delivered: seq<Node>

    /** The document, snapshots and cursor of this runtime. */
    function Current(): Timeline
      reads this
    {
      Timeline(state, history, historyIndex)
    }

    ghost predicate Valid()
      reads this
    {
      ValidTimeline(Current(), maxHistorySize)
    }

    /** `maxHistorySize` defaults to 50 when it is not given. */
    constructor (initialData: Node, actions: map<string, (Node, P) -> Option<Node>>, maxHistorySize: Option<int>)
      ensures Valid()
      ensures Current() == InitialTimeline(initialData)
      ensures this.actions == actions && this.maxHistorySize == maxHistorySize.GetOr(DefaultMaxHistorySize)
      ensures listeners == {} && delivered == []
    {
      state := initialData;
      this.actions := actions;
      this.maxHistorySize := maxHistorySize.GetOr(DefaultMaxHistorySize);
      history := [];
      historyIndex := -1;
      listeners := {};
      delivered := [];
    }

    /** getState: the current document, which is the timeline's document. */
    function GetState(): (s: Node)
      reads this
      ensures s == Current().state
    {
      state
    }

    /** pushHistory, in place. */
    method PushHistory()
      requires Valid()
      modifies this`history, this`historyIndex
      ensures Valid()
      ensures Current() == Pushed(old(Current()), maxHistorySize)
    {
      history := history[..historyIndex + 1];
      history := history + [state];
      if |history| > maxHistorySize {
        history := history[1..];
      } else {
        historyIndex := historyIndex + 1;
      }
    }

    /** notifyListeners: every listener is handed the current document. */
    method NotifyListeners()
      modifies this`delivered
      ensures delivered == old(delivered) + [state]
    {
      delivered := delivered + [state];
    }

    /** setState: push history, replace the document, notify. */
    method SetState(data: Node)
      requires Valid()
      modifies this
      ensures Valid()
      ensures Current() == Dispatched(old(Current()), Some(data), maxHistorySize)
      ensures delivered == old(delivered) + [data] && listeners == old(listeners)
    {
      PushHistory();
      state := data;
      NotifyListeners();
    }

    /**
     * dispatch: an unknown action type throws before anything changes;
     * otherwise push history, run the handler on the current document, commit
     * its result unless it is undefined, notify, and return the result.
     */
    method Dispatch(action: Action<P>) returns (r: Result<Option<Node>, RuntimeError>)
      requires Valid()
      modifies this
      ensures Valid()
      ensures action.actionType !in actions ==>
        r == Failure(UnknownAction(action.actionType)) && unchanged(this)
      ensures action.actionType in actions ==>
        && r == Success(actions[action.actionType](old(state), action.params))
        && Current() == Dispatched(old(Current()), r.value, maxHistorySize)
        && delivered == old(delivered) + [state]
        && listeners == old(listeners)
    {
      if action.actionType !in actions {
        return Failure(UnknownAction(action.actionType));
      }
      var handler := actions[action.actionType];
      PushHistory();
      var result := handler(state, action.params);
      if result.Some? {
        state := result.value;
      }
      NotifyListeners();
      return Success(result);
    }

    /**
     * Intended construction, used with `DispatchCommitted`: the initial
     * document is also the first snapshot.
     */
    constructor WithInitialSnapshot(initialData: Node, actions: map<string, (Node, P) -> Option<Node>>, maxHistorySize: Option<int>)
      requires maxHistorySize.GetOr(DefaultMaxHistorySize) >= 1
      ensures Valid() && Synced(Current())
      ensures Current() == InitialSynced(initialData)
      ensures this.actions == actions && this.maxHistorySize == maxHistorySize.GetOr(DefaultMaxHistorySize)
      ensures listeners == {} && delivered == []
    {
      state := initialData;
      this.actions := actions;
      this.maxHistorySize := maxHistorySize.GetOr(DefaultMaxHistorySize);
      history := [initialData];
      historyIndex := 0;
      listeners := {};
      delivered := [];
    }

    /**
     * Intended dispatch: run the handler, commit its result unless it is
     * undefined, then push the new document, so that the snapshot under the
     * cursor is always the current document and undo reverts this action.
     */
    method DispatchCommitted(action: Action<P>) returns (r: Result<Option<Node>, RuntimeError>)
      requires Valid() && maxHistorySize >= 1
      modifies this
      ensures Valid()
      ensures action.actionType !in actions ==>
        r == Failure(UnknownAction(action.actionType)) && unchanged(this)
      ensures action.actionType in actions ==>
        && r == Success(actions[action.actionType](old(state), action.params))
        && Current() == Committed(old(Current()), r.value, maxHistorySize)
        && Synced(Current())
        && delivered == old(delivered) + [state]
        && listeners == old(listeners)
    {
      if action.actionType !in actions {
        return Failure(UnknownAction(action.actionType));
      }
      var handler := actions[action.actionType];
      var result := handler(state, action.params);
      if result.Some? {
        state := result.value;
      }
      PushHistory();
      NotifyListeners();
      return Success(result);
    }

    /** canUndo: an undo would move the cursor. */
    function CanUndo(): (b: bool)
      reads this
      requires Valid()
      ensures b <==> Undone(Current(), maxHistorySize).historyIndex != historyIndex
    {
      historyIndex > 0
    }

    /** canRedo: a redo would move the cursor. */
    function CanRedo(): (b: bool)
      reads this
      requires Valid()
      ensures b <==> Redone(Current(), maxHistorySize).historyIndex != historyIndex
    {
      historyIndex < |history| - 1
    }

    /** undo, in place; listeners are notified only when the cursor moved. */
    method Undo()
      requires Valid()
      modifies this
      ensures Valid()
      ensures Current() == Undone(old(Current()), maxHistorySize)
      ensures delivered == if old(CanUndo()) then old(delivered) + [state] else old(delivered)
      ensures listeners == old(listeners)
    {
      if CanUndo() {
        historyIndex := historyIndex - 1;
        state := history[historyIndex];
        NotifyListeners();
      }
    }

    /** redo, in place; listeners are notified only when the cursor moved. */
    method Redo()
      requires Valid()
      modifies this
      ensures Valid()
      ensures Current() == Redone(old(Current()), maxHistorySize)
      ensures delivered == if old(CanRedo()) then old(delivered) + [state] else old(delivered)
      ensures listeners == old(listeners)
    {
      if CanRedo() {
        historyIndex := historyIndex + 1;
        state := history[historyIndex];
        NotifyListeners();
      }
    }

    /**
     * importJSON on an already parsed document: `None` stands for text that
     * does not parse, which throws and changes nothing; a parsed document is
     * handed to setState.
     */
    method ImportJson(parsed: Option<Node>) returns (r: Result<(), RuntimeError>)
      requires Valid()
      modifies this
      ensures Valid()
      ensures parsed.None? ==> r == Failure(InvalidJson) && unchanged(this)
      ensures parsed.Some? ==>
        && r == Success(())
        && Current() == Dispatched(old(Current()), parsed, maxHistorySize)
        && delivered == old(delivered) + [parsed.value]
        && listeners == old(listeners)
    {
      if parsed.None? {
        return Failure(InvalidJson);
      }
      SetState(parsed.value);
      return Success(());
    }

    /** subscribe: register a listener (a set: registering it again changes nothing). */
    method Subscribe(listener: L)
      modifies this`listeners
      ensures listeners == old(listeners) + {listener}
    {
      listeners := listeners + {listener};
    }

    /** The function subscribe returns: remove the listener. */
    method Unsubscribe(listener: L)
      modifies this`listeners
      ensures listeners == old(listeners) - {listener}
    {
      listeners := listeners - {listener};
    }
  }
}
