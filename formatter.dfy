/**
 * The transaction formatter: a depth-first walk over a delta that keeps a stack of path
 * segments and appends one path-addressed operation per added, modified or deleted node.
 */
module Formatter {
  import opened Json
  import opened Results
  import opened Deltas
  import opened Paths
  import opened Emission

  /** The segments a visit pushes: its key, or none for the root. */
  function KeyPath(key: Option<Segment>): seq<Segment> {
    match key
    case Some(k) => [k]
    case None => []
  }

  /**
   * A formatter together with the context its `Format` prepares: the transaction it appends
   * to, the base pointer addresses start with, and the path stack of the walk.
   */
  class TransactionFormatter {
    var txn: seq<Op>
    const basePointer: string
    var path: seq<Segment>

    /** A formatter for the document field `objectKey`, with a new, empty transaction. */
    constructor(objectKey: string)
      ensures txn == [] && basePointer == objectKey && path == []
    {
      txn := [];
      basePointer := objectKey;
      path := [];
    }

    /**
     * The address of the node being visited: the base pointer, a "/", and the path stack
     * joined by "/"; at the root, the base pointer and a trailing "/".
     */
    function CurrentPath(): (p: string)
      reads this
      ensures |p| > |basePointer| && p[..|basePointer| + 1] == basePointer + "/"
      ensures path == [] ==> p == basePointer + "/"
    {
      var p := Render(basePointer, path);
      assert p == basePointer + "/" + Join(Texts(path));
      p
    }

    /** Entering a child pushes its leftKey and lengthens the address by that key. */
    method NodeBegin(leftKey: Segment)
      modifies this`path
      ensures path == old(path) + [leftKey]
      ensures CurrentPath()
           == old(CurrentPath()) + (if old(path) == [] then "" else "/") + SegmentText(leftKey)
    {
      path := path + [leftKey];
      RenderPush(basePointer, old(path), leftKey);
    }

    /** Leaving a child pops the last segment; popping an empty stack leaves it empty. */
    method NodeEnd()
      modifies this`path
      ensures path == if old(path) == [] then [] else old(path)[..|old(path)| - 1]
    {
      if path != [] {
        path := path[..|path| - 1];
      }
    }

    /** An added node: one insert of the whole new value at the current address. */
    method FormatAdded(newValue: Value)
      modifies this`txn
      ensures txn == old(txn) + [Insert(CurrentPath(), newValue)]
    {
      txn := txn + [Insert(CurrentPath(), newValue)];
    }

    /** A modified node: one replace with the new value; the old value is not used. */
    method FormatModified(oldValue: Value, newValue: Value)
      modifies this`txn
      ensures txn == old(txn) + [Replace(CurrentPath(), newValue)]
    {
      txn := txn + [Replace(CurrentPath(), newValue)];
    }

    /** A deleted node: one delete at the current address, whatever the deleted value holds. */
    method FormatDeleted(oldValue: Value)
      modifies this`txn
      ensures txn == old(txn) + [Delete(CurrentPath())]
    {
      txn := txn + [Delete(CurrentPath())];
    }

    /**
     * One visit: push the key (none at the root), dispatch on the node's kind, pop the key.
     * The path stack is the same afterwards, and the transaction has grown by exactly what
     * the node emits at that position.
     */
    method Recurse(d: Delta, key: Option<Segment>)
      modifies this`path, this`txn
      ensures path == old(path)
      ensures txn == old(txn) + Emitted(d, old(path) + KeyPath(key), basePointer)
      decreases d, 1
    {
      if key.Some? {
        NodeBegin(key.value);
      }
      assert path == old(path) + KeyPath(key);
      match d {
        case Unchanged =>
        case Added(v) => FormatAdded(v);
        case Modified(l, r) => FormatModified(l, r);
        case Deleted(l) => FormatDeleted(l);
        case TextDiff(_) =>
          // The patch text is parsed and logged; no operation is emitted.
        case Moved(_) =>
        case MoveDestination =>
        case Node(_, _) => FormatNode(d);
      }
      if key.Some? {
        assert (old(path) + [key.value])[..|old(path)|] == old(path);
        NodeEnd();
      }
    }

    /** An object or array node: no operation of its own, its children visited in order. */
    method FormatNode(d: Delta)
      requires d.Node?
      modifies this`path, this`txn
      ensures path == old(path)
      ensures txn == old(txn) + Emitted(d, old(path), basePointer)
      decreases d, 0
    {
      var i := 0;
      while i < |d.children|
        invariant 0 <= i <= |d.children|
        invariant path == old(path)
        invariant txn == old(txn) + EmittedChildren(d, i, path, basePointer)
      {
        var c := d.children[i];
        assert c in d.children;
        Recurse(c.delta, Some(c.leftKey));
        i := i + 1;
      }
    }

    /**
     * Formats a whole delta: starts from an empty path stack, walks from the root, and
     * returns the formatter's own transaction holding exactly the emitted operations.
     */
    method Format(d: Delta) returns (t: seq<Op>)
      modifies this`path, this`txn
      ensures path == []
      ensures t == txn && txn == old(txn) + Transaction(d, basePointer)
    {
      path := [];
      Recurse(d, None);
      assert [] + KeyPath(None) == [];
      t := txn;
    }
  }
}
