/**
 * The delta a structural differ produces between an old and a new tree, as the formatter
 * receives it. Each node has exactly one kind; only `Node` carries children, each under the
 * key (object) or index (array) it has in the OLD tree, its `leftKey`.
 */
module Deltas {
  import opened Json
  import opened Results

  /** One element of the path stack: an object key or an array index. */
  datatype Segment = Key(name: string) | Index(i: nat)

  datatype NodeType = ObjectNode | ArrayNode

  datatype Delta =
    | Unchanged                                   // no delta at this position
    | Added(newValue: Value)                      // [new]
    | Modified(oldValue: Value, newValue: Value)  // [old, new]
    | Deleted(oldValue: Value)                    // [old, 0, 0]
    | TextDiff(patch: string)                     // [patchText, 0, 2]
    | Moved(destination: nat)                     // ['', destination, 3]
    | MoveDestination                             // the target slot of a move
    | Node(nodeType: NodeType, children: seq<Child>)

  /** A child of an object or array node, in the order the delta lists it. */
  datatype Child = Child(leftKey: Segment, delta: Delta)

  /** The three kinds of change a formatter turns into an operation. */
  datatype Change = Insertion(value: Value) | Replacement(value: Value) | Deletion

  /** The change a node stands for by itself, or None for the kinds that emit nothing. */
  function ChangeOf(d: Delta): Option<Change> {
    match d
    case Added(v) => Some(Insertion(v))
    case Modified(_, v) => Some(Replacement(v))
    case Deleted(_) => Some(Deletion)
    case _ => None
  }
}
