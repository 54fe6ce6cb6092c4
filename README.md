# LunaDB transaction formatter for ProseMirror, modelled in Dafny

The `lunadb-prosemirror` plugin keeps a ProseMirror editor's document in sync with a LunaDB
document. On each sync it diffs a locally cached *shadow* copy of the document's field
against the editor's current document, using jsondiffpatch. It then hands the resulting
*delta* to `LunaDBTransactionFormatter`. The formatter walks the delta depth first and keeps
a stack of path segments. For every added, modified or deleted node it appends one
path-addressed operation to a LunaDB `DocumentTransaction`: `insert`, `replace` or `delete`.

This project models that formatter and the plugin's "load first" guard:

- `json.dfy`: `Json.Value`, the tree values operations carry.
- `deltas.dfy`: `Deltas.Delta`, one constructor per delta kind. The kinds are unchanged,
  added, modified, deleted, text diff, moved, move destination, and an object or array node.
  A node's children are an ordered sequence of `(leftKey, child)` pairs. `Deltas.Segment` is
  one path-stack element: a key or an index.
- `paths.dfy`: how `currentPath()` renders the stack. This is
  `basePointer + "/" + path.join("/")`, with numbers written in decimal.
- `emission.dfy`: the specification of the walk as functions of the delta.
  - `Emitted` and `Transaction` give the operation log.
  - `Sites` is a reference list of the changes a delta holds, each with its key chain.
  - `Reaches` says that a key chain leads from the root to a node.
  - `Quiet` says that a delta holds no change.
  - Lemmas connect these functions.
- `formatter.dfy`: the class `TransactionFormatter`. Its fields are `txn` (the transaction,
  a sequence that operations are appended to), `basePointer` and `path` (the path stack).
  Its methods are the formatter's hooks and the traversal. Each traversal method is proved
  against `Emitted`.
- `plugin.dfy`: the class `ProseMirrorPlugin`, whose `shadowDocument` may be absent.
  `DiffDocument` and `SyncDocument` fail with "Document must be loaded before we can operate
  on it" and produce no transaction until a document has been loaded. The structural differ
  is a function parameter.

Two behaviours of the code are worth stating outright, and the model keeps both:

- A text-diff node emits no operation. `format_textdiff` only parses and logs the patch, and
  the conversion to string splices is an unwritten `todo`.
- An added, modified or deleted delta at the root does emit an operation. Its address is the
  base pointer followed by a single trailing "/".

## Model

| member | source | states |
|---|---|---|
| Paths.DecimalString | lib/index.ts:100 | an array index on the path stack joins as non-empty decimal digits with no leading zero |
| Paths.DecimalRoundTrip | lib/index.ts:100 | the decimal text of an index reads back as that index |
| Paths.JoinPush | lib/index.ts:100 | joining one more part appends "/" and the part, or gives the part alone after an empty join |
| Paths.RenderPush | lib/index.ts:99-101 | the address after pushing a segment is the old address extended by that segment's text, with a "/" unless the stack was empty |
| Paths.JoinInjective | lib/index.ts:100 | parts without "/" are determined by their join, given how many there are |
| Paths.RenderInjective | lib/index.ts:99-101 | two same-depth paths whose keys hold no "/" have the same address only if their segment texts are equal |
| Paths.KeySlashCollision | lib/index.ts:100 | keys are not escaped: a key "a/b" gets the same address as key "a" then key "b" |
| Paths.EmptyKeyCollision | lib/index.ts:100 | an empty key one level down gets the same address as the root |
| Formatter.TransactionFormatter.constructor | lib/index.ts:90-94 | a new formatter holds an empty transaction, the document field as base pointer, and an empty path |
| Formatter.TransactionFormatter.CurrentPath | lib/index.ts:99-101 | every address starts with the base pointer and "/"; with an empty stack it is exactly the base pointer and a trailing "/" |
| Formatter.TransactionFormatter.NodeBegin | lib/index.ts:110-119 | entering a child pushes exactly its leftKey and leaves the transaction alone |
| Formatter.TransactionFormatter.NodeEnd | lib/index.ts:121-130 | leaving a child pops the last segment; popping an empty stack leaves it empty, as `Array.prototype.pop` does |
| Formatter.TransactionFormatter.FormatAdded | lib/index.ts:132-140 | an added node appends exactly one insert of the whole new value at the current address |
| Formatter.TransactionFormatter.FormatModified | lib/index.ts:142-150 | a modified node appends exactly one replace with the new value; the old value is not used |
| Formatter.TransactionFormatter.FormatDeleted | lib/index.ts:152-160 | a deleted node appends exactly one delete at the current address, with no value, whatever subtree was deleted |
| Formatter.TransactionFormatter.Recurse | lib/index.ts:104-173 | a visit pushes its key, dispatches on the kind and pops the key: the path afterwards equals the path before, and the transaction grows by exactly `Emitted` at the pushed position |
| Formatter.TransactionFormatter.FormatNode | lib/index.ts:175-183 | an object or array node emits nothing itself, only its children's operations, in the order the children are visited |
| Formatter.TransactionFormatter.Format | lib/index.ts:185-191 | formatting starts from an empty path, ends with an empty path, and returns the formatter's own transaction, extended by exactly `Transaction(delta, basePointer)` |
| Emission.NodeEmission | lib/index.ts:104-173 | unchanged, moved, move-destination and text-diff nodes emit nothing; an added, modified or deleted node emits its one insert, replace or delete at the address of its path |
| Emission.EmittedIsSites | lib/index.ts:110-191 | the walk emits exactly one operation per change in the delta, in visit order, each addressed by the visit path followed by that change's key chain |
| Emission.SiteIsReachable | lib/index.ts:118-160 | every listed change is reached from the delta's root by following its key chain |
| Emission.ReachableIsSite | lib/index.ts:118-160 | every added, modified or deleted node reachable by a key chain is listed, under that chain |
| Emission.SilentIffQuiet | lib/index.ts:104-191 | the walk emits nothing if and only if no node of the delta is added, modified or deleted |
| Emission.NestedReplaceExample | lib/index.ts:96-191 | replacing `b` inside `a` of field `doc` yields exactly one `replace("doc/a/b", "bar")` |
| Emission.RootChangeExample | lib/index.ts:96-149 | a modification at the delta's root yields one replace addressed `"doc/"` |
| Plugin.ProseMirrorPlugin.constructor | lib/index.ts:32-40 | a new plugin has no shadow document |
| Plugin.ProseMirrorPlugin.LoadDocument | lib/index.ts:42-47 | loading keeps the document as the shadow copy and returns the edited field's contents |
| Plugin.ProseMirrorPlugin.DiffDocument | lib/index.ts:60-73 | fails with "document not loaded" and no transaction exactly when no shadow document is loaded; otherwise returns the formatted transaction of the differ's delta from the shadow field to the current document |
| Plugin.ProseMirrorPlugin.SyncDocument | lib/index.ts:49-58 | the transaction a sync would submit: the same guard, then `DiffDocument`'s transaction |

## Left out

- The jsondiffpatch differ and its configuration (`detectMove: false`, `minLength: 0`, lib/index.ts:16-24). It belongs to an external library. The delta is an input, and the differ is a function parameter of `DiffDocument`.
- The internals of jsondiffpatch's `BaseFormatter.recurse` and `formatDeltaChildren` cannot be seen. `Recurse` and `FormatNode` do only "push `leftKey`, dispatch on the child, pop", over the children in the order the `Node` lists them. How jsondiffpatch sorts array keys is not modelled: the children sequence is the visit order.
- A root delta that is `undefined` (no difference) is modelled as `Unchanged`. Both emit nothing. A delta of an unknown kind cannot be represented, so the formatter's error for it is not modelled.
- `format_textdiff` parses the patch with diff-match-patch and logs it to the console (lib/index.ts:169-170). It emits no operation, and the model emits none. The character-level splice conversion does not exist in the code (a `todo`), so it is not modelled.
- Network I/O in `loadDocument` and `syncDocument` is not modelled: the client's fetch, its submission of the transaction, and its refresh of the shadow copy. `LoadDocument` takes the fetched document as a parameter. `SyncDocument` returns the transaction it would submit.
- ProseMirror serialisation is not modelled: `Node.fromJSON` and `currentState.doc.toJSON()`. The editor's document is a `Json.Value` parameter, and `LoadDocument` returns the field's value rather than a ProseMirror node.
- `createLunaDBPlugin` (lib/index.ts:194-209) is plugin lifecycle glue with no logic of its own.
- How a `DocumentTransaction` applies or submits operations belongs to the client library. A transaction is the sequence of operations appended to it, and `doc.newTransaction()` is an empty one.
- JSON numbers are modelled as integers. Floating-point values are carried, never inspected, by the formatter.
