/**
 * The editor plugin's use of the formatter: diffing the editor's document against the
 * shadow copy of the last synced document, which must have been loaded first.
 */
module Plugin {
  import opened Json
  import opened Results
  import opened Deltas
  import opened Emission
  import opened Formatter

  /** The shadow document: the last synced copy of the remote document, by top-level field. */
  datatype Document = Document(fields: map<string, Value>)

  /** The value of a top-level field, or None (JavaScript's undefined) when it is absent. */
  function Get(doc: Document, key: string): Option<Value> {
    if key in doc.fields then Some(doc.fields[key]) else None
  }

  /** The one error the plugin raises itself. */
  datatype Error = DocumentNotLoaded

  function Message(e: Error): string {
    match e
    case DocumentNotLoaded => "Document must be loaded before we can operate on it"
  }

  /**
   * The plugin's state: which document and which field of it the editor edits, and the
   * shadow copy, absent until a document has been loaded.
   */
  class ProseMirrorPlugin {
    const documentId: string
    const objectKey: string
    var shadowDocument: Option<Document>

    constructor(documentId: string, objectKey: string)
      ensures this.documentId == documentId && this.objectKey == objectKey
      ensures shadowDocument == None
    {
      this.documentId := documentId;
      this.objectKey := objectKey;
      shadowDocument := None;
    }

    /**
     * Keeps the document the store returned as the shadow copy and gives back the edited
     * field's contents.
     */
    method LoadDocument(doc: Document) returns (contents: Option<Value>)
      modifies this`shadowDocument
      ensures shadowDocument == Some(doc)
      ensures contents == Get(doc, objectKey)
    {
      shadowDocument := Some(doc);
      contents := Get(doc, objectKey);
    }

    /**
     * The transaction that turns the shadow copy's field into `currentDoc`: `diff` stands
     * for the structural differ. Before a load it fails and produces no transaction.
     */
    method DiffDocument(currentDoc: Value, diff: (Option<Value>, Value) -> Delta)
      returns (r: Result<seq<Op>, Error>)
      ensures shadowDocument.None? <==> r.Failure?
      ensures r.Failure? ==> r.error == DocumentNotLoaded
      ensures shadowDocument.Some? ==>
        r == Success(Transaction(diff(Get(shadowDocument.value, objectKey), currentDoc), objectKey))
    {
      if shadowDocument.None? {
        return Failure(DocumentNotLoaded);
      }
      var baseDoc := Get(shadowDocument.value, objectKey);
      var docDiff := diff(baseDoc, currentDoc);
      var formatter := new TransactionFormatter(objectKey);
      var txn := formatter.Format(docDiff);
      assert [] + Transaction(docDiff, objectKey) == Transaction(docDiff, objectKey);
      return Success(txn);
    }

    /**
     * The transaction a sync submits to the store; before a load it fails before anything
     * is diffed or sent.
     */
    method SyncDocument(currentDoc: Value, diff: (Option<Value>, Value) -> Delta)
      returns (r: Result<seq<Op>, Error>)
      ensures shadowDocument.None? <==> r.Failure?
      ensures r.Failure? ==> r.error == DocumentNotLoaded
      ensures shadowDocument.Some? ==>
        r == Success(Transaction(diff(Get(shadowDocument.value, objectKey), currentDoc), objectKey))
    {
      if shadowDocument.None? {
        return Failure(DocumentNotLoaded);
      }
      r := DiffDocument(currentDoc, diff);
    }
  }
}
