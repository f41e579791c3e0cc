/** The five request handlers of the processing pipeline and the results
    table they share: Intake (upload), Extraction (OCR, triggered by the
    object-created event of the document store), Classification and
    Summarization (each triggered by the previous stage's handoff), and the
    read-only query handler. The external services are parameters: the
    text-detection blocks, the language model's reply text, the generated
    document id and the clock readings; the document-store write and each
    handoff invocation are returned as values. */
module Stack {
  import opened Text
  import opened Records
  import opened Aggregation

  type byte = bv8

  /** The parsed `body` of a handler's HTTP response. */
  datatype Body =
    | NoBody
    | Ack(documentId: string, status: string)   // {documentId, status}
    | Item(record: Record)                      // one record
    | EmptyObject                               // {}
    | Items(records: set<Record>)               // a scan of the whole table
    | ErrorMessage(message: string)             // {error: <fixed message>}
    | ExceptionMessage                          // {error: str(e)}

  datatype Response = Response(statusCode: int, body: Body)

  /** The JSON request body of an upload: `file` holds the document bytes
      when present and valid base64 (its decoding is not modelled). */
  datatype UploadBody = UploadBody(file: Option<seq<byte>>, fileName: Option<string>, contentType: Option<string>)

  /** The object written to the document store; writing it is what
      triggers Extraction. */
  datatype StoredObject = StoredObject(key: string, content: seq<byte>, contentType: string)

  /** The payload of an asynchronous stage-to-stage invocation. */
  datatype Handoff = Handoff(documentId: string, timestamp: int, text: string)

  /** The request sent to the language model service. */
  datatype ModelRequest = ModelRequest(modelId: string, maxTokens: nat, prompt: string)

  /** The fields of an API event the query handler reads. */
  datatype ApiEvent = ApiEvent(httpMethod: Option<string>, pathParameters: Option<map<string, string>>)

  const DefaultContentType := "application/octet-stream"
  const ModelId := "global.anthropic.claude-sonnet-4-20250514-v1:0"
  const ClassificationMaxTokens := 100
  const SummaryMaxTokens := 200
  /** The fixed confidence Classification stores; no score is computed. */
  const ClassificationConfidence := 0.85
  const ClassificationTextLimit := 2000
  const SummaryTextLimit := 3000

  // ---------------------------------------------------------------------
  // Storage keys
  // ---------------------------------------------------------------------

  /** The document-store key `{documentId}/{fileName}`. */
  function StorageKey(documentId: string, fileName: string): (k: string)
    ensures |k| == |documentId| + 1 + |fileName|
    ensures k[..|documentId|] == documentId && k[|documentId|] == '/' && k[|documentId| + 1..] == fileName
  {
    documentId + "/" + fileName
  }

  /** Extraction recovers the document id as the key's first `/`-segment;
      that gives back the id Intake used, as long as the id itself has no
      `/` (a generated UUID never does). */
  lemma StorageKeyRoundTrip(documentId: string, fileName: string)
    requires '/' !in documentId
    ensures FirstSegment(StorageKey(documentId, fileName), '/') == documentId
  {
    assert StorageKey(documentId, fileName) == documentId + ['/'] + fileName;
    FirstSegmentOfJoin(documentId, '/', fileName);
  }

  // ---------------------------------------------------------------------
  // Prompts
  // ---------------------------------------------------------------------

  const ClassificationHead :=
    "Classify the following document text into one of these categories:\n" +
    "        - Invoice\n        - Contract\n        - Report\n        - Letter\n" +
    "        - Form\n        - Other\n        \n        Document text:\n        "
  const ClassificationTail := "\n        \n        Respond with only the category name."

  const SummaryHead :=
    "Provide a concise summary of the following document in 2-3 sentences:\n        \n        "
  const SummaryTail := "\n        \n        Summary:"

  /** The classification prompt embeds the first 2000 characters of the
      text (all of it when shorter) between the fixed head and tail. */
  function ClassificationPrompt(text: string): string
  {
    ClassificationHead + Take(text, ClassificationTextLimit) + ClassificationTail
  }

  lemma ClassificationPromptEmbeds(text: string)
    ensures var p := ClassificationPrompt(text);
      var n := Min(|text|, ClassificationTextLimit);
      |p| == |ClassificationHead| + n + |ClassificationTail| &&
      p[..|ClassificationHead|] == ClassificationHead &&
      p[|ClassificationHead|..|ClassificationHead| + n] == text[..n] &&
      p[|ClassificationHead| + n..] == ClassificationTail
    ensures |ClassificationPrompt(text)| <= |ClassificationHead| + ClassificationTextLimit + |ClassificationTail|
  {
  }

  /** The summary prompt embeds the first 3000 characters of the text. */
  function SummaryPrompt(text: string): string
  {
    SummaryHead + Take(text, SummaryTextLimit) + SummaryTail
  }

  lemma SummaryPromptEmbeds(text: string)
    ensures var p := SummaryPrompt(text);
      var n := Min(|text|, SummaryTextLimit);
      |p| == |SummaryHead| + n + |SummaryTail| &&
      p[..|SummaryHead|] == SummaryHead &&
      p[|SummaryHead|..|SummaryHead| + n] == text[..n] &&
      p[|SummaryHead| + n..] == SummaryTail
    ensures |SummaryPrompt(text)| <= |SummaryHead| + SummaryTextLimit + |SummaryTail|
  {
  }

  /** Texts that agree on their first 2000 characters get the same
      classification prompt: the rest of the text never reaches the model. */
  lemma ClassificationPromptIgnoresTail(a: string, b: string)
    requires |a| >= ClassificationTextLimit && |b| >= ClassificationTextLimit
    requires a[..ClassificationTextLimit] == b[..ClassificationTextLimit]
    ensures ClassificationPrompt(a) == ClassificationPrompt(b)
  {
  }

  // ---------------------------------------------------------------------
  // The query's first item
  // ---------------------------------------------------------------------

  /** The earliest of a non-empty set of timestamps. */
  function Earliest(ts: set<int>): (m: int)
    requires ts != {}
    ensures m in ts && forall t :: t in ts ==> m <= t
  {
    EarliestExists(ts);
    var m :| m in ts && forall t :: t in ts ==> m <= t;
    m
  }

  lemma {:induction false} EarliestExists(ts: set<int>)
    requires ts != {}
    ensures exists m :: m in ts && forall t :: t in ts ==> m <= t
    decreases ts
  {
    HasMember(ts);
    var x :| x in ts;
    var rest := ts - {x};
    if rest == {} {
      forall t | t in ts ensures x <= t {
        assert t !in rest;
      }
      assert x in ts && forall t :: t in ts ==> x <= t;
    } else {
      EarliestExists(rest);
      var m :| m in rest && forall t :: t in rest ==> m <= t;
      var least := if x < m then x else m;
      forall t | t in ts ensures least <= t {
        if t != x { assert t in rest; }
      }
      assert least in ts && forall t :: t in ts ==> least <= t;
    }
  }

  lemma HasMember(ts: set<int>)
    requires ts != {}
    ensures exists x :: x in ts
  {
    if forall x :: x !in ts { assert false; }
  }

  // ---------------------------------------------------------------------
  // The results table and the handlers
  // ---------------------------------------------------------------------

  class ResultsTable {
    /** The items, keyed by (documentId, uploadTimestamp). */
    var items: map<Key, Record>

    /** Every item carries its own key, and its status is backed by the
        stage output it names. */
    ghost predicate Valid()
      reads this
    {
      WellKeyed(items)
    }

    constructor ()
      ensures Valid() && items == map[]
    {
      items := map[];
    }

    /** The key of the first item a query on `documentId` returns: a query returns
        the items of one partition key in ascending sort-key order, so the
        first is the one with the earliest upload timestamp. */
    function FirstKey(documentId: string): (r: Option<Key>)
      reads this
      ensures r.None? <==> forall k :: k in items ==> k.0 != documentId
      ensures r.Some? ==> r.value in items && r.value.0 == documentId
      ensures r.Some? ==> forall k :: k in items && k.0 == documentId ==> r.value.1 <= k.1
    {
      var ts := set k | k in items && k.0 == documentId :: k.1;
      assert forall k :: k in items && k.0 == documentId ==> k.1 in ts;
      if ts == {} then None
      else
        var t := Earliest(ts);
        assert exists k :: k in items && k.0 == documentId && k.1 == t;
        Some((documentId, t))
    }

    /** The handler the upload endpoint runs. `documentId` and `timestamp`
        stand for the generated UUID and the clock reading. The document is
        stored before the item is written. */
    method Upload(request: Option<UploadBody>, documentId: string, timestamp: int)
      returns (resp: Response, stored: Option<StoredObject>)
      requires Valid()
      modifies this
      ensures Valid()
      ensures (request.None? || request.value.file.None? || request.value.fileName.None?) ==>
        resp == Response(500, ExceptionMessage) && stored == None && items == old(items)
      ensures request.Some? && request.value.file.Some? && request.value.fileName.Some? ==>
        var fileName := request.value.fileName.value;
        var key := StorageKey(documentId, fileName);
        stored == Some(StoredObject(key, request.value.file.value, request.value.contentType.GetOr(DefaultContentType))) &&
        (!KeyAccepted(documentId) ==> resp == Response(500, ExceptionMessage) && items == old(items)) &&
        (KeyAccepted(documentId) ==>
           resp == Response(200, Ack(documentId, StatusName(Uploaded))) &&
           items == old(items)[(documentId, timestamp) := NewRecord(documentId, timestamp, fileName, key)])
    {
      if request.None? || request.value.file.None? || request.value.fileName.None? {
        return Response(500, ExceptionMessage), None;
      }
      var body := request.value;
      var key := StorageKey(documentId, body.fileName.value);
      stored := Some(StoredObject(key, body.file.value, body.contentType.GetOr(DefaultContentType)));
      if !KeyAccepted(documentId) {
        // the object is already stored when the table refuses the item
        return Response(500, ExceptionMessage), stored;
      }
      items := items[(documentId, timestamp) := NewRecord(documentId, timestamp, body.fileName.value, key)];
      resp := Response(200, Ack(documentId, StatusName(Uploaded)));
    }

    /** The handler the object-created event runs. `blocks` is the
        text-detection response, None when that call fails. */
    method ExtractText(objectKey: string, blocks: Option<seq<Block>>, now: int)
      returns (resp: Response, handoff: Option<Handoff>)
      requires Valid()
      modifies this
      ensures Valid()
      ensures var id := FirstSegment(objectKey, '/');
        !KeyAccepted(id) ==>
          resp == Response(500, ExceptionMessage) && handoff == None && items == old(items)
      ensures var id := FirstSegment(objectKey, '/');
        KeyAccepted(id) && (forall k :: k in old(items) ==> k.0 != id) ==>
          resp == Response(404, NoBody) && handoff == None && items == old(items)
      ensures var id := FirstSegment(objectKey, '/');
        old(FirstKey(id)).Some? && blocks.None? ==>
          resp == Response(500, ExceptionMessage) && handoff == None && items == old(items)
      ensures var id := FirstSegment(objectKey, '/');
        old(FirstKey(id)).Some? && blocks.Some? ==>
          var key := old(FirstKey(id)).value;
          var lines := Lines(blocks.value);
          var ocr := OcrResult(Terminated(lines), Mean(Confidences(lines)), now);
          resp == Response(200, NoBody) &&
          handoff == Some(Handoff(id, key.1, ocr.extractedText)) &&
          items == UpdateItem(old(items), key, OcrStage(ocr))
    {
      var id := FirstSegment(objectKey, '/');
      if !KeyAccepted(id) {
        return Response(500, ExceptionMessage), None;
      }
      var first := FirstKey(id);
      if first.None? {
        return Response(404, NoBody), None;
      }
      if blocks.None? {
        return Response(500, ExceptionMessage), None;
      }
      var key := first.value;
      var text, scores := ExtractLines(blocks.value);
      var ocr := OcrResult(text, Mean(scores), now);
      UpdateItemWellKeyed(items, key, OcrStage(ocr));
      items := UpdateItem(items, key, OcrStage(ocr));
      handoff := Some(Handoff(id, key.1, text));
      resp := Response(200, NoBody);
    }

    /** The handler Extraction's handoff runs. `reply` is the model's reply
        text, None when the call fails. The update does not look the item up
        first: on a key with no item it creates one. */
    method Classify(event: Handoff, reply: Option<string>, now: int)
      returns (request: ModelRequest, resp: Response, handoff: Option<Handoff>)
      requires Valid()
      modifies this
      ensures Valid()
      ensures request == ModelRequest(ModelId, ClassificationMaxTokens, ClassificationPrompt(event.text))
      ensures reply.None? ==>
        resp == Response(500, ExceptionMessage) && handoff == None && items == old(items)
      ensures reply.Some? && !KeyAccepted(event.documentId) ==>
        resp == Response(500, ExceptionMessage) && handoff == None && items == old(items)
      ensures reply.Some? && KeyAccepted(event.documentId) ==>
        var c := ClassificationResult(Strip(reply.value), ClassificationConfidence, now);
        resp == Response(200, NoBody) &&
        handoff == Some(Handoff(event.documentId, event.timestamp, event.text)) &&
        items == UpdateItem(old(items), (event.documentId, event.timestamp), ClassificationStage(c))
    {
      request := ModelRequest(ModelId, ClassificationMaxTokens, ClassificationPrompt(event.text));
      if reply.None? {
        return request, Response(500, ExceptionMessage), None;
      }
      if !KeyAccepted(event.documentId) {
        return request, Response(500, ExceptionMessage), None;
      }
      var c := ClassificationResult(Strip(reply.value), ClassificationConfidence, now);
      var key := (event.documentId, event.timestamp);
      UpdateItemWellKeyed(items, key, ClassificationStage(c));
      items := UpdateItem(items, key, ClassificationStage(c));
      handoff := Some(Handoff(event.documentId, event.timestamp, event.text));
      resp := Response(200, NoBody);
    }

    /** The handler Classification's handoff runs: the last stage, which
        hands nothing on. */
    method Summarize(event: Handoff, reply: Option<string>, now: int)
      returns (request: ModelRequest, resp: Response)
      requires Valid()
      modifies this
      ensures Valid()
      ensures request == ModelRequest(ModelId, SummaryMaxTokens, SummaryPrompt(event.text))
      ensures reply.None? ==> resp == Response(500, ExceptionMessage) && items == old(items)
      ensures reply.Some? && !KeyAccepted(event.documentId) ==>
        resp == Response(500, ExceptionMessage) && items == old(items)
      ensures reply.Some? && KeyAccepted(event.documentId) ==>
        resp == Response(200, NoBody) &&
        items == UpdateItem(old(items), (event.documentId, event.timestamp),
                            SummaryStage(SummaryResult(Strip(reply.value), now)))
    {
      request := ModelRequest(ModelId, SummaryMaxTokens, SummaryPrompt(event.text));
      if reply.None? {
        return request, Response(500, ExceptionMessage);
      }
      if !KeyAccepted(event.documentId) {
        return request, Response(500, ExceptionMessage);
      }
      var s := SummaryResult(Strip(reply.value), now);
      var key := (event.documentId, event.timestamp);
      UpdateItemWellKeyed(items, key, SummaryStage(s));
      items := UpdateItem(items, key, SummaryStage(s));
      resp := Response(200, NoBody);
    }

    /** The query handler: GET with a documentId returns the query's first
        item, or `{}` when there is none (not an error; an empty id is
        refused by the table, which is a 500); GET without one returns every
        item; any other method is refused with 405. */
    function HandleResults(event: ApiEvent): (r: Response)
      reads this
      ensures event.httpMethod.None? ==> r == Response(500, ExceptionMessage)
      ensures event.httpMethod.Some? && event.httpMethod.value != "GET" ==>
        r == Response(405, ErrorMessage("Method not allowed"))
      ensures event.httpMethod == Some("GET") && HasIdParameter(event) ==>
        var id := event.pathParameters.value["documentId"];
        (!KeyAccepted(id) ==> r == Response(500, ExceptionMessage)) &&
        (KeyAccepted(id) && (forall k :: k in items ==> k.0 != id) ==> r == Response(200, EmptyObject)) &&
        (KeyAccepted(id) && (exists k :: k in items && k.0 == id) ==>
           exists k :: k in items && k.0 == id && r == Response(200, Item(items[k])) &&
                       forall k' :: k' in items && k'.0 == id ==> k.1 <= k'.1)
      ensures event.httpMethod == Some("GET") && !HasIdParameter(event) ==>
        r.statusCode == 200 && r.body.Items? &&
        forall x :: x in r.body.records <==> exists k :: k in items && items[k] == x
    {
      match event.httpMethod
      case None => Response(500, ExceptionMessage)
      case Some(m) =>
        if m != "GET" then Response(405, ErrorMessage("Method not allowed"))
        else if HasIdParameter(event) then
          if !KeyAccepted(event.pathParameters.value["documentId"]) then Response(500, ExceptionMessage)
          else match FirstKey(event.pathParameters.value["documentId"])
          case None => Response(200, EmptyObject)
          case Some(k) => Response(200, Item(items[k]))
        else Response(200, Items(items.Values))
    }

    /** Intake, then Extraction on the object Intake stored, for a new
        document id: the table gains one item, holding the extracted text,
        and that text is handed on to Classification. */
    method Ingest(fileName: string, content: seq<byte>, documentId: string, timestamp: int,
                  blocks: seq<Block>, ocrAt: int)
      returns (statuses: seq<Status>, handoff: Handoff)
      requires Valid()
      requires KeyAccepted(documentId) && '/' !in documentId
      requires forall k :: k in items ==> k.0 != documentId
      modifies this
      ensures Valid()
      ensures statuses == [Uploaded, OcrComplete]
      ensures var lines := Lines(blocks);
        var ocr := OcrResult(Terminated(lines), Mean(Confidences(lines)), ocrAt);
        handoff == Handoff(documentId, timestamp, ocr.extractedText) &&
        items == old(items)[(documentId, timestamp) := Record(
          documentId, timestamp, Some(fileName), Some(StorageKey(documentId, fileName)),
          OcrComplete, Some(ocr), None, None)]
    {
      var key := (documentId, timestamp);
      ghost var before := items;
      var _, stored := Upload(Some(UploadBody(Some(content), Some(fileName), None)), documentId, timestamp);
      ghost var r0 := NewRecord(documentId, timestamp, fileName, StorageKey(documentId, fileName));
      assert items == before[key := r0];
      var uploaded := items[key].status;

      StorageKeyRoundTrip(documentId, fileName);
      assert FirstKey(documentId) == Some(key) by {
        assert forall k :: k in items && k.0 == documentId ==> k == key;
      }
      ghost var lines := Lines(blocks);
      ghost var ocr := OcrResult(Terminated(lines), Mean(Confidences(lines)), ocrAt);
      var _, next := ExtractText(stored.value.key, Some(blocks), ocrAt);
      UpdateItemOver(before, key, r0, OcrStage(ocr));
      handoff := next.value;
      statuses := [uploaded, items[key].status];
    }

    /** Classification, then Summarization on Classification's handoff:
        both update the item named by the handoff, the one the model's
        replies are stored in. */
    method Analyze(event: Handoff, category: string, summary: string, classifiedAt: int, summarizedAt: int)
      returns (statuses: seq<Status>)
      requires Valid() && KeyAccepted(event.documentId)
      modifies this
      ensures Valid()
      ensures statuses == [Classified, Summarized]
      ensures var key := (event.documentId, event.timestamp);
        var c := ClassificationResult(Strip(category), ClassificationConfidence, classifiedAt);
        var sm := SummaryResult(Strip(summary), summarizedAt);
        items == UpdateItem(UpdateItem(old(items), key, ClassificationStage(c)), key, SummaryStage(sm))
    {
      var key := (event.documentId, event.timestamp);
      var _, _, next := Classify(event, Some(category), classifiedAt);
      var classified := items[key].status;
      var _, _ := Summarize(next.value, Some(summary), summarizedAt);
      statuses := [classified, items[key].status];
    }

    /** The whole pipeline for a new document id (a UUID: never empty, never
        holding `/`): returns the item's status after each stage, each one a
        step further along the pipeline than the one before. The table ends
        up with one new item, which holds every stage's output. */
    method ProcessDocument(fileName: string, content: seq<byte>, documentId: string, timestamp: int,
                           blocks: seq<Block>, category: string, summary: string,
                           ocrAt: int, classifiedAt: int, summarizedAt: int)
      returns (statuses: seq<Status>)
      requires Valid()
      requires KeyAccepted(documentId) && '/' !in documentId
      requires forall k :: k in items ==> k.0 != documentId
      modifies this
      ensures Valid()
      ensures statuses == [Uploaded, OcrComplete, Classified, Summarized]
      ensures forall i :: 0 < i < |statuses| ==> Rank(statuses[i]) == Rank(statuses[i - 1]) + 1
      ensures var lines := Lines(blocks);
        items == old(items)[(documentId, timestamp) := Record(
          documentId, timestamp, Some(fileName), Some(StorageKey(documentId, fileName)), Summarized,
          Some(OcrResult(Terminated(lines), Mean(Confidences(lines)), ocrAt)),
          Some(ClassificationResult(Strip(category), ClassificationConfidence, classifiedAt)),
          Some(SummaryResult(Strip(summary), summarizedAt)))]
    {
      var key := (documentId, timestamp);
      ghost var lines := Lines(blocks);
      ghost var r1 := Record(documentId, timestamp, Some(fileName), Some(StorageKey(documentId, fileName)),
                             OcrComplete, Some(OcrResult(Terminated(lines), Mean(Confidences(lines)), ocrAt)), None, None);
      ghost var c := ClassificationResult(Strip(category), ClassificationConfidence, classifiedAt);
      ghost var sm := SummaryResult(Strip(summary), summarizedAt);
      ghost var before := items;
      var first, handoff := Ingest(fileName, content, documentId, timestamp, blocks, ocrAt);
      var rest := Analyze(handoff, category, summary, classifiedAt, summarizedAt);
      UpdateItemTwiceOver(before, key, r1, ClassificationStage(c), SummaryStage(sm));
      statuses := first + rest;
    }
  }

  predicate HasIdParameter(event: ApiEvent)
  {
    event.pathParameters.Some? && "documentId" in event.pathParameters.value
  }
}
