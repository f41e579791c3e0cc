/** The Result Ledger's record: one item of the results table, keyed by
    (documentId, uploadTimestamp), and the per-stage updates written to it. */
module Records {
  import opened Text

  /** The pipeline status, in the order the stages set it. */
  datatype Status = Uploaded | OcrComplete | Classified | Summarized

  /** The string stored in the table for each status. */
  function StatusName(s: Status): (r: string)
    ensures r != []
  {
    match s
    case Uploaded => "uploaded"
    case OcrComplete => "ocr-complete"
    case Classified => "classified"
    case Summarized => "summarized"
  }

  /** The position of a status in the pipeline. */
  function Rank(s: Status): (n: nat)
    ensures n <= 3
  {
    match s
    case Uploaded => 0
    case OcrComplete => 1
    case Classified => 2
    case Summarized => 3
  }

  /** Distinct statuses are stored as distinct strings, so a reader of the
      table recovers the status exactly. */
  lemma StatusNameInjective(a: Status, b: Status)
    ensures StatusName(a) == StatusName(b) <==> a == b
  {
  }

  datatype OcrResult = OcrResult(extractedText: string, confidence: real, processedAt: int)
  datatype ClassificationResult = ClassificationResult(category: string, confidence: real, processedAt: int)
  datatype SummaryResult = SummaryResult(text: string, processedAt: int)

  /** One item of the results table. `fileName` and `s3Key` are optional
      because an update on a key that has no item creates an item holding
      only the key and the updated attributes. */
  datatype Record = Record(
    documentId: string,
    uploadTimestamp: int,
    fileName: Option<string>,
    s3Key: Option<string>,
    status: Status,
    ocrResults: Option<OcrResult>,
    classification: Option<ClassificationResult>,
    summary: Option<SummaryResult>)

  /** The table's partition key and sort key. */
  type Key = (string, int)

  function KeyOf(r: Record): Key { (r.documentId, r.uploadTimestamp) }

  /** The attribute a stage writes together with its status. */
  datatype StageOutput =
    | OcrStage(ocr: OcrResult)
    | ClassificationStage(classification: ClassificationResult)
    | SummaryStage(summary: SummaryResult)

  /** The status each stage's update writes. */
  function StageStatus(out: StageOutput): (s: Status)
    ensures Rank(s) >= 1
  {
    match out
    case OcrStage(_) => OcrComplete
    case ClassificationStage(_) => Classified
    case SummaryStage(_) => Summarized
  }

  /** The item Intake writes: key, file name, storage key and status
      `uploaded`, no stage output yet. */
  function NewRecord(documentId: string, timestamp: int, fileName: string, s3Key: string): (r: Record)
    ensures KeyOf(r) == (documentId, timestamp)
    ensures r.status == Uploaded && r.fileName == Some(fileName) && r.s3Key == Some(s3Key)
    ensures r.ocrResults == None && r.classification == None && r.summary == None
  {
    Record(documentId, timestamp, Some(fileName), Some(s3Key), Uploaded, None, None, None)
  }

  /** A stage's update expression on one item: it sets the stage's own
      attribute and the status, and nothing else changes. */
  function ApplyStage(r: Record, out: StageOutput): (u: Record)
    ensures KeyOf(u) == KeyOf(r) && u.fileName == r.fileName && u.s3Key == r.s3Key
    ensures u.status == StageStatus(out)
    ensures u.ocrResults == (if out.OcrStage? then Some(out.ocr) else r.ocrResults)
    ensures u.classification == (if out.ClassificationStage? then Some(out.classification) else r.classification)
    ensures u.summary == (if out.SummaryStage? then Some(out.summary) else r.summary)
  {
    match out
    case OcrStage(o) => r.(ocrResults := Some(o), status := OcrComplete)
    case ClassificationStage(c) => r.(classification := Some(c), status := Classified)
    case SummaryStage(s) => r.(summary := Some(s), status := Summarized)
  }

  /** Two updates from different stages touch different attributes, so in
      either order they leave the same item apart from the status, which is
      the one written last. */
  lemma ApplyStageCommutes(r: Record, a: StageOutput, b: StageOutput)
    requires StageStatus(a) != StageStatus(b)
    ensures ApplyStage(ApplyStage(r, a), b) == ApplyStage(ApplyStage(r, b), a).(status := StageStatus(b))
  {
  }

  /** The item an update starts from: the stored one, or (when there is
      none) a bare item holding only the key. The bare item's status is
      always overwritten by the update. */
  function Existing(items: map<Key, Record>, key: Key): (r: Record)
    ensures KeyOf(r) == key || key in items
    ensures key in items ==> r == items[key]
    ensures key !in items ==>
      KeyOf(r) == key && r.fileName.None? && r.s3Key.None? &&
      r.ocrResults.None? && r.classification.None? && r.summary.None?
  {
    if key in items then items[key]
    else Record(key.0, key.1, None, None, Uploaded, None, None, None)
  }

  /** DynamoDB `update_item` with one stage's output: it creates the item
      when the key has none, and no other key's item changes. */
  function UpdateItem(items: map<Key, Record>, key: Key, out: StageOutput): (m: map<Key, Record>)
    ensures m.Keys == items.Keys + {key}
    ensures m[key] == ApplyStage(Existing(items, key), out)
    ensures forall k :: k in items && k != key ==> m[k] == items[k]
  {
    items[key := ApplyStage(Existing(items, key), out)]
  }

  /** What the status says about the item: each status names a stage whose
      output is present, and an item still `uploaded` has no stage output
      yet but has its file name and storage key. */
  predicate Backed(r: Record)
  {
    (r.status == Uploaded ==>
       r.fileName.Some? && r.s3Key.Some? &&
       r.ocrResults.None? && r.classification.None? && r.summary.None?) &&
    (r.status == OcrComplete ==> r.ocrResults.Some?) &&
    (r.status == Classified ==> r.classification.Some?) &&
    (r.status == Summarized ==> r.summary.Some?)
  }

  /** Every stage update leaves an item whose status is backed by its
      output, whatever the item held before. */
  lemma ApplyStageBacked(r: Record, out: StageOutput)
    ensures Backed(ApplyStage(r, out))
  {
  }

  /** DynamoDB refuses an empty string as the value of a key attribute: a
      query, put or update that names one fails, and the handler making it
      answers 500. */
  predicate KeyAccepted(documentId: string)
  {
    documentId != []
  }

  /** A table whose every item carries its own key, which the table
      accepted, and a status backed by the stage output it names. */
  predicate WellKeyed(items: map<Key, Record>)
  {
    forall k :: k in items ==> KeyAccepted(k.0) && KeyOf(items[k]) == k && Backed(items[k])
  }

  /** A stage update on an accepted key keeps the table well keyed, whether
      or not the key had an item before. */
  lemma UpdateItemWellKeyed(items: map<Key, Record>, key: Key, out: StageOutput)
    requires WellKeyed(items) && KeyAccepted(key.0)
    ensures WellKeyed(UpdateItem(items, key, out))
  {
    ApplyStageBacked(Existing(items, key), out);
  }

  /** Updating an item that is there replaces it by its updated self and
      leaves every other item as it was. */
  lemma UpdateItemOver(items: map<Key, Record>, key: Key, r: Record, out: StageOutput)
    ensures UpdateItem(items[key := r], key, out) == items[key := ApplyStage(r, out)]
  {
  }

  /** Two updates of one key in a row amount to one replacement of its
      item by the item with both updates applied. */
  lemma UpdateItemTwice(items: map<Key, Record>, key: Key, a: StageOutput, b: StageOutput)
    ensures UpdateItem(UpdateItem(items, key, a), key, b) ==
            items[key := ApplyStage(ApplyStage(Existing(items, key), a), b)]
  {
    UpdateItemOver(items, key, ApplyStage(Existing(items, key), a), b);
  }

  /** The same, on an item just written under the key. */
  lemma UpdateItemTwiceOver(items: map<Key, Record>, key: Key, r: Record, a: StageOutput, b: StageOutput)
    ensures UpdateItem(UpdateItem(items[key := r], key, a), key, b) ==
            items[key := ApplyStage(ApplyStage(r, a), b)]
  {
    UpdateItemTwice(items[key := r], key, a, b);
    assert items[key := r][key := ApplyStage(ApplyStage(r, a), b)] == items[key := ApplyStage(ApplyStage(r, a), b)];
  }
}
