# Intelligent document processing pipeline, modelled in Dafny

The system is a serverless pipeline for documents, plus a browser client.
A document goes through five request handlers, all sharing one results
table:

- **Intake** stores the uploaded bytes under `{documentId}/{fileName}` and
  writes a record with status `uploaded`.
- **Extraction** runs when that object is created. It finds the record by
  the key's first `/`-segment and gathers the text of the LINE blocks from
  the text-detection service, together with their mean confidence.
- **Classification** asks a language model for a category.
- **Summarization** asks the model for a summary.
- **The query handler** reads the table back.

Every stage writes its own attribute and the status. Intake's write to the
document store is what starts Extraction; Extraction and Classification
each hand the text on to the next stage, and Summarization hands nothing
on. The browser client polls
the query handler for one document id, at most 30 reschedules. It merges
each polled record into its results list, and it shows the status as a
coloured, upper-cased badge.

The project has five modules:

- `Text` (text.dfy): the string operations the handlers and the client use.
  These are the first and second `split` segments, the prefix slice,
  Python's `strip()`, JavaScript's first-occurrence `replace` and ASCII
  upper-casing.
- `Records` (records.dfy): the status, the table record, the keyed table as
  a map, and the three per-stage update expressions, including what
  `update_item` does on a key with no item.
- `Aggregation` (ocr.dfy): Extraction's loop over the text-detection blocks,
  as a method proved against `Lines`/`Terminated`/`Confidences`, and the
  mean confidence.
- `Stack` (stack.dfy): the class `ResultsTable`, whose `items` map the
  handlers update in place, with one method per handler. It also holds the
  prompts, the storage key, the query's choice of first item, and the whole
  pipeline run for one document.
- `Client` (client.dfy): the results-list upsert, the polling loop as a
  method over a sequence of fetch replies, the status colour and badge
  label, and the data-URL payload.

Everything outside the program is a parameter, and each write to the
outside is a returned value:

- Parameters:
  - the text-detection blocks;
  - the model's reply text (None when the call fails);
  - the generated document id;
  - the clock readings;
  - the replies the client's fetches receive.
- Returned values:
  - the document-store object that Intake writes;
  - the request that Classification and Summarization send to the model;
  - each stage-to-stage handoff.

### What the handlers do, and do not, guarantee

The model follows the handler code, including where it does less than a
reader of the pipeline would expect:

- One would expect a stage to update only a record that Intake created.
  Classification and Summarization do not look the record up, and their
  `update_item` creates a bare item (the key and the stage's attribute
  only) when the key has none. `Records.UpdateItem` models that with
  `Records.Existing`.
- One would expect the status only ever to move forward. Extraction does
  not check the stored status before it writes, so a second Extraction on
  an advanced record sets the status back to `ocr-complete`. This is why
  the order uploaded → ocr-complete → classified → summarized is proved for
  the normal run (`Stack.ResultsTable.ProcessDocument`), and not for every
  sequence of handler calls.
- A lookup by id does not name a single record: an id may have items under
  several upload timestamps. The query returns a partition's items in
  ascending sort-key order, so Extraction and the query handler both use
  the item with the earliest upload timestamp for that id
  (`Stack.ResultsTable.FirstKey`).
- DynamoDB refuses an empty string as a key value (`Records.KeyAccepted`).
  A handler whose query or write names an empty document id fails and
  answers 500. For example, an object key that starts with `/` gives an
  empty id, and Extraction answers 500, not 404.

## Model

| member | source | states |
|---|---|---|
| Records.UpdateItemOver | cdk-app/lib/cdk-app-stack.ts:21-22 | the table holds one item per (documentId, uploadTimestamp) key: updating a key that holds an item replaces that item by its updated self and leaves every other key's item as it was |
| Records.StatusNameInjective | cdk-app/lib/cdk-app-stack.ts:159 | distinct statuses are stored as distinct strings, in both directions |
| Records.NewRecord | cdk-app/lib/cdk-app-stack.ts:153-161 | Intake's item has the given key, file name and storage key, status uploaded, and no stage output |
| Records.ApplyStage | cdk-app/lib/cdk-app-stack.ts:255-267 | a stage update sets its own attribute and the stage's status; the key, file name, storage key and the other stages' attributes are unchanged |
| Records.ApplyStageCommutes | cdk-app/lib/cdk-app-stack.ts:340-352 | updates from different stages touch disjoint attributes: in either order they give the same item apart from the status, which is the last one written |
| Records.Existing | cdk-app/lib/cdk-app-stack.ts:340-341 | the item an update starts from is the stored one when the key has one; otherwise it is a bare item holding only that key, with no file name, storage key or stage output |
| Records.UpdateItem | cdk-app/lib/cdk-app-stack.ts:416-427 | an update adds the key if missing, puts the updated item under it, and leaves every other key's item unchanged |
| Records.ApplyStageBacked | cdk-app/lib/cdk-app-stack.ts:255-267 | after any stage update the status is backed by that stage's output, whatever the item held before |
| Records.UpdateItemWellKeyed | cdk-app/lib/cdk-app-stack.ts:340-352 | an update on any key, present or not, keeps every item's key and status consistent |
| Records.UpdateItemTwice | cdk-app/lib/cdk-app-stack.ts:340-352 | two updates of one key in a row replace its item once, by the item with both updates applied |
| Records.UpdateItemTwiceOver | cdk-app/lib/cdk-app-stack.ts:416-427 | the same, for an item just written under that key |
| Text.FirstSegment | cdk-app/lib/cdk-app-stack.ts:218 | the first `split` segment is a prefix without the separator, ended by the separator or by the end of the string |
| Text.FirstSegmentOfJoin | cdk-app/lib/cdk-app-stack.ts:218 | splitting a joined pair again gives back the first piece when that piece has no separator |
| Text.SecondSegment | frontend/src/App.tsx:48 | the second segment is missing exactly when the separator does not occur |
| Text.Take | cdk-app/lib/cdk-app-stack.ts:322 | the slice `s[:n]` is a prefix of length min(\|s\|, n) |
| Text.TrimStart | cdk-app/lib/cdk-app-stack.ts:336 | a suffix of the input; everything removed is whitespace and what remains does not start with whitespace |
| Text.TrimEnd | cdk-app/lib/cdk-app-stack.ts:336 | a prefix of the input; everything removed is whitespace and what remains does not end with whitespace |
| Text.Strip | cdk-app/lib/cdk-app-stack.ts:336 | the stripped reply neither starts nor ends with whitespace, and is empty exactly when the reply is all whitespace |
| Text.StripIdempotent | cdk-app/lib/cdk-app-stack.ts:412 | stripping a stripped reply changes nothing |
| Text.StripPadded | cdk-app/lib/cdk-app-stack.ts:412 | any whitespace around a non-blank text is removed and the text itself kept |
| Text.ReplaceFirst | frontend/src/App.tsx:207 | replacing one character by another keeps the length |
| Text.ReplaceFirstSpec | frontend/src/App.tsx:207 | position by position, only the first occurrence of the pattern is replaced |
| Text.ReplaceFirstAt | frontend/src/App.tsx:207 | with no earlier occurrence, the first one is the one replaced |
| Text.UpperSpec | frontend/src/App.tsx:207 | upper-casing maps each position by the character mapping and leaves no ASCII lower-case letter |
| Text.UpperAppend | frontend/src/App.tsx:207 | upper-casing a concatenation upper-cases each part |
| Aggregation.ExtractLines | cdk-app/lib/cdk-app-stack.ts:244-250 | the loop builds the LINE blocks' texts, each followed by a newline, in order, and their confidences in the same order |
| Aggregation.ExtractStep | cdk-app/lib/cdk-app-stack.ts:247-250 | one loop step adds the block's text, a newline and its score when it is a LINE, and nothing otherwise |
| Aggregation.LinesMembers | cdk-app/lib/cdk-app-stack.ts:248 | exactly the LINE blocks contribute, in both directions |
| Aggregation.OneScorePerLine | cdk-app/lib/cdk-app-stack.ts:250 | there are as many confidence scores as LINE blocks |
| Aggregation.TerminatedNewlines | cdk-app/lib/cdk-app-stack.ts:249 | when no line text holds a newline, the text holds one newline per line and ends with one unless there are no lines |
| Aggregation.MeanTimesCount | cdk-app/lib/cdk-app-stack.ts:252 | the average is 0 when there are no scores, and is otherwise the sum divided by the count |
| Aggregation.MeanBounds | cdk-app/lib/cdk-app-stack.ts:252 | an average of scores within bounds lies within the same bounds |
| Aggregation.MeanOfConstant | cdk-app/lib/cdk-app-stack.ts:252 | the average of equal scores is that score |
| Stack.StorageKey | cdk-app/lib/cdk-app-stack.ts:142 | the storage key is the id, one `/`, then the file name |
| Stack.StorageKeyRoundTrip | cdk-app/lib/cdk-app-stack.ts:142 | Extraction's first `/`-segment of Intake's key is Intake's id, for an id without `/` |
| Stack.ClassificationPromptEmbeds | cdk-app/lib/cdk-app-stack.ts:313-324 | the prompt is the fixed head, the first min(\|text\|, 2000) characters of the text, and the fixed tail, so its length is bounded |
| Stack.ClassificationPromptIgnoresTail | cdk-app/lib/cdk-app-stack.ts:322 | texts agreeing on their first 2000 characters give the same prompt |
| Stack.SummaryPromptEmbeds | cdk-app/lib/cdk-app-stack.ts:396-400 | the prompt is the fixed head, the first min(\|text\|, 3000) characters, and the fixed tail |
| Stack.Earliest | cdk-app/lib/cdk-app-stack.ts:230 | the earliest timestamp is in the set and no later than any other |
| Stack.EarliestExists | cdk-app/lib/cdk-app-stack.ts:230 | every non-empty set of timestamps has a least element |
| Stack.ResultsTable.constructor | cdk-app/lib/cdk-app-stack.ts:18-22 | the table starts empty and consistent |
| Stack.ResultsTable.FirstKey | cdk-app/lib/cdk-app-stack.ts:222-231 | there is no first item exactly when the id has no items; otherwise it is the id's item with the earliest upload timestamp |
| Stack.ResultsTable.Upload | cdk-app/lib/cdk-app-stack.ts:129-184 | without a file or a file name: 500, nothing stored and no change; otherwise the bytes are stored under the storage key with the given or default content type, and then, for an accepted id, Intake's item is added under (documentId, timestamp) and the answer acknowledges that id with `uploaded`; for an empty id the object stays stored, the answer is 500 and the table is unchanged |
| Stack.ResultsTable.ExtractText | cdk-app/lib/cdk-app-stack.ts:211-280 | empty id: 500, no change, no handoff; unknown id: 404, no change, no handoff; failed detection: 500, no change; otherwise the first item gets the aggregated text and mean and `ocr-complete`, and the extracted text is handed on with the id and the item's timestamp |
| Stack.ResultsTable.Classify | cdk-app/lib/cdk-app-stack.ts:306-365 | sends the truncated prompt with the model id and 100 tokens; on a reply and an accepted id, sets the stripped category with confidence 0.85 and `classified` on the handoff's key, and hands on the full text, id and timestamp unchanged; on a failed call or an empty id, 500, no change and no handoff |
| Stack.ResultsTable.Summarize | cdk-app/lib/cdk-app-stack.ts:389-433 | sends the truncated prompt with 200 tokens; on a reply and an accepted id, sets the stripped summary and `summarized`; it hands nothing on; on a failed call or an empty id, 500 and no change |
| Stack.ResultsTable.HandleResults | cdk-app/lib/cdk-app-stack.ts:462-519 | GET with an id: 200 with `{}` when the id has no item, and 200 with the id's item of earliest upload timestamp when it has one (500 for an empty id); GET without an id: 200 and every item; other methods: 405 with its fixed message; missing method: 500 |
| Stack.ResultsTable.Ingest | cdk-app/lib/cdk-app-stack.ts:142-273 | Intake followed by Extraction on Intake's object, for a new id: one new item with `ocr-complete` and the extracted text, which is handed on |
| Stack.ResultsTable.Analyze | cdk-app/lib/cdk-app-stack.ts:340-427 | Classification followed by Summarization on its handoff: statuses `classified` then `summarized`, both updates on the handoff's key |
| Stack.ResultsTable.ProcessDocument | cdk-app/lib/cdk-app-stack.ts:159-427 | the normal run for a new id moves the status uploaded, ocr-complete, classified, summarized, each one rank further along than the one before, and leaves one new item holding every stage's output, with no other item changed |
| Client.ReplaceMatching | frontend/src/App.tsx:112 | every entry with the polled id is replaced by the result, and every other entry is kept in its position |
| Client.Upsert | frontend/src/App.tsx:109-116 | existing id: same length, matching entries replaced, the others kept in place; new id: the result first, then the old list unchanged |
| Client.UpsertKeeps | frontend/src/App.tsx:109-116 | afterwards the result is in the list and every entry for another id still is |
| Client.UpsertIdempotent | frontend/src/App.tsx:109-116 | merging the same record a second time changes nothing |
| Client.SummarizedName | frontend/src/App.tsx:119 | the stored status string is `summarized` exactly for the status Summarized |
| Client.PollForResults | frontend/src/App.tsx:98-130 | the loop's results list, attempt counter and number of fetches are those of the polling run (`PollRun`, `PollCount`), with one fetch more than reschedules |
| Client.PollCountFrom | frontend/src/App.tsx:99-122 | every fetch before the last rescheduled (ok, not summarized, fewer than 30 attempts), the last did not, and there are at most 30 reschedules, so at most 31 fetches |
| Client.PollStopsAtOnce | frontend/src/App.tsx:105-126 | the run stops after its first fetch exactly when that fetch threw, was not ok, or saw a summarized record |
| Client.StatusColor | frontend/src/App.tsx:148-156 | the grey fallback is returned exactly for strings other than the four statuses |
| Client.StatusColorsDistinct | frontend/src/App.tsx:148-156 | the four statuses get four different colours, none of them the fallback |
| Client.BadgeLabel | frontend/src/App.tsx:207 | the label is as long as the status and holds no ASCII lower-case letter |
| Client.BadgeLabelAt | frontend/src/App.tsx:207 | position by position: the first `-` becomes a space, and every other character is upper-cased, a later `-` included |
| Client.BadgeLabelNoDash | frontend/src/App.tsx:207 | a status without `-` is only upper-cased |
| Client.BadgeLabelFirstDash | frontend/src/App.tsx:207 | for a first piece without `-`, only the first dash becomes a space and the rest is upper-cased |
| Client.UpperJoin | frontend/src/App.tsx:207 | a label upper-cased piece by piece is the concatenation of the pieces' upper-cased forms |
| Client.BadgeLabelOcrComplete | frontend/src/App.tsx:207 | `ocr-complete` is shown as `OCR COMPLETE` |
| Client.BadgeLabelUploaded | frontend/src/App.tsx:207 | `uploaded` is shown as `UPLOADED` |
| Client.BadgeLabelClassified | frontend/src/App.tsx:207 | `classified` is shown as `CLASSIFIED` |
| Client.BadgeLabelSummarized | frontend/src/App.tsx:207 | `summarized` is shown as `SUMMARIZED` |
| Client.Base64Payload | frontend/src/App.tsx:48 | the payload is missing exactly when the data URL has no comma |
| Client.DataUrlPayload | frontend/src/App.tsx:48 | for a base64 data URL (section 3 of RFC 2397) whose media type has no comma, the payload is exactly the encoded data |

## Left out

- The infrastructure declarations (table options, buckets, the role, the API, the CDN and the stack outputs). They provision resources and have no behaviour.
- The document store, text detection, the language model and the stage-to-stage invocations are external services. Blocks and reply text are parameters, and the stored object, the model request and the handoffs are returned values.
- A failed document-store write in Intake is not modelled. It happens before any table write, so it would answer 500 with no change to the table.
- A failed handoff invocation after a stage's update is not modelled. The model has the invocation succeed, so it does not cover the 500 returned after the table has already changed, which leaves the next stage never run.
- The table is a map on which every call succeeds and every read sees the last write. The one refusal modelled is the empty key value. Other failures of `query`, `put_item`, `update_item` or `scan` (throttling, service errors) would answer 500 with no table change, and are not modelled.
- Stack.ResultsTable.Ingest: runs Extraction only after the whole of Intake. In the system the stored object triggers Extraction, which can run before Intake's item is written; it then finds no item and answers 404, and the document stays at `uploaded`. That ordering is not modelled; `ExtractText`'s 404 case is what such an early run does.
- The generated UUID and the clock are parameters. The pipeline run assumes the id is non-empty and has no `/`, which holds for every UUID.
- Base64 decoding, JSON parsing and serialisation, and the decimal and float conversions are library code. Confidences and the mean are reals, with no decimal or floating-point rounding. A missing or undecodable `file` is modelled as an absent file, which is one of the 500 cases.
- `str(e)` in error bodies is Python's exception text and is not modelled. Such bodies are the single value `ExceptionMessage`.
- Extraction reads only the first record of the object-created event. The URL-encoding of the event's object key is not modelled.
- Asynchronous delivery, repeated event delivery and concurrent stages are not modelled. Each handler call is one atomic step on the table.
- Stack.ResultsTable.HandleResults: the full scan is returned as a set of records, because the table's scan order is unspecified. A `scan` returns one page of at most 1 MB, and the handler does not follow `LastEvaluatedKey`. "Every item" therefore holds only for a table that fits in one page; pagination is not modelled.
- Stack.ResultsTable.Classify: the category the model replies with is stored as given, and is not checked against the six offered categories (the code does not check it either).
- The client's rendering, `fetch`, the timer between polls, the file reader, the input reset, the CORS headers and the initial fetch of all results are UI and I/O plumbing.
- Text.Upper: upper-cases the ASCII range only. JavaScript's `toUpperCase` also maps non-ASCII letters, which none of the four status strings contains.
- The compiled `cdk-app/lib/cdk-app-stack.js` repeats the same handlers and is not modelled separately.
