/** The browser client's state logic: merging a polled record into the
    results list, the bounded polling loop, the status colour and badge
    label, and the base64 payload of a data URL. */
module Client {
  import opened Text
  import opened Records

  /** The parsed body of `GET /results/{documentId}`: a record, or `{}` when
      the table has none for that id. */
  datatype Fetched = Found(record: Record) | EmptyObject

  /** An entry of the list is the polled document's when its documentId
      equals the polled id; `{}` has no documentId, so it never matches. */
  predicate Matches(f: Fetched, documentId: string)
  {
    f.Found? && f.record.documentId == documentId
  }

  /** Some entry of the list is the polled document's. */
  predicate HasEntry(list: seq<Fetched>, documentId: string)
  {
    exists i :: 0 <= i < |list| && Matches(list[i], documentId)
  }

  /** Every entry with the polled id replaced by the polled result, the
      others kept, in order. */
  function ReplaceMatching(prev: seq<Fetched>, documentId: string, result: Fetched): (r: seq<Fetched>)
    ensures |r| == |prev|
    ensures forall i :: 0 <= i < |prev| ==>
      r[i] == (if Matches(prev[i], documentId) then result else prev[i])
  {
    if prev == [] then []
    else [if Matches(prev[0], documentId) then result else prev[0]] +
         ReplaceMatching(prev[1..], documentId, result)
  }

  /** The update of the results list after a successful poll: replace every
      entry with the polled id in place, or put the result first when no
      entry has that id. */
  function Upsert(prev: seq<Fetched>, documentId: string, result: Fetched): (r: seq<Fetched>)
    ensures HasEntry(prev, documentId) ==>
      |r| == |prev| &&
      forall i :: 0 <= i < |prev| ==> r[i] == (if Matches(prev[i], documentId) then result else prev[i])
    ensures !HasEntry(prev, documentId) ==>
      |r| == |prev| + 1 && r[0] == result && r[1..] == prev
  {
    if HasEntry(prev, documentId) then ReplaceMatching(prev, documentId, result)
    else [result] + prev
  }

  /** The polled result is always in the list afterwards, and every entry
      for another id is still there. */
  lemma UpsertKeeps(prev: seq<Fetched>, documentId: string, result: Fetched)
    ensures result in Upsert(prev, documentId, result)
    ensures forall e :: e in prev && !Matches(e, documentId) ==> e in Upsert(prev, documentId, result)
  {
    var r := Upsert(prev, documentId, result);
    if HasEntry(prev, documentId) {
      var i :| 0 <= i < |prev| && Matches(prev[i], documentId);
      assert r[i] == result;
      forall e | e in prev && !Matches(e, documentId) ensures e in r {
        var j :| 0 <= j < |prev| && prev[j] == e;
        assert r[j] == e;
      }
    } else {
      assert r == [result] + prev;
    }
  }

  /** Merging the same record twice changes nothing the second time. */
  lemma UpsertIdempotent(prev: seq<Fetched>, documentId: string, result: Fetched)
    requires Matches(result, documentId)
    ensures Upsert(Upsert(prev, documentId, result), documentId, result) == Upsert(prev, documentId, result)
  {
    var once := Upsert(prev, documentId, result);
    if HasEntry(prev, documentId) {
      var i :| 0 <= i < |prev| && Matches(prev[i], documentId);
      assert once[i] == result;
    } else {
      assert once[0] == result;
    }
    assert HasEntry(once, documentId);
    var twice := Upsert(once, documentId, result);
    assert |twice| == |once|;
    forall k | 0 <= k < |once| ensures twice[k] == once[k] {
    }
  }

  // ---------------------------------------------------------------------
  // The polling loop
  // ---------------------------------------------------------------------

  const MaxAttempts := 30

  /** The outcome of one fetch: a thrown error (network failure or a body
      that does not parse), a response that is not ok, or an ok response. */
  datatype PollReply = Thrown | NotOk | Ok(result: Fetched)

  /** The polled result is not a summarized record: `{}` has no status at
      all, so it counts as not summarized.
      The stored string is "summarized" exactly for the status Summarized
      (`SummarizedName`). */
  predicate NotSummarized(f: Fetched)
  {
    !(f.Found? && f.record.status == Summarized)
  }

  lemma SummarizedName(s: Status)
    ensures StatusName(s) == "summarized" <==> s == Summarized
  {
    StatusNameInjective(s, Summarized);
  }

  /** Whether the poll that saw `reply` with `attempts` reschedules itself. */
  predicate Reschedules(reply: PollReply, attempts: nat)
  {
    reply.Ok? && NotSummarized(reply.result) && attempts < MaxAttempts
  }

  /** The results list after one poll that saw `reply`. */
  function Merged(results: seq<Fetched>, documentId: string, reply: PollReply): seq<Fetched>
  {
    if reply.Ok? then Upsert(results, documentId, reply.result) else results
  }

  /** The results list at the end of the polling run whose fetch number
      `attempts` (counting from 0) sees `replies(attempts)`. */
  function PollRun(documentId: string, results: seq<Fetched>, attempts: nat, replies: nat -> PollReply): seq<Fetched>
    requires attempts <= MaxAttempts
    decreases MaxAttempts - attempts
  {
    var next := Merged(results, documentId, replies(attempts));
    if Reschedules(replies(attempts), attempts) then PollRun(documentId, next, attempts + 1, replies) else next
  }

  /** The number of reschedules in the polling run from fetch number
      `attempts` on: the value of the `attempts` counter when it stops. */
  function PollCount(replies: nat -> PollReply, attempts: nat): nat
    requires attempts <= MaxAttempts
    decreases MaxAttempts - attempts
  {
    if Reschedules(replies(attempts), attempts) then PollCount(replies, attempts + 1) else attempts
  }

  /** The client's polling loop: fetch, merge an ok result into the list, and fetch
      again (after the fixed delay) while the record is not summarized and
      fewer than 30 reschedules have happened. `replies(k)` is what fetch
      number k returns. */
  method PollForResults(documentId: string, prev: seq<Fetched>, replies: nat -> PollReply)
    returns (results: seq<Fetched>, fetches: nat, attempts: nat)
    ensures attempts == PollCount(replies, 0) && fetches == attempts + 1
    ensures results == PollRun(documentId, prev, 0, replies)
  {
    attempts, fetches, results := 0, 0, prev;
    var polling := true;
    while polling
      invariant attempts <= MaxAttempts
      invariant fetches == if polling then attempts else attempts + 1
      invariant PollCount(replies, 0) == if polling then PollCount(replies, attempts) else attempts
      invariant PollRun(documentId, prev, 0, replies) ==
        if polling then PollRun(documentId, results, attempts, replies) else results
      decreases MaxAttempts + 1 - fetches
    {
      var reply := replies(attempts);
      fetches := fetches + 1;
      if reply.Ok? {
        results := Upsert(results, documentId, reply.result);
      }
      if reply.Ok? && NotSummarized(reply.result) && attempts < MaxAttempts {
        attempts := attempts + 1;
      } else {
        polling := false;
      }
    }
  }

  /** The polling run reschedules exactly while the reply is ok, not
      summarized and fewer than 30 reschedules have happened: each fetch
      before the last one rescheduled, the last one did not, and there are
      at most 30 reschedules, so at most 31 fetches. */
  lemma {:induction false} PollCountFrom(replies: nat -> PollReply, a: nat)
    requires a <= MaxAttempts
    ensures a <= PollCount(replies, a) <= MaxAttempts
    ensures forall k :: a <= k < PollCount(replies, a) ==> Reschedules(replies(k), k)
    ensures !Reschedules(replies(PollCount(replies, a)), PollCount(replies, a))
    decreases MaxAttempts - a
  {
    if Reschedules(replies(a), a) {
      PollCountFrom(replies, a + 1);
    }
  }

  /** A run stops after its first fetch exactly when that reply is an
      error, not ok, or a summarized record. */
  lemma PollStopsAtOnce(replies: nat -> PollReply)
    ensures PollCount(replies, 0) == 0 <==>
      replies(0).Thrown? || replies(0).NotOk? || !NotSummarized(replies(0).result)
  {
    if Reschedules(replies(0), 0) {
      PollCountFrom(replies, 1);
    }
  }

  // ---------------------------------------------------------------------
  // Status colour and badge label
  // ---------------------------------------------------------------------

  const UnknownColor := "#cccccc"

  /** The badge colour of a status string; any string other than the four
      statuses gets the grey fallback. */
  function StatusColor(status: string): (c: string)
    ensures c == UnknownColor <==>
      status !in {"uploaded", "ocr-complete", "classified", "summarized"}
  {
    if status == "uploaded" then "#ffa500"
    else if status == "ocr-complete" then "#ffff00"
    else if status == "classified" then "#add8e6"
    else if status == "summarized" then "#90ee90"
    else UnknownColor
  }

  /** The four pipeline statuses get four different colours, none of them
      the colour of an unknown status. */
  lemma StatusColorsDistinct(a: Status, b: Status)
    ensures StatusColor(StatusName(a)) != UnknownColor
    ensures a != b ==> StatusColor(StatusName(a)) != StatusColor(StatusName(b))
  {
  }

  /** The badge text: the first dash becomes a space, then the text is
      upper-cased. */
  function BadgeLabel(status: string): (r: string)
    ensures |r| == |status|
    ensures forall i :: 0 <= i < |r| ==> !('a' <= r[i] <= 'z')
  {
    UpperSpec(ReplaceFirst(status, '-', ' '));
    Upper(ReplaceFirst(status, '-', ' '))
  }

  /** Position by position: the first `-` becomes a space, every other
      character is upper-cased (a later `-` stays). */
  lemma BadgeLabelAt(status: string)
    ensures forall i :: 0 <= i < |status| ==>
      BadgeLabel(status)[i] == (if status[i] == '-' && '-' !in status[..i] then ' ' else UpperChar(status[i]))
  {
    ReplaceFirstSpec(status, '-', ' ');
    UpperSpec(ReplaceFirst(status, '-', ' '));
  }

  /** A status without `-` is only upper-cased. */
  lemma BadgeLabelNoDash(s: string)
    requires '-' !in s
    ensures BadgeLabel(s) == Upper(s)
  {
    ReplaceFirstAbsent(s, '-', ' ');
  }

  /** Only the first `-` becomes a space; any later one stays. */
  lemma BadgeLabelFirstDash(a: string, b: string)
    requires '-' !in a
    ensures BadgeLabel(a + "-" + b) == Upper(a) + " " + Upper(b)
  {
    ReplaceFirstAt(a, '-', ' ', b);
    UpperAppend(a + " ", b);
    UpperAppend(a, " ");
  }

  /** Upper-casing a text piece by piece, so that a label is computed from
      short pieces. */
  lemma UpperJoin(a: string, b: string, c: string, ua: string, ub: string, uc: string)
    requires Upper(a) == ua && Upper(b) == ub && Upper(c) == uc
    ensures Upper(a + b + c) == ua + ub + uc
  {
    UpperAppend(a + b, c);
    UpperAppend(a, b);
  }

  /** The labels shown for the four statuses. */
  lemma BadgeLabelOcrComplete()
    ensures BadgeLabel("ocr-complete") == "OCR COMPLETE"
  {
    ReplaceOcrComplete();
    UpperOcrComplete();
  }

  lemma BadgeLabelUploaded()
    ensures BadgeLabel("uploaded") == "UPLOADED"
  {
    BadgeLabelNoDash("uploaded");
    UpperUploaded();
  }

  lemma BadgeLabelClassified()
    ensures BadgeLabel("classified") == "CLASSIFIED"
  {
    BadgeLabelNoDash("classified");
    UpperClassified();
  }

  lemma BadgeLabelSummarized()
    ensures BadgeLabel("summarized") == "SUMMARIZED"
  {
    BadgeLabelNoDash("summarized");
    UpperSummarized();
  }

  lemma ReplaceOcrComplete()
    ensures ReplaceFirst("ocr-complete", '-', ' ') == "ocr complete"
  {
    ReplaceFirstAt("ocr", '-', ' ', "complete");
    assert "ocr" + ['-'] + "complete" == "ocr-complete";
    assert "ocr" + [' '] + "complete" == "ocr complete";
  }

  lemma UpperOcrComplete()
    ensures Upper("ocr complete") == "OCR COMPLETE"
  {
    UpperJoin("ocr ", "comp", "lete", "OCR ", "COMP", "LETE");
    assert "ocr " + "comp" + "lete" == "ocr complete";
    assert "OCR " + "COMP" + "LETE" == "OCR COMPLETE";
  }

  lemma UpperUploaded()
    ensures Upper("uploaded") == "UPLOADED"
  {
    UpperJoin("upl", "oad", "ed", "UPL", "OAD", "ED");
    assert "upl" + "oad" + "ed" == "uploaded";
    assert "UPL" + "OAD" + "ED" == "UPLOADED";
  }

  lemma UpperClassified()
    ensures Upper("classified") == "CLASSIFIED"
  {
    UpperJoin("clas", "sif", "ied", "CLAS", "SIF", "IED");
    assert "clas" + "sif" + "ied" == "classified";
    assert "CLAS" + "SIF" + "IED" == "CLASSIFIED";
  }

  lemma UpperSummarized()
    ensures Upper("summarized") == "SUMMARIZED"
  {
    UpperJoin("summ", "ari", "zed", "SUMM", "ARI", "ZED");
    assert "summ" + "ari" + "zed" == "summarized";
    assert "SUMM" + "ARI" + "ZED" == "SUMMARIZED";
  }

  // ---------------------------------------------------------------------
  // Data URL payload
  // ---------------------------------------------------------------------

  /** The second comma-separated piece of the file reader's data URL,
      which the client uploads as the file body; None stands for
      JavaScript's `undefined` when the string has no comma. */
  function Base64Payload(dataUrl: string): (r: Option<string>)
    ensures r.None? <==> ',' !in dataUrl
  {
    SecondSegment(dataUrl, ',')
  }

  /** The characters of base64 text (RFC 4648, section 4), none of which is
      a comma. */
  predicate IsBase64(s: string)
  {
    forall i :: 0 <= i < |s| ==>
      'A' <= s[i] <= 'Z' || 'a' <= s[i] <= 'z' || '0' <= s[i] <= '9' ||
      s[i] == '+' || s[i] == '/' || s[i] == '='
  }

  /** A base64 data URL (section 3 of RFC 2397), `data:<mediatype>;base64,<data>`:
      the payload taken by the client is exactly the encoded data, as long
      as the media type has no comma. */
  lemma DataUrlPayload(mediaType: string, data: string)
    requires ',' !in mediaType
    requires IsBase64(data)
    ensures Base64Payload("data:" + mediaType + ";base64," + data) == Some(data)
  {
    var head := "data:" + mediaType + ";base64";
    assert ',' !in head;
    assert ',' !in data;
    assert "data:" + mediaType + ";base64," + data == head + [','] + data + [];
    SecondSegmentOfJoin(head, ',', data, []);
  }
}
