/** The Extraction stage's aggregation of the text-detection response: the
    text of the LINE blocks, each followed by a newline, and the mean of
    their confidences. */
module Aggregation {

  /** One block of the text-detection response. Only `LINE` blocks are used;
      the service also returns `PAGE` and `WORD` blocks. */
  datatype Block = Block(blockType: string, text: string, confidence: real)

  predicate IsLine(b: Block) { b.blockType == "LINE" }

  /** The LINE blocks of `bs`, in document order. */
  function Lines(bs: seq<Block>): (ls: seq<Block>)
    ensures |ls| <= |bs|
  {
    if bs == [] then []
    else (if IsLine(bs[0]) then [bs[0]] else []) + Lines(bs[1..])
  }

  /** The text of the given lines, each one followed by a newline. */
  function Terminated(ls: seq<Block>): string
  {
    if ls == [] then "" else ls[0].text + "\n" + Terminated(ls[1..])
  }

  /** The confidences of the given lines, in order. */
  function Confidences(ls: seq<Block>): (cs: seq<real>)
    ensures |cs| == |ls|
    ensures forall i :: 0 <= i < |ls| ==> cs[i] == ls[i].confidence
  {
    if ls == [] then [] else [ls[0].confidence] + Confidences(ls[1..])
  }

  function Sum(xs: seq<real>): real
  {
    if xs == [] then 0.0 else xs[0] + Sum(xs[1..])
  }

  /** The average confidence: the mean of the scores, or 0 when there are
      none. */
  function Mean(xs: seq<real>): real
  {
    if xs == [] then 0.0 else Sum(xs) / (|xs| as real)
  }

  /** The mean times the number of scores is their sum. */
  lemma MeanTimesCount(xs: seq<real>)
    ensures xs == [] ==> Mean(xs) == 0.0
    ensures xs != [] ==> Mean(xs) * (|xs| as real) == Sum(xs)
  {
  }

  lemma {:induction false} LinesAppend(a: seq<Block>, b: Block)
    ensures Lines(a + [b]) == Lines(a) + (if IsLine(b) then [b] else [])
  {
    var tail := if IsLine(b) then [b] else [];
    if a == [] {
      assert a + [b] == [b];
      assert [b][1..] == [];
      assert Lines([b]) == tail + Lines([]);
    } else {
      var s := a + [b];
      assert s[0] == a[0];
      assert s[1..] == a[1..] + [b];
      LinesAppend(a[1..], b);
      var head := if IsLine(a[0]) then [a[0]] else [];
      calc {
        Lines(s);
        head + Lines(a[1..] + [b]);
        head + (Lines(a[1..]) + tail);
        (head + Lines(a[1..])) + tail;
        Lines(a) + tail;
      }
    }
  }

  lemma {:induction false} TerminatedAppend(a: seq<Block>, b: seq<Block>)
    ensures Terminated(a + b) == Terminated(a) + Terminated(b)
  {
    if a == [] {
      assert a + b == b;
    } else {
      assert (a + b)[1..] == a[1..] + b;
      TerminatedAppend(a[1..], b);
    }
  }

  lemma {:induction false} ConfidencesAppend(a: seq<Block>, b: seq<Block>)
    ensures Confidences(a + b) == Confidences(a) + Confidences(b)
  {
    if a == [] {
      assert a + b == b;
    } else {
      assert (a + b)[1..] == a[1..] + b;
      ConfidencesAppend(a[1..], b);
    }
  }

  /** The loop of the Extraction handler: walk the blocks in order and, for
      each LINE, append its text and a newline to the text and its
      confidence to the scores. */
  method ExtractLines(blocks: seq<Block>) returns (text: string, scores: seq<real>)
    ensures text == Terminated(Lines(blocks))
    ensures scores == Confidences(Lines(blocks))
  {
    text, scores := "", [];
    var i := 0;
    while i < |blocks|
      invariant 0 <= i <= |blocks|
      invariant text == Terminated(Lines(blocks[..i]))
      invariant scores == Confidences(Lines(blocks[..i]))
    {
      var b := blocks[i];
      ExtractStep(blocks, i);
      if IsLine(b) {
        text := text + b.text + "\n";
        scores := scores + [b.confidence];
      }
      i := i + 1;
    }
    assert blocks[..i] == blocks;
  }

  /** One step of that loop: the next block adds its text and its score
      when it is a LINE, and nothing otherwise. */
  lemma ExtractStep(blocks: seq<Block>, i: nat)
    requires i < |blocks|
    ensures Terminated(Lines(blocks[..i + 1])) ==
      Terminated(Lines(blocks[..i])) + (if IsLine(blocks[i]) then blocks[i].text + "\n" else "")
    ensures Confidences(Lines(blocks[..i + 1])) ==
      Confidences(Lines(blocks[..i])) + (if IsLine(blocks[i]) then [blocks[i].confidence] else [])
  {
    var b := blocks[i];
    var done := Lines(blocks[..i]);
    assert blocks[..i + 1] == blocks[..i] + [b];
    LinesAppend(blocks[..i], b);
    if IsLine(b) {
      TerminatedAppend(done, [b]);
      ConfidencesAppend(done, [b]);
      assert Terminated([b]) == b.text + "\n";
    } else {
      assert done + [] == done;
    }
  }

  /** `Lines` keeps exactly the LINE blocks. */
  lemma {:induction false} LinesMembers(bs: seq<Block>)
    ensures forall b :: b in Lines(bs) <==> b in bs && IsLine(b)
  {
    if bs != [] {
      LinesMembers(bs[1..]);
      assert bs == [bs[0]] + bs[1..];
    }
  }

  /** There is one score per LINE block, and none for any other block. */
  lemma {:induction false} OneScorePerLine(bs: seq<Block>)
    ensures |Confidences(Lines(bs))| == LineCount(bs)
  {
    if bs != [] {
      OneScorePerLine(bs[1..]);
    }
  }

  /** The number of LINE blocks, counted independently of `Lines`. */
  function LineCount(bs: seq<Block>): nat
  {
    if bs == [] then 0 else LineCount(bs[1..]) + (if IsLine(bs[0]) then 1 else 0)
  }

  function Newlines(s: string): nat
  {
    if s == [] then 0 else Newlines(s[1..]) + (if s[0] == '\n' then 1 else 0)
  }

  lemma {:induction false} NewlinesAppend(a: string, b: string)
    ensures Newlines(a + b) == Newlines(a) + Newlines(b)
  {
    if a == [] {
      assert a + b == b;
    } else {
      assert (a + b)[1..] == a[1..] + b;
      NewlinesAppend(a[1..], b);
    }
  }

  /** Every line is newline-terminated: when no line text holds a newline
      of its own, the extracted text holds exactly one per LINE block, and
      it ends with one unless there are no lines. */
  lemma {:induction false} TerminatedNewlines(ls: seq<Block>)
    requires forall b :: b in ls ==> '\n' !in b.text
    ensures Newlines(Terminated(ls)) == |ls|
    ensures ls != [] ==> Terminated(ls) != [] && Terminated(ls)[|Terminated(ls)| - 1] == '\n'
  {
    if ls != [] {
      TerminatedNewlines(ls[1..]);
      var t := ls[0].text;
      NewlinesFree(t);
      NewlinesAppend(t, "\n");
      NewlinesAppend(t + "\n", Terminated(ls[1..]));
      if ls[1..] == [] {
        assert Terminated(ls) == t + "\n";
      }
    }
  }

  lemma {:induction false} NewlinesFree(s: string)
    requires '\n' !in s
    ensures Newlines(s) == 0
  {
    if s != [] {
      NewlinesFree(s[1..]);
    }
  }

  lemma {:induction false} SumBounds(xs: seq<real>, lo: real, hi: real)
    requires forall i :: 0 <= i < |xs| ==> lo <= xs[i] <= hi
    ensures (|xs| as real) * lo <= Sum(xs) <= (|xs| as real) * hi
  {
    if xs != [] {
      SumBounds(xs[1..], lo, hi);
    }
  }

  /** The mean lies between any bounds on the scores; so the average
      confidence of scores in [0, 100] is itself in [0, 100]. */
  lemma MeanBounds(xs: seq<real>, lo: real, hi: real)
    requires lo <= hi
    requires forall i :: 0 <= i < |xs| ==> lo <= xs[i] <= hi
    ensures xs == [] ==> Mean(xs) == 0.0
    ensures xs != [] ==> lo <= Mean(xs) <= hi
  {
    if xs != [] {
      SumBounds(xs, lo, hi);
      MeanTimesCount(xs);
      var n := |xs| as real;
      var m := Mean(xs);
      assert m * n == Sum(xs);
      assert n * lo <= m * n <= n * hi;
    }
  }

  /** The mean of equal scores is that score. */
  lemma {:induction false} MeanOfConstant(xs: seq<real>, c: real)
    requires xs != []
    requires forall i :: 0 <= i < |xs| ==> xs[i] == c
    ensures Mean(xs) == c
  {
    SumBounds(xs, c, c);
    MeanTimesCount(xs);
  }
}
