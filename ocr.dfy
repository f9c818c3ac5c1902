/** The decision logic of `OCR_Engine`: text normalisation, the mapping from
    language-model perplexity to a confidence, and the choice between the
    PaddleOCR reading and the VietOCR reading in `__process__`. */
module Ocr {
  import opened Wrappers
  import opened Stats
  import opened Text

  const ZeroWidthSpace: char := '\U{200B}'
  const NoBreakSpace: char := '\U{A0}'

  /** Perplexities at this value or above map to confidence 0. */
  const PerplexityScale: real := 50.0

  /** How much more confident VietOCR must be to override PaddleOCR. */
  const Margin: real := 0.05

  // ---------------------------------------------------------------------------
  // `_normalize`, without its Unicode NFC step.

  /** `replace("\u200b", "")`: every zero-width space deleted, nothing else touched. */
  function DropZeroWidth(s: string): (r: string)
    ensures |r| <= |s|
  {
    if s == [] then []
    else (if s[0] == ZeroWidthSpace then [] else [s[0]]) + DropZeroWidth(s[1..])
  }

  /** Deleting works character by character: the deletion from a
      concatenation is the concatenation of the deletions, and a single
      character survives exactly when it is not U+200B. */
  lemma {:induction false} DropConcat(a: string, b: string, c: char)
    ensures DropZeroWidth(a + b) == DropZeroWidth(a) + DropZeroWidth(b)
    ensures DropZeroWidth([c]) == if c == ZeroWidthSpace then [] else [c]
  {
    if a == [] {
      assert a + b == b;
    } else {
      assert (a + b)[0] == a[0] && (a + b)[1..] == a[1..] + b;
      DropConcat(a[1..], b, c);
    }
    assert [c][1..] == [];
  }

  /** Only the zero-width spaces go: every other character stays present or
      absent, and a string without one is returned unchanged. */
  lemma {:induction false} DropKeeps(s: string)
    ensures var r := DropZeroWidth(s);
      ZeroWidthSpace !in r
      && (forall c :: c != ZeroWidthSpace ==> (c in r <==> c in s))
      && (ZeroWidthSpace !in s ==> r == s)
  {
    if s != [] {
      DropKeeps(s[1..]);
      assert s == [s[0]] + s[1..];
    }
  }

  /** `replace("\xa0", " ")`: every no-break space becomes a plain space. */
  function PlainSpaces(s: string): (r: string)
    ensures |r| == |s|
  {
    if s == [] then []
    else [if s[0] == NoBreakSpace then ' ' else s[0]] + PlainSpaces(s[1..])
  }

  /** Each no-break space becomes a plain space and every other character
      stays where it was. */
  lemma {:induction false} PlainAt(s: string)
    ensures var r := PlainSpaces(s);
      forall k :: 0 <= k < |s| ==> r[k] == (if s[k] == NoBreakSpace then ' ' else s[k])
  {
    if s != [] {
      PlainAt(s[1..]);
    }
  }

  /** `" ".join(s.split())`: whitespace runs collapsed to one space, ends trimmed. */
  function Collapse(s: string): string
  {
    JoinSpace(Split(s))
  }

  function Normalize(s: string): string
  {
    Collapse(PlainSpaces(DropZeroWidth(s)))
  }

  /** Collapsing agrees with reading the string one character at a time,
      keeping at most one pending space between non-whitespace characters and
      none before the first: every word of the input survives, in order. */
  lemma CollapseByChars(s: string)
    ensures Collapse(s) == Squeeze(s, "", false)
  {
    SqueezeSplit(s, "", false);
  }

  /** The output of collapsing is trimmed, single-spaced, uses only U+0020 as
      whitespace, and is empty exactly when the input is all whitespace. */
  lemma CollapseShape(s: string)
    ensures var r := Collapse(s);
      Trimmed(r) && SingleSpaced(r) && OnlyPlainSpace(r)
      && (r == [] <==> AllSpace(s))
  {
    JoinShape(Split(s));
  }

  /** Collapsing is idempotent. */
  lemma CollapseIdempotent(s: string)
    ensures Collapse(Collapse(s)) == Collapse(s)
  {
    SplitJoin(Split(s));
  }

  /** What `_normalize` promises, NFC aside: trimmed, single-spaced, no
      zero-width space and no no-break space left. */
  lemma NormalizeShape(s: string)
    ensures var r := Normalize(s);
      Trimmed(r) && SingleSpaced(r) && OnlyPlainSpace(r)
      && ZeroWidthSpace !in r && NoBreakSpace !in r
  {
    var p := PlainSpaces(DropZeroWidth(s));
    CollapseShape(p);
    DropKeeps(s);
    PlainAt(DropZeroWidth(s));
    assert ZeroWidthSpace !in p;
    SplitChars(p, ZeroWidthSpace);
    JoinChars(Split(p), ZeroWidthSpace);
  }

  /** Text that `_normalize` produced is left unchanged by it, NFC aside. */
  lemma NormalizeIdempotent(s: string)
    ensures Normalize(Normalize(s)) == Normalize(s)
  {
    var r := Normalize(s);
    NormalizeShape(s);
    DropKeeps(r);
    PlainAt(r);
    assert PlainSpaces(r) == r;
    CollapseIdempotent(PlainSpaces(DropZeroWidth(s)));
  }

  /** The zero-width space is deleted, not turned into a space: "a\u200bb\xa0c"
      becomes "ab c". */
  lemma NormalizeExample()
    ensures Normalize("a\U{200B}b\U{A0}c") == "ab c"
  {
    ScrubExample();
    CollapseExample();
  }

  lemma ScrubExample()
    ensures PlainSpaces(DropZeroWidth("a\U{200B}b\U{A0}c")) == "ab c"
  {
    DropExample();
    PlainExample();
  }

  lemma DropExample()
    ensures DropZeroWidth("a\U{200B}b\U{A0}c") == "ab\U{A0}c"
  {
  }

  lemma PlainExample()
    ensures PlainSpaces("ab\U{A0}c") == "ab c"
  {
    PlainCons('a', "b\U{A0}c");
    PlainCons('b', "\U{A0}c");
    PlainCons(NoBreakSpace, "c");
  }

  lemma CollapseExample()
    ensures Collapse("ab c") == "ab c"
  {
    var ws := ["ab", "c"];
    assert IsWord(ws[0]) && IsWord(ws[1]);
    JoinExample();
    SplitJoin(ws);
  }

  lemma JoinExample()
    ensures JoinSpace(["ab", "c"]) == "ab c"
  {
    var ws := ["ab", "c"];
    assert ws[1..] == ["c"];
    var j := "ab" + " " + "c";
    assert |j| == 4 && j[0] == 'a' && j[1] == 'b' && j[2] == ' ' && j[3] == 'c';
  }

  lemma PlainCons(c: char, s: string)
    ensures PlainSpaces([c] + s) == [if c == NoBreakSpace then ' ' else c] + PlainSpaces(s)
  {
    assert ([c] + s)[1..] == s;
  }

  // ---------------------------------------------------------------------------
  // Language-model confidence for the VietOCR reading.

  /** `_get_perplexity`: the language model's `exp(loss)`, or infinity when
      there is no model or no text. */
  datatype Perplexity = Finite(value: real) | Infinite

  /** `lmValue` stands for `exp(loss)` computed by the model on `text`. */
  function GetPerplexity(lmLoaded: bool, text: string, lmValue: real): (p: Perplexity)
    ensures p.Infinite? <==> !lmLoaded || text == ""
  {
    if !lmLoaded || text == "" then Infinite else Finite(lmValue)
  }

  /** `max(0, 1 - ppl / 50.0)`; an infinite perplexity gives 0. */
  function Confidence(p: Perplexity): (c: real)
    ensures c >= 0.0
    ensures p.Infinite? ==> c == 0.0
    ensures p.Finite? && p.value >= 0.0 ==> c <= 1.0
    ensures p.Finite? ==> (c == 0.0 <==> p.value >= PerplexityScale)
  {
    match p
    case Infinite => 0.0
    case Finite(v) => if 1.0 - v / PerplexityScale > 0.0 then 1.0 - v / PerplexityScale else 0.0
  }

  /** A higher perplexity never gives a higher confidence. */
  lemma ConfidenceAntitone(p: Perplexity, q: Perplexity)
    requires p.Finite? && (q.Infinite? || p.value <= q.value)
    ensures Confidence(q) <= Confidence(p)
  {
  }

  // ---------------------------------------------------------------------------
  // `__process__`.

  /** A text and its confidence. */
  datatype Reading = Reading(text: string, conf: real)

  /** One PaddleOCR result: whether its `res` dict carries both `rec_texts`
      and `rec_scores`, and their contents. */
  datatype PaddleResult = PaddleResult(recognised: bool, texts: seq<string>, scores: seq<real>)

  /** How the VietOCR call ends: no engine, an exception, or a text. */
  datatype VietOutcome = NoEngine | Raised | Predicted(text: string)

  /** The lines gathered from the first `n` results: exactly the lines of
      those results that carry both keys. */
  function LinesOf(results: seq<PaddleResult>, n: nat): (ls: seq<string>)
    requires n <= |results|
    ensures forall k, l :: 0 <= k < n && results[k].recognised && l in results[k].texts ==> l in ls
    ensures forall l :: l in ls ==> exists k :: 0 <= k < n && results[k].recognised && l in results[k].texts
  {
    if n == 0 then []
    else LinesOf(results, n - 1) + (if results[n - 1].recognised then results[n - 1].texts else [])
  }

  /** The line scores gathered from the first `n` results: exactly the
      scores of those results that carry both keys. */
  function ConfsOf(results: seq<PaddleResult>, n: nat): (cs: seq<real>)
    requires n <= |results|
    ensures forall k, c :: 0 <= k < n && results[k].recognised && c in results[k].scores ==> c in cs
    ensures forall c :: c in cs ==> exists k :: 0 <= k < n && results[k].recognised && c in results[k].scores
  {
    if n == 0 then []
    else ConfsOf(results, n - 1) + (if results[n - 1].recognised then results[n - 1].scores else [])
  }

  /** `text1, conf1`: the normalised joined lines and the mean line score;
      `("", 0.0)` without the engine or without lines. */
  function Primary(paddle: Option<seq<PaddleResult>>): Reading
  {
    match paddle
    case None => Reading("", 0.0)
    case Some(results) =>
      var lines, confs := LinesOf(results, |results|), ConfsOf(results, |results|);
      if lines == [] then Reading("", 0.0)
      else Reading(Normalize(JoinSpace(lines)), if confs == [] then 0.0 else Mean(confs))
  }

  /** `text2, conf2`: the normalised VietOCR text and its language-model
      confidence; `("", 0.0)` without a text. */
  function Secondary(viet: VietOutcome, lmLoaded: bool, lmValue: real): Reading
  {
    match viet
    case Predicted(text) =>
      if text == "" then Reading("", 0.0)
      else
        var text2 := Normalize(text);
        Reading(text2, Confidence(GetPerplexity(lmLoaded, text2, lmValue)))
    case _ => Reading("", 0.0)
  }

  /** The final decision of `__process__`. */
  function Arbitrate(a: Reading, b: Reading): Reading
  {
    if b.conf > a.conf + Margin && b.text != "" then b
    else Reading(if a.text != "" then a.text else b.text, RealMax(a.conf, b.conf))
  }

  /** The secondary text wins exactly when it is non-empty and beats the
      primary confidence by more than the margin; otherwise the primary text
      is kept unless it is empty. The confidence is the larger of the two
      either way, and the text is empty only when both are. */
  lemma ArbitrateChoice(a: Reading, b: Reading)
    ensures var r := Arbitrate(a, b);
      (b.text != "" && b.conf > a.conf + Margin ==> r.text == b.text)
      && (!(b.text != "" && b.conf > a.conf + Margin) && a.text != "" ==> r.text == a.text)
      && (r.text == a.text || r.text == b.text)
      && r.conf == RealMax(a.conf, b.conf) && r.conf >= a.conf && r.conf >= b.conf
      && (r.text == "" <==> a.text == "" && b.text == "")
  {
  }

  /** PaddleOCR line scores in [0, 1] give a primary confidence in [0, 1]. */
  lemma PrimaryConfidenceRange(paddle: Option<seq<PaddleResult>>)
    requires paddle.Some? ==> forall c :: c in ConfsOf(paddle.value, |paddle.value|) ==> 0.0 <= c <= 1.0
    ensures 0.0 <= Primary(paddle).conf <= 1.0
  {
    if paddle.Some? {
      var confs := ConfsOf(paddle.value, |paddle.value|);
      if confs != [] {
        MeanBounds(confs);
        assert MinOf(confs) in confs && MaxOf(confs) in confs;
      }
    }
  }

  /** A non-negative perplexity gives a secondary confidence in [0, 1]; no
      text, an exception or a missing language model gives 0. */
  lemma SecondaryConfidenceRange(viet: VietOutcome, lmLoaded: bool, lmValue: real)
    requires lmValue >= 0.0
    ensures var b := Secondary(viet, lmLoaded, lmValue);
      0.0 <= b.conf <= 1.0
      && (!lmLoaded || b.text == "" ==> b.conf == 0.0)
  {
  }

  /** Nothing read by either engine gives the empty text at confidence 0. */
  lemma NothingRead(paddle: Option<seq<PaddleResult>>, viet: VietOutcome, lmLoaded: bool, lmValue: real)
    requires paddle.Some? ==> LinesOf(paddle.value, |paddle.value|) == []
    requires viet.Predicted? ==> viet.text == ""
    ensures Arbitrate(Primary(paddle), Secondary(viet, lmLoaded, lmValue)) == Reading("", 0.0)
  {
  }

  /** A primary reading made only of whitespace lines normalises to the empty
      text, so the secondary text is returned whenever there is one. */
  lemma BlankPrimaryFallsBack(paddle: Option<seq<PaddleResult>>, b: Reading)
    requires paddle.Some? && AllSpace(JoinSpace(LinesOf(paddle.value, |paddle.value|)))
    requires b.text != ""
    ensures Arbitrate(Primary(paddle), b).text == b.text
  {
    var j := JoinSpace(LinesOf(paddle.value, |paddle.value|));
    ScrubKeepsSpace(j);
    CollapseShape(PlainSpaces(DropZeroWidth(j)));
  }

  /** As written, PaddleOCR lines made only of whitespace normalise to the
      empty text while their mean score is kept: one line `" "` scored 0.9,
      with VietOCR also reading `" "`, gives `("", 0.9)`, not `("", 0.0)`. */
  lemma BlankLinesKeepScore(lmLoaded: bool, lmValue: real)
    ensures var paddle := Some([PaddleResult(true, [" "], [0.9])]);
      Primary(paddle) == Reading("", 0.9)
      && Arbitrate(Primary(paddle), Secondary(Predicted(" "), lmLoaded, lmValue)) == Reading("", 0.9)
  {
    var results := [PaddleResult(true, [" "], [0.9])];
    assert LinesOf(results, 1) == [" "];
    assert ConfsOf(results, 1) == [0.9];
    assert Mean([0.9]) == 0.9 by {
      assert SumTo([0.9], 1) == SumTo([0.9], 0) + 0.9;
    }
    assert AllSpace(" ") by {
      assert IsSpace(' ');
    }
    ScrubKeepsSpace(" ");
    CollapseShape(PlainSpaces(DropZeroWidth(" ")));
  }

  /** The arbitration under the rule of the no-lines case: as `Arbitrate`,
      except that an empty text always comes with confidence 0. */
  function Settle(a: Reading, b: Reading): (r: Reading)
    ensures r.text == "" <==> a.text == "" && b.text == ""
    ensures r.text == "" ==> r.conf == 0.0
    ensures r.text != "" ==> r == Arbitrate(a, b)
  {
    var r := Arbitrate(a, b);
    ArbitrateChoice(a, b);
    if r.text == "" then Reading("", 0.0) else r
  }

  /** Under `Settle`, nothing read means confidence 0 however the blank
      PaddleOCR lines were scored. */
  lemma SettledBlankLines(paddle: Option<seq<PaddleResult>>, viet: VietOutcome, lmLoaded: bool, lmValue: real)
    requires paddle.Some? ==> AllSpace(JoinSpace(LinesOf(paddle.value, |paddle.value|)))
    requires viet.Predicted? ==> viet.text == ""
    ensures Settle(Primary(paddle), Secondary(viet, lmLoaded, lmValue)) == Reading("", 0.0)
  {
    if paddle.Some? {
      var j := JoinSpace(LinesOf(paddle.value, |paddle.value|));
      ScrubKeepsSpace(j);
      CollapseShape(PlainSpaces(DropZeroWidth(j)));
    }
  }

  /** Removing zero-width spaces and replacing no-break spaces leaves
      whitespace as whitespace. */
  lemma ScrubKeepsSpace(j: string)
    requires AllSpace(j)
    ensures AllSpace(PlainSpaces(DropZeroWidth(j)))
  {
    var p := PlainSpaces(DropZeroWidth(j));
    DropKeeps(j);
    PlainAt(DropZeroWidth(j));
    forall k | 0 <= k < |p| ensures IsSpace(p[k]) {
      assert p[k] in DropZeroWidth(j) || p[k] == ' ';
      if p[k] != ' ' {
        assert p[k] in j;
      }
    }
  }

  /** `rr["rec_texts"]` and `rr["rec_scores"]` appended result by result. */
  method GatherLines(results: seq<PaddleResult>) returns (lines: seq<string>, confs: seq<real>)
    ensures lines == LinesOf(results, |results|) && confs == ConfsOf(results, |results|)
  {
    lines, confs := [], [];
    for k := 0 to |results|
      invariant lines == LinesOf(results, k) && confs == ConfsOf(results, k)
    {
      var res := results[k];
      if res.recognised {
        lines := lines + res.texts;
        confs := confs + res.scores;
      }
    }
  }

  /** `__process__`, with `text2` and `conf2` starting at `""` and `0.0` and
      a raising VietOCR call read as no text. `lmValue` is what the language
      model gives for the normalised VietOCR text. */
  method Process(paddle: Option<seq<PaddleResult>>, viet: VietOutcome, lmLoaded: bool, lmValue: real)
    returns (r: Reading)
    ensures r == Arbitrate(Primary(paddle), Secondary(viet, lmLoaded, lmValue))
  {
    var text1, conf1 := "", 0.0;
    if paddle.Some? {
      var lines, confs := GatherLines(paddle.value);
      if lines != [] {
        text1 := Normalize(JoinSpace(lines));
        conf1 := if confs != [] then Mean(confs) else 0.0;
      }
    }
    var text2, conf2 := "", 0.0;
    if !viet.NoEngine? {
      var text := if viet.Predicted? then viet.text else "";
      if text != "" {
        text2 := Normalize(text);
        conf2 := Confidence(GetPerplexity(lmLoaded, text2, lmValue));
      }
    }
    if conf2 > conf1 + Margin && text2 != "" {
      return Reading(text2, conf2);
    }
    r := Reading(if text1 != "" then text1 else text2, RealMax(conf1, conf2));
  }
}
