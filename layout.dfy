/** The per-page loop of `LayoutAnalyzer.detect`: each detector's boxes for a
    page are filtered by score, tagged with the page index and fused. */
module Layout {
  import opened Wrappers
  import opened Geometry
  import opened Fusion

  /** One region as a detector reports it, before it is tagged with a page. */
  datatype Detection = Detection(x1: int, y1: int, x2: int, y2: int, kind: string, score: real)

  /** What the two detectors report on one page image; a detector that is not
      loaded reports nothing. */
  datatype PageDetections = PageDetections(yolo: seq<Detection>, publay: seq<Detection>)

  /** The fixed size filter of `_wbf`. */
  const MinSide: int := 10

  function Tagged(d: Detection, p: int): (b: Box)
    ensures b.page == p && b.score == d.score
  {
    Box(d.x1, d.y1, d.x2, d.y2, d.kind, d.score, p)
  }

  /** The detections that reach `cur`: those scoring at least `minScore`, in
      order, tagged with page `p`. */
  function Admit(ds: seq<Detection>, p: int, minScore: real): (r: seq<Box>)
    ensures |r| <= |ds|
  {
    if ds == [] then []
    else
      var last := ds[|ds| - 1];
      Admit(ds[..|ds| - 1], p, minScore) + (if last.score >= minScore then [Tagged(last, p)] else [])
  }

  /** The threshold keeps the detections it keeps in their order: admitting a
      concatenation concatenates the admitted parts, and a single detection is
      admitted, tagged, exactly when it reaches the threshold. */
  lemma {:induction false} AdmitConcat(a: seq<Detection>, b: seq<Detection>, d: Detection, p: int, minScore: real)
    ensures Admit(a + b, p, minScore) == Admit(a, p, minScore) + Admit(b, p, minScore)
    ensures Admit([d], p, minScore) == if d.score >= minScore then [Tagged(d, p)] else []
  {
    if b == [] {
      assert a + b == a;
    } else {
      var ab, init, last := a + b, b[..|b| - 1], b[|b| - 1];
      assert ab[..|ab| - 1] == a + init && ab[|ab| - 1] == last;
      var tail := if last.score >= minScore then [Tagged(last, p)] else [];
      calc {
        Admit(ab, p, minScore);
        Admit(a + init, p, minScore) + tail;
        { AdmitConcat(a, init, d, p, minScore); }
        (Admit(a, p, minScore) + Admit(init, p, minScore)) + tail;
        Admit(a, p, minScore) + (Admit(init, p, minScore) + tail);
        Admit(a, p, minScore) + Admit(b, p, minScore);
      }
    }
    assert Admit([d], p, minScore) == Admit([], p, minScore) + (if d.score >= minScore then [Tagged(d, p)] else []) by {
      assert [d][..0] == [];
    }
  }

  /** Exactly the detections meeting the score threshold are admitted, each
      carrying the page index. */
  lemma {:induction false} AdmitMembers(ds: seq<Detection>, p: int, minScore: real)
    ensures forall b :: b in Admit(ds, p, minScore) <==>
      exists d :: d in ds && d.score >= minScore && b == Tagged(d, p)
  {
    if ds != [] {
      var init, last := ds[..|ds| - 1], ds[|ds| - 1];
      AdmitMembers(init, p, minScore);
      assert ds == init + [last];
      forall b | b in Admit(ds, p, minScore)
        ensures exists d :: d in ds && d.score >= minScore && b == Tagged(d, p)
      {
        if b in Admit(init, p, minScore) {
          var d :| d in init && d.score >= minScore && b == Tagged(d, p);
          assert d in ds;
        } else {
          assert last in ds;
        }
      }
    }
  }

  /** Everything fusion sees for page `p`, YOLO boxes first. */
  function PageBoxes(page: PageDetections, p: int, minScore: real): seq<Box>
  {
    Admit(page.yolo, p, minScore) + Admit(page.publay, p, minScore)
  }

  lemma PageBoxesMembers(page: PageDetections, p: int, minScore: real)
    ensures var bs := PageBoxes(page, p, minScore);
      (forall k :: 0 <= k < |bs| ==> bs[k].page == p && bs[k].score >= minScore)
      && forall d :: d in page.yolo + page.publay && d.score >= minScore ==> Tagged(d, p) in bs
  {
    AdmitMembers(page.yolo, p, minScore);
    AdmitMembers(page.publay, p, minScore);
    var bs := PageBoxes(page, p, minScore);
    forall k | 0 <= k < |bs| ensures bs[k].page == p && bs[k].score >= minScore {
      assert bs[k] in Admit(page.yolo, p, minScore) || bs[k] in Admit(page.publay, p, minScore);
    }
  }

  /** What fusion gives for each of the first `n` pages: the fused list, or
      `None` where it raises. */
  function PageResultsTo(pages: seq<PageDetections>, minScore: real, t: real, n: nat): (rs: seq<Option<seq<Box>>>)
    requires n <= |pages|
    ensures |rs| == n
  {
    if n == 0 then []
    else PageResultsTo(pages, minScore, t, n - 1) + [FusionSpec(PageBoxes(pages[n - 1], n - 1, minScore), t, MinSide)]
  }

  function PageResults(pages: seq<PageDetections>, minScore: real, t: real): (rs: seq<Option<seq<Box>>>)
    ensures |rs| == |pages|
  {
    PageResultsTo(pages, minScore, t, |pages|)
  }

  lemma {:induction false} PageResultsToAt(pages: seq<PageDetections>, minScore: real, t: real, n: nat, p: nat)
    requires p < n <= |pages|
    ensures PageResultsTo(pages, minScore, t, n)[p] == FusionSpec(PageBoxes(pages[p], p, minScore), t, MinSide)
  {
    var prev := PageResultsTo(pages, minScore, t, n - 1);
    var last := FusionSpec(PageBoxes(pages[n - 1], n - 1, minScore), t, MinSide);
    assert PageResultsTo(pages, minScore, t, n) == prev + [last];
    if p < n - 1 {
      PageResultsToAt(pages, minScore, t, n - 1, p);
      assert (prev + [last])[p] == prev[p];
    }
  }

  lemma PageResultsAt(pages: seq<PageDetections>, minScore: real, t: real, p: nat)
    requires p < |pages|
    ensures PageResults(pages, minScore, t)[p] == FusionSpec(PageBoxes(pages[p], p, minScore), t, MinSide)
  {
    PageResultsToAt(pages, minScore, t, |pages|, p);
  }

  /** The first `n` page results gathered in page order; `None` once any of
      them raises, as the exception leaves `detect`. */
  function Collect(rs: seq<Option<seq<Box>>>, n: nat): (r: Option<seq<seq<Box>>>)
    requires n <= |rs|
    ensures r.Some? ==> |r.value| == n
  {
    if n == 0 then Some([])
    else
      match Collect(rs, n - 1)
      case None => None
      case Some(done) =>
        match rs[n - 1]
        case None => None
        case Some(fused) => Some(done + [fused])
  }

  /** `detect` on all pages. */
  function DetectSpec(pages: seq<PageDetections>, minScore: real, t: real): Option<seq<seq<Box>>>
  {
    Collect(PageResults(pages, minScore, t), |pages|)
  }

  /** Gathering succeeds exactly when every page succeeds, and then entry `p`
      is page `p`'s result. */
  lemma {:induction false} CollectPages(rs: seq<Option<seq<Box>>>, n: nat)
    requires n <= |rs|
    ensures Collect(rs, n).Some? <==> forall p :: 0 <= p < n ==> rs[p].Some?
    ensures Collect(rs, n).Some? ==> forall p :: 0 <= p < n ==> Collect(rs, n).value[p] == rs[p].value
  {
    if n > 0 {
      CollectPages(rs, n - 1);
    }
  }

  /** Page `p`'s result is the fusion of page `p`'s admitted boxes, and the
      whole call raises exactly when some page's fusion raises. */
  lemma DetectPages(pages: seq<PageDetections>, minScore: real, t: real)
    ensures var r := DetectSpec(pages, minScore, t);
      (r.Some? <==> forall p :: 0 <= p < |pages| ==> FusionSpec(PageBoxes(pages[p], p, minScore), t, MinSide).Some?)
      && (r.Some? ==> forall p :: 0 <= p < |pages| ==>
            r.value[p] == FusionSpec(PageBoxes(pages[p], p, minScore), t, MinSide).value)
  {
    CollectPages(PageResults(pages, minScore, t), |pages|);
    forall p: nat | p < |pages| {
      PageResultsAt(pages, minScore, t, p);
    }
  }

  /** Every box reported for page `p` carries page index `p`, scores at least
      `minScore`, and is wider and taller than `MinSide`. */
  lemma DetectOutput(pages: seq<PageDetections>, minScore: real, t: real)
    requires DetectSpec(pages, minScore, t).Some?
    ensures var r := DetectSpec(pages, minScore, t).value;
      |r| == |pages|
      && forall p, b :: 0 <= p < |r| && b in r[p] ==>
        b.page == p && b.score >= minScore && Large(b, MinSide)
  {
    DetectPages(pages, minScore, t);
    var r := DetectSpec(pages, minScore, t).value;
    forall p | 0 <= p < |r|
      ensures forall b: Box :: b in r[p] ==> b.page == p && b.score >= minScore && Large(b, MinSide)
    {
      var bs := PageBoxes(pages[p], p, minScore);
      PageBoxesMembers(pages[p], p, minScore);
      FusionKeepsPage(bs, t, MinSide, p);
      FusionScoreFloor(bs, t, MinSide, minScore);
      FusionOutput(bs, t, MinSide);
    }
  }

  /** When every detection is a proper rectangle, `detect` always returns. */
  lemma DetectOfWellFormed(pages: seq<PageDetections>, minScore: real, t: real)
    requires forall p, d :: 0 <= p < |pages| && d in pages[p].yolo + pages[p].publay ==>
      d.x2 > d.x1 && d.y2 > d.y1
    ensures DetectSpec(pages, minScore, t).Some?
  {
    DetectPages(pages, minScore, t);
    forall p | 0 <= p < |pages| ensures FusionSpec(PageBoxes(pages[p], p, minScore), t, MinSide).Some? {
      var page := pages[p];
      var bs := PageBoxes(page, p, minScore);
      AdmitMembers(page.yolo, p, minScore);
      AdmitMembers(page.publay, p, minScore);
      forall k | 0 <= k < |bs| ensures WellFormed(bs[k]) {
        if bs[k] in Admit(page.yolo, p, minScore) {
          var d :| d in page.yolo && d.score >= minScore && bs[k] == Tagged(d, p);
          assert d in page.yolo + page.publay;
        } else {
          assert bs[k] in Admit(page.publay, p, minScore);
          var d :| d in page.publay && d.score >= minScore && bs[k] == Tagged(d, p);
          assert d in page.yolo + page.publay;
        }
      }
      FusionOfWellFormed(bs, t, MinSide);
    }
  }

  /** One detector's loop: append each detection that meets the threshold. */
  method AdmitInto(cur: seq<Box>, ds: seq<Detection>, p: int, minScore: real) returns (r: seq<Box>)
    ensures r == cur + Admit(ds, p, minScore)
  {
    r := cur;
    for k := 0 to |ds|
      invariant r == cur + Admit(ds[..k], p, minScore)
    {
      var d := ds[k];
      assert ds[..k + 1][..k] == ds[..k];
      if d.score >= minScore {
        r := r + [Tagged(d, p)];
      }
    }
    assert ds[..|ds|] == ds;
  }

  /** The body of `detect`'s loop for page `p`: gather `cur` from both
      detectors, then fuse it. */
  method FusePage(pages: seq<PageDetections>, p: nat, minScore: real, t: real) returns (fused: Option<seq<Box>>)
    requires p < |pages|
    ensures fused == PageResults(pages, minScore, t)[p]
  {
    var page := pages[p];
    var cur := AdmitInto([], page.yolo, p, minScore);
    assert cur == Admit(page.yolo, p, minScore);
    cur := AdmitInto(cur, page.publay, p, minScore);
    fused := WeightedBoxFusion(cur, t, MinSide);
    PageResultsAt(pages, minScore, t, p);
  }

  /** One more page gathered. */
  lemma CollectSnoc(rs: seq<Option<seq<Box>>>, p: nat, done: seq<seq<Box>>)
    requires p < |rs| && Collect(rs, p) == Some(done)
    ensures Collect(rs, p + 1) == if rs[p].None? then None else Some(done + [rs[p].value])
  {
  }

  /** Once a page raises, nothing more is gathered. */
  lemma {:induction false} CollectStops(rs: seq<Option<seq<Box>>>, p: nat, n: nat)
    requires p <= n <= |rs| && Collect(rs, p) == None
    ensures Collect(rs, n) == None
  {
    if n > p {
      CollectStops(rs, p, n - 1);
    }
  }

  /** One pass of `detect`'s loop: fuse page `p` and append it to the pages
      done so far, or stop if fusion raises. */
  method DetectStep(pages: seq<PageDetections>, minScore: real, t: real, p: nat, done: seq<seq<Box>>)
    returns (next: Option<seq<seq<Box>>>)
    requires p < |pages| && Collect(PageResults(pages, minScore, t), p) == Some(done)
    ensures next == Collect(PageResults(pages, minScore, t), p + 1)
  {
    var fused := FusePage(pages, p, minScore, t);
    CollectSnoc(PageResults(pages, minScore, t), p, done);
    if fused.None? {
      return None;
    }
    next := Some(done + [fused.value]);
  }

  /** `detect`, with `cur` emptied for every page and the result returned
      once all pages are done. */
  method Detect(pages: seq<PageDetections>, minScore: real, t: real) returns (r: Option<seq<seq<Box>>>)
    ensures r == DetectSpec(pages, minScore, t)
  {
    ghost var rs := PageResults(pages, minScore, t);
    assert DetectSpec(pages, minScore, t) == Collect(rs, |pages|);
    var allPages: seq<seq<Box>> := [];
    for p := 0 to |pages|
      invariant Collect(rs, p) == Some(allPages)
    {
      var next := DetectStep(pages, minScore, t, p, allPages);
      if next.None? {
        CollectStops(rs, p + 1, |pages|);
        return None;
      }
      allPages := next.value;
    }
    r := Some(allPages);
  }
}
