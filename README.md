# Layout fusion, OCR arbitration and chunking of the Viettel AI Race 2025 pipeline

This project models the document-processing core of the pipeline in Dafny:

- **Boxes** (`geometry.dfy`): the `Box` record with its `area` and `iou`
  methods. `iou` returns an `Option`. It is `None` exactly where Python's
  division by a zero union raises.
- **Weighted Box Fusion** (`fusion.dfy`), `LayoutAnalyzer._wbf`:
  - a stable sort by descending score;
  - greedy clustering of each unvisited box with the later unvisited boxes of the
    same kind;
  - one score-weighted box per cluster, with Python's `int()` truncation;
  - the final size filter.

  Two imperative methods over a `used` array are proved equal to a functional
  specification, `FusionSpec`. Lemmas about that specification state what
  fusion guarantees.
- **Per-page detection** (`layout.dfy`), `LayoutAnalyzer.detect`:
  - the score threshold;
  - tagging with the page index;
  - fusion of each page;
  - the list of pages.

  The detectors' outputs are parameters.
- **OCR post-processing** (`ocr.dfy`):
  - `_normalize` without its NFC step;
  - the perplexity-to-confidence map;
  - the arbitration between PaddleOCR and VietOCR in `__process__`.

  Model outputs are parameters.
- **Chunking** (`chunk.dfy`), `split_into_chunks`: overlapping windows, each
  stripped, with empty pieces dropped.
- **Support**:
  - `text.dfy`: Python's `str.isspace`, `strip`, `split()` and `" ".join` over
    `seq<char>`;
  - `stats.dfy`: sums, weighted means, minima and maxima over `seq<real>`;
  - `wrappers.dfy`: `Option`.

Integers are unbounded and floats are modelled as `real`.

The source, taken literally, does not run. Its defects are easy to see:

- a tuple is multiplied in `iou`;
- `cluster == 1` is passed to `len`;
- `return` sits inside the page loop of `detect` and inside the cluster loop of `_wbf`;
- `cur` and `all_pages` are never initialised;
- the `while` loop of `split_into_chunks` never ends.

The model follows the evidently intended code, and "## Left out" lists each
such choice. The two whose correction changes more than making the code run
(the `iou` formula and the chunking loop) are also modelled as written, under
"## Findings". A third kind of row there is code that runs but gives a result
its own other paths avoid: in `__process__`, blank PaddleOCR lines give an
empty text at a non-zero confidence (ocr.py:121). There `Ocr.Process` keeps
the code, and the corrected choice is `Ocr.Settle`.

## Model

| member | source | states |
|---|---|---|
| Geometry.Area | preprocess/config.py:102-103 | an ill-formed box has area 0; a well-formed box has the positive product of width and height |
| Geometry.Overlap | preprocess/config.py:112-116 | the common length of two intervals is at most each of their lengths, and is 0 exactly when they do not meet |
| Geometry.Intersection | preprocess/config.py:112-118 | the intersection is at most either area, and is 0 exactly when the boxes are disjoint or one is degenerate |
| Geometry.Union | preprocess/config.py:119 | the union is at least either area, and is 0 exactly when both boxes are degenerate |
| Geometry.IoU | preprocess/config.py:105-121 | defined exactly when one box is well formed (otherwise the division raises); when defined, it lies in [0, 1] |
| Geometry.IoUSelf | preprocess/config.py:105-121 | a well-formed box has IoU exactly 1 with itself |
| Geometry.IoUSymmetric | preprocess/config.py:105-121 | the intersection and the IoU do not depend on argument order |
| Geometry.IoUDisjoint | preprocess/config.py:105-121 | disjoint boxes have IoU 0 whenever it is defined |
| Geometry.IoUOverlapping | preprocess/config.py:105-121 | well-formed boxes that share interior points have positive IoU |
| Geometry.WrittenIoURaisesOnSelf | preprocess/config.py:118 | as written, `iou` raises even on a proper box compared with itself, where the intended value is 1 |
| Geometry.WrittenIoU | preprocess/config.py:105-121 | `iou` as written yields no value for any pair of boxes, because line 118 raises; WrittenIoURaisesOnSelf sets this against the intended value 1 |
| Geometry.WrittenIntersection | preprocess/config.py:112-118 | the intersection as written, with the tuple read as a difference: for proper boxes it is never less than the intended intersection, and equals it when the two bottoms coincide |
| Geometry.WrittenIntersectionOfStackedBoxes | preprocess/config.py:113 | as written, two disjoint stacked 10x10 boxes get intersection 100 instead of 0 |
| Fusion.Insert | preprocess/layout.py:97 | inserting adds exactly that box to the multiset of boxes |
| Fusion.SortByScore | preprocess/layout.py:97 | the sort is a permutation of its input |
| Fusion.SortDescending | preprocess/layout.py:97 | the sorted scores are non-increasing |
| Fusion.SortStable | preprocess/layout.py:97 | the boxes of any one score keep their input order (Python's sort is stable) |
| Fusion.NoneUsed | preprocess/layout.py:99 | one flag per box, none set |
| Fusion.Joiners | preprocess/layout.py:105-110 | the candidates are unvisited positions after the anchor, in increasing order |
| Fusion.JoinersSnoc | preprocess/layout.py:105-110 | a box that joins the anchor is appended after the joiners found before it |
| Fusion.JoinersRaise | preprocess/layout.py:105-110 | the scan raises exactly when some unvisited box of the anchor's kind has a zero union with the anchor |
| Fusion.JoinersMembers | preprocess/layout.py:105-110 | a position joins exactly when it is later, unvisited, of the anchor's kind, and reaches the IoU threshold |
| Fusion.MarkUsed | preprocess/layout.py:114 | after marking, a flag is set exactly when it was set before or its position is in the cluster |
| Fusion.ClustersFrom | preprocess/layout.py:100-115 | there are no more clusters than boxes left to visit |
| Fusion.ClustersShape | preprocess/layout.py:100-115 | every cluster is a non-empty list of positions of the sorted boxes |
| Fusion.ClustersPartition | preprocess/layout.py:99-115 | the clusters partition the unvisited positions: each appears exactly once, and no visited position appears |
| Fusion.ClustersGreedy | preprocess/layout.py:100-110 | each anchor is the first position not yet visited, and a cluster is its anchor plus exactly the later unvisited boxes of its kind that reach the threshold |
| Fusion.Weight | preprocess/layout.py:123 | the weight is the larger of the score and 1e-6, so positive and at least the score |
| Fusion.Trunc | preprocess/layout.py:134 | `int()` truncates toward zero, for both signs |
| Fusion.FusedCoord | preprocess/layout.py:117-134 | the truncated weighted mean of one coordinate; specified by FusedCoordBounds and CoordOfFused |
| Fusion.Fused | preprocess/layout.py:117-137 | the fused box of a cluster; specified by FusedBounds, FusedTwins and FusedFromTotals |
| Fusion.Emit | preprocess/layout.py:112-115 | a lone anchor is emitted unchanged; every emitted box keeps the anchor's kind and page |
| Fusion.KeepLarge | preprocess/layout.py:139 | a box is kept exactly when it is wider and taller than the bound, and nothing is added |
| Fusion.Large | preprocess/layout.py:139 | the size test, more than the bound wide and tall; specified through KeepLarge and KeepLargeConcat |
| Fusion.KeepLargeConcat | preprocess/layout.py:139 | the filter keeps order and multiplicity: filtering a concatenation concatenates the filtered parts, and one box is kept exactly when it is large, which fixes the filtered list completely |
| Fusion.FusedCoordBounds | preprocess/layout.py:121-134 | each fused coordinate lies between the cluster's smallest and largest value of that coordinate |
| Fusion.FusedBounds | preprocess/layout.py:117-138 | the fused box has every coordinate and its mean score within the members' extremes, and the anchor's kind and page |
| Fusion.FusedTwins | preprocess/layout.py:117-138 | two identical boxes fuse to that same box |
| Fusion.ClusterBoxes | preprocess/layout.py:99-138 | one emitted box per cluster: defined exactly when clustering does not raise, no more boxes than the input, each with the kind and page of an input box |
| Fusion.FusionSpec | preprocess/layout.py:95-139 | the whole fusion of one page; specified by FusionOutput, FusionKeepsPage, FusionScoreFloor, FusionOfWellFormed, FusionOfTwins and FusionOfSeparated, and met by WeightedBoxFusion |
| Fusion.FusionOfTwins | preprocess/layout.py:95-139 | two copies of a well-formed box above the size bound fuse into that one box, for any threshold up to 1 |
| Fusion.SortSeparated | preprocess/layout.py:97 | when no two boxes of one kind reach the threshold before sorting, none do after it |
| Fusion.ClustersOfSeparated | preprocess/layout.py:100-115 | when no two well-formed boxes of one kind reach the threshold, every unvisited box from the start position on is a cluster of its own |
| Fusion.FusionOfSeparated | preprocess/layout.py:95-139 | when no two well-formed boxes of one kind reach the threshold, fusion returns exactly the boxes sorted by descending score with the small ones dropped |
| Fusion.FusionOutput | preprocess/layout.py:95-139 | when fusion returns, it returns at most as many boxes as it got, each the emitted box of a cluster and above the size bound |
| Fusion.FusionKeepsPage | preprocess/layout.py:137 | when every input box has page `p`, every fused box has page `p` |
| Fusion.FusionScoreFloor | preprocess/layout.py:126-136 | a score that every input box reaches is reached by every fused box |
| Fusion.FusionOfWellFormed | preprocess/layout.py:109 | on proper rectangles, fusion never raises |
| Fusion.ClustersOfWellFormed | preprocess/layout.py:100-110 | on proper rectangles, clustering from any position never raises |
| Fusion.TotalsOf | preprocess/layout.py:121-131 | the six running sums over the first `m` members; TotalsStep gives each step and FusedFromTotals the fused box built from them |
| Fusion.AddBox | preprocess/layout.py:122-131 | one member's contribution to the running sums: its weight, its score and its weighted coordinates; TotalsStep ties it to TotalsOf |
| Fusion.TotalsStep | preprocess/layout.py:121-131 | the sums over `m + 1` members are the sums over `m` members plus member `m`'s contribution |
| Fusion.FusedFromTotals | preprocess/layout.py:117-138 | the box built from the six running sums is the fused box, and the total weight is positive |
| Fusion.ClusterTotals | preprocess/layout.py:117-131 | the accumulation loop ends with the sums over all cluster members |
| Fusion.FuseCluster | preprocess/layout.py:133-138 | the box appended for a cluster of two or more is the fused box of its members |
| Fusion.ScanJoiners | preprocess/layout.py:105-110 | the inner scan over the `used` array returns the specified joiners, or `None` where `iou` raises |
| Fusion.MarkVisited | preprocess/layout.py:114 | the array afterwards holds the old flags with the cluster's positions set |
| Fusion.EmitCluster | preprocess/layout.py:112-138 | the box appended for a cluster is the specified emitted box |
| Fusion.FuseSorted | preprocess/layout.py:99-138 | the main loop over the sorted boxes yields one emitted box per specified cluster, or `None` |
| Fusion.WeightedBoxFusion | preprocess/layout.py:95-139 | `_wbf` returns exactly `FusionSpec`: sort, cluster, emit, filter |
| Stats.WeightedMeanBounds | preprocess/layout.py:121-134 | with positive weights, the weighted mean keeps every common bound of the values |
| Stats.Mean | preprocess/ocr.py:103 | `np.mean` of a non-empty list, the sum over the count; MeanBounds puts it between the smallest and the largest value |
| Stats.MeanBounds | preprocess/ocr.py:103 | the mean lies between the minimum and the maximum |
| Layout.Tagged | preprocess/layout.py:76 | the tagged box carries the page index and the detector's score |
| Layout.Admit | preprocess/layout.py:75-76 | no more boxes are admitted than were detected |
| Layout.AdmitMembers | preprocess/layout.py:75-86 | a box is admitted exactly when it is the tagged form of a detection that scores at least the threshold |
| Layout.AdmitConcat | preprocess/layout.py:64-86 | the threshold keeps order and multiplicity: admitting a concatenation concatenates the admitted parts, and one detection is admitted, tagged, exactly when it reaches the threshold |
| Layout.PageBoxes | preprocess/layout.py:61-86 | YOLO's admitted boxes, then PubLayNet's; specified by PageBoxesMembers and AdmitConcat |
| Layout.PageBoxesMembers | preprocess/layout.py:61-86 | every box of a page carries that page and reaches the threshold; every qualifying detection of either detector is present |
| Layout.PageResultsAt | preprocess/layout.py:61-89 | page `p`'s result is the fusion of page `p`'s admitted boxes |
| Layout.Collect | preprocess/layout.py:90 | gathering `n` results yields `n` pages |
| Layout.CollectPages | preprocess/layout.py:90 | gathering succeeds exactly when every page does, and entry `p` is page `p`'s result |
| Layout.DetectSpec | preprocess/layout.py:57-92 | the list of page results; specified by DetectPages, DetectOutput and DetectOfWellFormed, and met by Detect |
| Layout.DetectPages | preprocess/layout.py:57-92 | `detect` returns exactly when every page's fusion returns, and then page `p` holds the fusion of page `p`'s admitted boxes |
| Layout.DetectOutput | preprocess/layout.py:57-92 | one list per page; every box on page `p` carries index `p`, scores at least the threshold, and is wider and taller than 10 |
| Layout.DetectOfWellFormed | preprocess/layout.py:57-92 | when every detection is a proper rectangle, `detect` returns |
| Layout.AdmitInto | preprocess/layout.py:67-76 | one detector's loop appends exactly the admitted boxes to `cur` |
| Layout.FusePage | preprocess/layout.py:63-89 | the loop body for page `p` yields page `p`'s specified result |
| Layout.DetectStep | preprocess/layout.py:89-90 | one pass appends page `p`'s fused boxes, or stops when that page raises |
| Layout.CollectStops | preprocess/layout.py:89 | once a page raises, the whole gathering raises |
| Layout.Detect | preprocess/layout.py:57-92 | the imperative `detect` returns exactly `DetectSpec` |
| Text.Strip | backend/app/services/chunk.py:6 | `strip()` gives a trimmed slice of the input; it is empty exactly when the input is all whitespace |
| Text.IsSpace | backend/app/services/chunk.py:6 | the whitespace table of `str.isspace`, by code point; see IsSpaceExamples |
| Text.IsSpaceExamples | preprocess/ocr.py:126-127 | space, tab, newline, U+00A0 and U+3000 are whitespace; U+200B, letters and digits are not |
| Text.LeadingSpace | backend/app/services/chunk.py:6 | the count covers a run of whitespace at the start and stops at the first other character |
| Text.TrailingStart | backend/app/services/chunk.py:6 | every character from that position on is whitespace, and the one before it is not |
| Text.Split | preprocess/ocr.py:127 | `split()` yields non-empty words without whitespace; SqueezeSplit fixes which words, in order |
| Text.JoinShape | preprocess/ocr.py:127 | joining words with single spaces gives a trimmed, single-spaced text whose only whitespace is U+0020; it is empty exactly when there are no words |
| Text.SplitJoin | preprocess/ocr.py:127 | `split()` undoes `" ".join` on words |
| Text.JoinSpace | preprocess/ocr.py:127 | `" ".join`; specified by JoinShape, JoinCons and SplitJoin |
| Text.JoinCons | preprocess/ocr.py:127 | joining a word before more words puts exactly one space between them |
| Text.SqueezeSplit | preprocess/ocr.py:127 | reading a string one character at a time, where whitespace only makes a space pending and any other character writes the pending space (unless nothing is written yet) and itself, appends exactly the joined words of `split()` |
| Ocr.DropKeeps | preprocess/ocr.py:126 | removing U+200B leaves none and keeps every other character present or absent; text without U+200B is unchanged |
| Ocr.DropZeroWidth | preprocess/ocr.py:126 | deleting U+200B never lengthens the text; specified by DropKeeps and DropConcat |
| Ocr.DropConcat | preprocess/ocr.py:126 | deletion from a concatenation is the concatenation of the deletions, and one character survives exactly when it is not U+200B, which fixes the result completely |
| Ocr.PlainAt | preprocess/ocr.py:126 | each U+00A0 becomes a space and every other character stays in place |
| Ocr.PlainSpaces | preprocess/ocr.py:126 | replacing U+00A0 keeps the length; PlainAt gives each position |
| Ocr.Collapse | preprocess/ocr.py:127 | `" ".join(s.split())`; specified by CollapseShape, CollapseIdempotent and CollapseByChars |
| Ocr.CollapseByChars | preprocess/ocr.py:127 | collapsing equals the character-by-character reading: each whitespace run between words becomes one space, leading and trailing whitespace goes, every other character stays in order |
| Ocr.CollapseShape | preprocess/ocr.py:127 | collapsing gives a trimmed, single-spaced text with only U+0020 as whitespace; it is empty exactly when the input is all whitespace |
| Ocr.CollapseIdempotent | preprocess/ocr.py:127 | collapsing twice is collapsing once |
| Ocr.NormalizeShape | preprocess/ocr.py:124-129 | normalised text is trimmed and single-spaced, with no U+200B, no U+00A0 and no whitespace but U+0020 |
| Ocr.NormalizeIdempotent | preprocess/ocr.py:124-129 | normalising normalised text changes nothing |
| Ocr.Normalize | preprocess/ocr.py:124-129 | `_normalize` without NFC; specified by NormalizeShape, NormalizeIdempotent and NormalizeExample |
| Ocr.NormalizeExample | preprocess/ocr.py:124-129 | `"a\u200bb\xa0c"` normalises to `"ab c"`: the zero-width space is deleted, not turned into a space |
| Ocr.GetPerplexity | preprocess/ocr.py:55-56 | the perplexity is infinite exactly when there is no language model or no text |
| Ocr.Confidence | preprocess/ocr.py:116 | the confidence is at least 0; it is 0 for infinite perplexity, at most 1 for finite non-negative perplexity, and 0 exactly when the perplexity reaches 50 |
| Ocr.ConfidenceAntitone | preprocess/ocr.py:116 | higher perplexity never gives higher confidence |
| Ocr.Primary | preprocess/ocr.py:90-103 | PaddleOCR's reading, the normalised joined lines and their mean score; specified by PrimaryConfidenceRange, NothingRead and BlankPrimaryFallsBack |
| Ocr.Secondary | preprocess/ocr.py:105-116 | VietOCR's reading, its normalised text and language-model confidence; specified by SecondaryConfidenceRange and NothingRead |
| Ocr.Arbitrate | preprocess/ocr.py:118-121 | the final choice between the two readings; specified by ArbitrateChoice |
| Ocr.ArbitrateChoice | preprocess/ocr.py:118-121 | VietOCR's text wins exactly when it is non-empty and beats PaddleOCR by more than 0.05; otherwise a non-empty PaddleOCR text is kept; the confidence is the larger one; the text is empty only when both are |
| Ocr.PrimaryConfidenceRange | preprocess/ocr.py:101-103 | line scores in [0, 1] give a PaddleOCR confidence in [0, 1] |
| Ocr.SecondaryConfidenceRange | preprocess/ocr.py:105-116 | VietOCR's confidence lies in [0, 1], and is 0 without a language model or without text |
| Ocr.NothingRead | preprocess/ocr.py:89-121 | when neither engine reads anything, the result is the empty text at confidence 0 |
| Ocr.BlankPrimaryFallsBack | preprocess/ocr.py:101-121 | PaddleOCR lines that are all whitespace normalise to "", so any VietOCR text is returned |
| Ocr.ScrubKeepsSpace | preprocess/ocr.py:126 | the two replacements leave all-whitespace text all whitespace |
| Ocr.LinesOf | preprocess/ocr.py:94-99 | a line is gathered exactly when it is one of the texts of a result that carries both keys |
| Ocr.ConfsOf | preprocess/ocr.py:94-99 | a score is gathered exactly when it is one of the scores of a result that carries both keys |
| Ocr.GatherLines | preprocess/ocr.py:94-99 | the loop collects the texts and scores of every result that carries both |
| Ocr.BlankLinesKeepScore | preprocess/ocr.py:101-121 | as written, one PaddleOCR line `" "` scored 0.9 and a VietOCR text `" "` give `("", 0.9)`: an empty text with a non-zero confidence |
| Ocr.Settle | preprocess/ocr.py:118-121 | the corrected choice: the same as Arbitrate whenever the text is non-empty, empty exactly when both texts are, and then at confidence 0 |
| Ocr.SettledBlankLines | preprocess/ocr.py:89-121 | under the corrected choice, blank or missing PaddleOCR lines and no VietOCR text give `("", 0.0)` however the lines were scored |
| Ocr.Process | preprocess/ocr.py:89-121 | the imperative `__process__` returns exactly the arbitration of the two readings |
| Chunk.NextStart | backend/app/services/chunk.py:7-8 | the next start is `end - overlap` raised to 0, so never before `end - overlap` and never negative |
| Chunk.WindowEnd | backend/app/services/chunk.py:5 | the end is the smaller of the text length and the start plus `max_chars` |
| Chunk.WindowsFrom | backend/app/services/chunk.py:4-8 | there are windows exactly when the start is inside the text, and the first starts there |
| Chunk.Windows | backend/app/services/chunk.py:3-8 | the windows of the whole text: the first starts at 0, and there are none exactly when the text is empty |
| Chunk.WindowsBounds | backend/app/services/chunk.py:4-8 | every window is a non-empty slice of at most `max_chars` characters; with a non-negative overlap, the last ends at the end of the text |
| Chunk.WindowsStep | backend/app/services/chunk.py:7 | each window starts exactly `overlap` characters before the previous one ended |
| Chunk.WindowsCover | backend/app/services/chunk.py:4-8 | with a non-negative overlap, every character lies in some window |
| Chunk.PieceShape | backend/app/services/chunk.py:6 | a piece is a contiguous part of its window, no longer than it, with no whitespace at either end, and empty exactly when the window is all whitespace |
| Chunk.Stripped | backend/app/services/chunk.py:6 | there is one stripped piece per window |
| Chunk.StrippedAt | backend/app/services/chunk.py:6 | piece `k` is window `k` stripped |
| Chunk.NonEmpty | backend/app/services/chunk.py:9 | the filter keeps exactly the non-empty pieces |
| Chunk.NonEmptyConcat | backend/app/services/chunk.py:9 | the filter keeps order and multiplicity: filtering a concatenation concatenates the filtered parts, and one piece is kept exactly when it is not empty |
| Chunk.Kept | backend/app/services/chunk.py:9 | the positions of the non-empty pieces, no more than there are pieces; KeptAt says they are exactly those positions, in increasing order |
| Chunk.KeptAt | backend/app/services/chunk.py:9 | entry `m` of the filtered list is the piece at the `m`-th non-empty position, the positions increase, and every non-empty position is one of them |
| Chunk.Chunks | backend/app/services/chunk.py:1-9 | the chunks as a function of the text; specified by ChunksMembers, ChunksInOrder and ChunkLength, and met by SplitIntoChunks |
| Chunk.ChunksOfEmpty | backend/app/services/chunk.py:1-9 | empty text gives no chunks |
| Chunk.ChunksMembers | backend/app/services/chunk.py:1-9 | the chunks are exactly the non-empty stripped windows |
| Chunk.ChunksInOrder | backend/app/services/chunk.py:1-9 | chunk `m` is the stripped text of the `m`-th window whose stripped text is not empty, the windows increase, and every such window gives a chunk |
| Chunk.ChunkLength | backend/app/services/chunk.py:5-6 | every chunk has between 1 and `max_chars` characters |
| Chunk.StripWindows | backend/app/services/chunk.py:2-8 | the loop, stopping after the window that reaches the end, appends every window stripped |
| Chunk.SplitIntoChunks | backend/app/services/chunk.py:1-9 | `split_into_chunks` returns exactly `Chunks` |
| Chunk.WrittenNext | backend/app/services/chunk.py:5-8 | one pass of the loop as written: from a start inside the text, a positive overlap lands inside the text again |
| Chunk.WrittenAfter | backend/app/services/chunk.py:3-8 | `i` after `k` passes of the loop as written, starting at 0; WrittenNeverStops keeps it inside non-empty text |
| Chunk.WrittenNeverStops | backend/app/services/chunk.py:4-8 | as written, on non-empty text with a positive overlap, `i < len(text)` holds after every pass |
| Chunk.WrittenRepeatsOnShortText | backend/app/services/chunk.py:7 | with the defaults, "abc" sends `i` from 0 back to 0, while the corrected loop visits one window |

## Left out

- Model loading and inference are replaced by parameters: YOLO, PubLayNet,
  PaddleOCR, VietOCR and the PhoBERT language model (`math.exp` of its loss is
  the `lmValue` argument). The same goes for image conversion with cv2 and
  numpy, and for the CUDA check. A detection arrives with integer coordinates
  and a score: the `int` conversions of the coordinates (layout.py:69, 82) and
  PubLayNet's default score of 0.5 for a block without one (84) happen before
  the model's input.
- `unicodedata.normalize("NFC", ...)`: Unicode normalisation is outside
  Dafny's strings. `Normalize` skips it, and `NormalizeIdempotent` holds for
  that model only.
- `_paddle_textLines` and `_convert2line` build values that are never used, so
  they are not modelled.
- The `Config` and `Markdown` records, the backend services, the API routes,
  the front end and all I/O are outside the core.
- Floats are modelled as exact `real`, with no rounding. Truncation by `int()`
  is modelled exactly.
- The thresholds `min_box_score` (0.3) and `wbf_iou_thresh` (0.5) are
  parameters `minScore` and `t`. The size bound 10 is the constant `MinSide`.
- `Box` is not a dataclass, so `Box(x1, ...)` raises `TypeError`. The model
  uses `Box` as the record it evidently is.
- `detect`:
  - `cur` and `all_pages` are only annotated, never assigned. The model starts
    `all_pages` empty and `cur` empty for every page.
  - The `return` inside the page loop is moved after the loop.
  - `self._wbf(...)` on a method without `self` is read as a static call.
- `_wbf`, modelled as the greedy WBF it evidently is:
  - The anchor is the first member of its cluster.
  - `len(cluster == 1)` is read as `len(cluster) == 1`.
  - Every member of a fused cluster is marked visited.
  - `Box(int(sum_x1 / sum_w), int(sum_y1 / sum_w), int(sum_x2 / sum_w))` at
    layout.py:134 passes three of the seven fields, and the label, score and
    page go to `append` as extra arguments (135-137). The model builds the
    whole box and adds the missing bottom edge as `int(sum_y2 / sum_w)`.
  - The size filter runs once, after the loop; as written, `return` sits
    inside it.
  - A zero union in `iou` raises `ZeroDivisionError`; the model returns
    `None` and `detect` propagates it.
- Geometry.IoU: follows the evidently intended formula, not the one written
  (both differences are under "## Findings"):
  - the bottom of the overlap is the smaller bottom, where line 113 takes
    `max(self.y2, other.y2)`;
  - the tuple `(y_min2, y_max1)` at line 118 is read as the difference
    `y_min2 - y_max1`;
  - the overlap of each axis is clamped at 0 before the two are multiplied,
    where line 118 clamps the product. Two boxes apart on both axes thus get
    0, not a positive product of two negative lengths.
- `__process__`:
  - When VietOCR is missing, `self.vietocr_detector` is never assigned
    (ocr.py:30-34), so `if self.vietocr_detector` (106) raises
    `AttributeError`. The model treats a missing engine (`NoEngine`) as no
    reading: `""` at confidence 0.
  - When VietOCR returns empty text, `if text:` (113) skips the assignments,
    `text2, conf2` keep their initial `[], []` (105), and `conf2 > conf1 + 0.05`
    (118) raises `TypeError`. The model (`Predicted("")`) gives `""` at
    confidence 0 instead.
  - A VietOCR call that raises leaves `text` unbound. The model reads that as
    no text.
- Ocr.NothingRead: covers only PaddleOCR giving no lines at all. Lines that
  are all whitespace normalise to `""` but keep their mean score, so the
  result can be empty text at a non-zero confidence. Ocr.Process keeps this,
  as the code does; the corrected Ocr.Settle is under "## Findings".
- Chunk.SplitIntoChunks: requires `0 < max_chars` and `overlap < max_chars`.
  The only caller, backend/app/tasks.py:18, passes the defaults 1200 and 150,
  which meet both. Other arguments are not modelled: with them the corrected
  loop can start the same window again and again, e.g. "abcdef" with
  `max_chars` 5 and `overlap` 10.
- Chunk.WindowsCover: requires a non-negative overlap. A negative overlap
  skips characters between windows, as the source would.

## Findings

| source | as written | input that shows it | evidently intended | confidence | as-written member | corrected member |
|---|---|---|---|---|---|---|
| preprocess/config.py:118 | `(x_min2 - x_max1) * (y_min2, y_max1)` repeats the tuple `(y_min2, y_max1)`, and `max(0, <tuple>)` then compares an int with a tuple, so `iou` raises `TypeError` on every call | any box compared with itself, e.g. (0, 0, 10, 10) | `(x_min2 - x_max1) * (y_min2 - y_max1)`, with each axis clamped at 0 | high, not executed | Geometry.WrittenIoURaisesOnSelf | Geometry.IoUSelf |
| preprocess/config.py:113 | `y_min2 = max(self.y2, other.y2)` takes the larger bottom. As written, `iou` raises at line 118 before this matters; once the tuple there is read as the difference (`WrittenIntersection`), boxes stacked apart vertically get a positive intersection | (0, 0, 10, 10) and (0, 20, 10, 30) give 100 instead of 0 | `min(self.y2, other.y2)` | high, not executed | Geometry.WrittenIntersectionOfStackedBoxes | Geometry.Intersection |
| backend/app/services/chunk.py:7 | after the window that reaches the end, `i = end - overlap` is below `len(text)` again, so the loop never ends | "abc" with the defaults, 1200 and 150: `i` goes 0, 0, 0, ... | stop once `end == len(text)` | high, not executed | Chunk.WrittenNeverStops | Chunk.SplitIntoChunks |
| preprocess/ocr.py:121 | PaddleOCR lines that are all whitespace make `text1` empty after `_normalize` while `conf1` keeps their mean score, so `text1 or text2, max(conf1, conf2)` returns empty text at a non-zero confidence | one PaddleOCR line `" "` scored 0.9 and a VietOCR text `" "`: `("", 0.9)` | empty text at confidence 0, as for no lines at all | medium, not executed | Ocr.BlankLinesKeepScore | Ocr.Settle |
