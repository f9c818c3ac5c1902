/** `split_into_chunks`: a sliding window of `maxChars` characters over the
    text, each next window starting `overlap` characters before the previous
    one ended, each window stripped and the empty ones dropped. */
module Chunk {
  import opened Text
  import opened Stats

  /** Where the window starting at `i` ends: `min(len(text), i + max_chars)`. */
  function WindowEnd(n: nat, i: nat, maxChars: int): (e: int)
    ensures e <= n && e <= i + maxChars && (e == n || e == i + maxChars)
  {
    Min(n, i + maxChars)
  }

  /** `i = end - overlap`, raised to 0 when negative. */
  function NextStart(end: int, overlap: int): (i: nat)
    ensures i == Max(0, end - overlap) && i >= end - overlap
  {
    if end - overlap < 0 then 0 else end - overlap
  }

  /** A window `text[start:end]`. */
  datatype Window = Window(start: nat, end: nat)

  /** The windows visited from start `i` on, stopping after the window that
      reaches the end of the text. */
  function WindowsFrom(n: nat, i: nat, maxChars: int, overlap: int): (ws: seq<Window>)
    requires 0 < maxChars && overlap < maxChars
    ensures i < n <==> ws != []
    ensures ws != [] ==> ws[0].start == i
    decreases n - i
  {
    if i >= n then []
    else
      var end := WindowEnd(n, i, maxChars);
      if end == n then [Window(i, end)]
      else [Window(i, end)] + WindowsFrom(n, NextStart(end, overlap), maxChars, overlap)
  }

  /** All windows of a text of length `n`: the first starts at 0, and there
      are none exactly when the text is empty. */
  function Windows(n: nat, maxChars: int, overlap: int): (ws: seq<Window>)
    requires 0 < maxChars && overlap < maxChars
    ensures 0 < n <==> ws != []
    ensures ws != [] ==> ws[0].start == 0
  {
    WindowsFrom(n, 0, maxChars, overlap)
  }

  /** Every window is a non-empty slice of at most `maxChars` characters
      that starts no earlier than `i`; with a non-negative overlap the last
      one ends at the end of the text. */
  lemma {:induction false} WindowsBounds(n: nat, i: nat, maxChars: int, overlap: int)
    requires 0 < maxChars && overlap < maxChars
    ensures var ws := WindowsFrom(n, i, maxChars, overlap);
      (forall k :: 0 <= k < |ws| ==>
         i <= ws[k].start < ws[k].end <= n && ws[k].end - ws[k].start <= maxChars)
      && (ws != [] && overlap >= 0 ==> ws[|ws| - 1].end == n)
    decreases n - i
  {
    if i < n {
      var end := WindowEnd(n, i, maxChars);
      WindowsFromStep(n, i, maxChars, overlap);
      if end != n {
        var j := NextStart(end, overlap);
        WindowsBounds(n, j, maxChars, overlap);
        var ws, rest := WindowsFrom(n, i, maxChars, overlap), WindowsFrom(n, j, maxChars, overlap);
        forall k | 0 <= k < |ws| ensures i <= ws[k].start < ws[k].end <= n && ws[k].end - ws[k].start <= maxChars {
          if k > 0 {
            assert ws[k] == rest[k - 1];
          }
        }
        if overlap >= 0 {
          assert rest != [] by {
            assert ws[1..] == rest;
            assert j < n;
          }
          assert ws[|ws| - 1] == rest[|rest| - 1];
        }
      }
    }
  }

  /** `text[start:end].strip()`; Python's slice is empty when the window
      does not fit, which the windows here always do. */
  function Piece(text: string, w: Window): (c: string)
    ensures w.start <= w.end <= |text| ==> c == Strip(text[w.start..w.end])
  {
    if w.start <= w.end <= |text| then Strip(text[w.start..w.end]) else ""
  }

  /** What stripping a window gives: a contiguous slice of the window, no
      longer than it, with no whitespace at either end, and empty exactly
      when the window is all whitespace. */
  lemma PieceShape(text: string, w: Window)
    requires w.start <= w.end <= |text|
    ensures var s, c := text[w.start..w.end], Piece(text, w);
      Trimmed(c) && |c| <= |s| && (c == "" <==> AllSpace(s))
      && exists a, e :: 0 <= a <= e <= |s| && c == s[a..e]
  {
    var s := text[w.start..w.end];
    var c := Strip(s);
    assert c == s[0..0] || c == s[LeadingSpace(s)..TrailingStart(s)];
  }

  /** The stripped windows, before empty ones are dropped. */
  function Stripped(text: string, ws: seq<Window>): (cs: seq<string>)
    ensures |cs| == |ws|
  {
    if ws == [] then [] else Stripped(text, ws[..|ws| - 1]) + [Piece(text, ws[|ws| - 1])]
  }

  /** Entry `k` of the stripped windows is window `k` stripped. */
  lemma {:induction false} StrippedAt(text: string, ws: seq<Window>)
    ensures forall k :: 0 <= k < |ws| ==> Stripped(text, ws)[k] == Piece(text, ws[k])
  {
    if ws != [] {
      var init := ws[..|ws| - 1];
      StrippedAt(text, init);
    }
  }

  /** `[c for c in chunks if c]`. */
  function NonEmpty(cs: seq<string>): (r: seq<string>)
    ensures |r| <= |cs|
    ensures forall c :: c in r <==> c in cs && c != ""
  {
    if cs == [] then []
    else NonEmpty(cs[..|cs| - 1]) + (if cs[|cs| - 1] != "" then [cs[|cs| - 1]] else [])
  }

  /** The chunks of `text`, as a function of the text. */
  function Chunks(text: string, maxChars: int, overlap: int): seq<string>
    requires 0 < maxChars && overlap < maxChars
  {
    NonEmpty(Stripped(text, Windows(|text|, maxChars, overlap)))
  }

  /** Each window after the first starts exactly `overlap` characters before
      the previous one ended. */
  lemma {:induction false} WindowsStep(n: nat, i: nat, maxChars: int, overlap: int)
    requires 0 < maxChars && overlap < maxChars
    ensures var ws := WindowsFrom(n, i, maxChars, overlap);
      forall k :: 0 <= k < |ws| - 1 ==> ws[k + 1].start == ws[k].end - overlap
    decreases n - i
  {
    if i < n {
      var end := WindowEnd(n, i, maxChars);
      if end != n {
        var j := NextStart(end, overlap);
        WindowsFromStep(n, i, maxChars, overlap);
        WindowsStep(n, j, maxChars, overlap);
        var ws := WindowsFrom(n, i, maxChars, overlap);
        var rest := WindowsFrom(n, j, maxChars, overlap);
        assert end - overlap >= 0;
        forall k | 0 <= k < |ws| - 1 ensures ws[k + 1].start == ws[k].end - overlap {
          if k == 0 {
            assert ws[1] == rest[0];
          } else {
            assert ws[k] == rest[k - 1] && ws[k + 1] == rest[k];
          }
        }
      }
    }
  }

  /** With a non-negative overlap the windows cover every character from `i` on. */
  lemma {:induction false} WindowsCover(n: nat, i: nat, maxChars: int, overlap: int, x: nat)
    requires 0 < maxChars && 0 <= overlap < maxChars
    requires i <= x < n
    ensures var ws := WindowsFrom(n, i, maxChars, overlap);
      exists k :: 0 <= k < |ws| && ws[k].start <= x < ws[k].end
    decreases n - i
  {
    var ws := WindowsFrom(n, i, maxChars, overlap);
    var end := WindowEnd(n, i, maxChars);
    WindowsFromStep(n, i, maxChars, overlap);
    if x < end {
      assert ws[0].start <= x < ws[0].end;
    } else {
      var j := NextStart(end, overlap);
      assert j <= x;
      WindowsCover(n, j, maxChars, overlap, x);
      var rest := WindowsFrom(n, j, maxChars, overlap);
      var k :| 0 <= k < |rest| && rest[k].start <= x < rest[k].end;
      assert ws[k + 1] == rest[k];
    }
  }

  /** Empty text gives no chunks. */
  lemma ChunksOfEmpty(maxChars: int, overlap: int)
    requires 0 < maxChars && overlap < maxChars
    ensures Chunks("", maxChars, overlap) == []
  {
  }

  /** No chunk is empty, each is a stripped window of at most `maxChars`
      characters, and every non-empty stripped window is a chunk. */
  lemma ChunksMembers(text: string, maxChars: int, overlap: int)
    requires 0 < maxChars && overlap < maxChars
    ensures var ws := Windows(|text|, maxChars, overlap);
      forall c :: c in Chunks(text, maxChars, overlap) <==>
        c != "" && exists k :: 0 <= k < |ws| && c == Piece(text, ws[k])
  {
    var ws := Windows(|text|, maxChars, overlap);
    var cs := Stripped(text, ws);
    StrippedAt(text, ws);
    forall c ensures c in cs <==> exists k :: 0 <= k < |ws| && c == Piece(text, ws[k]) {
      if c in cs {
        var k :| 0 <= k < |cs| && cs[k] == c;
      }
    }
  }

  /** Dropping the empty entries keeps the others in their order: filtering a
      concatenation concatenates the filtered parts, and a single entry is kept
      exactly when it is not empty. */
  lemma {:induction false} NonEmptyConcat(a: seq<string>, b: seq<string>, c: string)
    ensures NonEmpty(a + b) == NonEmpty(a) + NonEmpty(b)
    ensures NonEmpty([c]) == if c != "" then [c] else []
  {
    if b == [] {
      assert a + b == a;
    } else {
      var ab, init, last := a + b, b[..|b| - 1], b[|b| - 1];
      assert ab[..|ab| - 1] == a + init && ab[|ab| - 1] == last;
      var tail := if last != "" then [last] else [];
      calc {
        NonEmpty(ab);
        NonEmpty(a + init) + tail;
        { NonEmptyConcat(a, init, c); }
        (NonEmpty(a) + NonEmpty(init)) + tail;
        NonEmpty(a) + (NonEmpty(init) + tail);
        NonEmpty(a) + NonEmpty(b);
      }
    }
    assert NonEmpty([c]) == NonEmpty([]) + (if c != "" then [c] else []) by {
      assert [c][..0] == [];
    }
  }

  /** The positions of the non-empty entries, in increasing order. */
  function Kept(cs: seq<string>): (ks: seq<nat>)
    ensures |ks| <= |cs|
  {
    if cs == [] then []
    else Kept(cs[..|cs| - 1]) + (if cs[|cs| - 1] != "" then [|cs| - 1] else [])
  }

  /** Entry `m` of the filtered list is the `m`-th non-empty entry: `Kept`
      lists exactly the non-empty positions, increasing, and the filter picks
      the entries at those positions. */
  lemma {:induction false} KeptAt(cs: seq<string>)
    ensures var ks, r := Kept(cs), NonEmpty(cs);
      |ks| == |r|
      && (forall m :: 0 <= m < |ks| ==> ks[m] < |cs| && cs[ks[m]] != "" && r[m] == cs[ks[m]])
      && (forall m, m' :: 0 <= m < m' < |ks| ==> ks[m] < ks[m'])
      && (forall k :: 0 <= k < |cs| && cs[k] != "" ==> k in ks)
  {
    if cs != [] {
      var n := |cs| - 1;
      var init := cs[..n];
      KeptAt(init);
      var ks, r := Kept(cs), NonEmpty(cs);
      var ks0, r0 := Kept(init), NonEmpty(init);
      forall m | 0 <= m < |ks| ensures ks[m] < |cs| && cs[ks[m]] != "" && r[m] == cs[ks[m]] {
        if m < |ks0| {
          assert ks[m] == ks0[m] && r[m] == r0[m] && cs[ks[m]] == init[ks[m]];
        }
      }
      forall k | 0 <= k < |cs| && cs[k] != "" ensures k in ks {
        if k < n {
          assert cs[k] == init[k];
        }
      }
    }
  }

  /** The chunks in order: chunk `m` is the stripped window at the `m`-th
      position whose stripped window is not empty, and every such position
      gives a chunk. */
  lemma ChunksInOrder(text: string, maxChars: int, overlap: int)
    requires 0 < maxChars && overlap < maxChars
    ensures var ws := Windows(|text|, maxChars, overlap);
      var ks, cs := Kept(Stripped(text, ws)), Chunks(text, maxChars, overlap);
      |ks| == |cs|
      && (forall m :: 0 <= m < |cs| ==> ks[m] < |ws| && cs[m] != "" && cs[m] == Piece(text, ws[ks[m]]))
      && (forall m, m' :: 0 <= m < m' < |ks| ==> ks[m] < ks[m'])
      && (forall k :: 0 <= k < |ws| && Piece(text, ws[k]) != "" ==> k in ks)
  {
    var ws := Windows(|text|, maxChars, overlap);
    KeptAt(Stripped(text, ws));
    StrippedAt(text, ws);
  }

  /** A stripped chunk is no longer than its window. */
  lemma ChunkLength(text: string, maxChars: int, overlap: int)
    requires 0 < maxChars && overlap < maxChars
    ensures forall c :: c in Chunks(text, maxChars, overlap) ==> 0 < |c| <= maxChars
  {
    var ws := Windows(|text|, maxChars, overlap);
    WindowsBounds(|text|, 0, maxChars, overlap);
    ChunksMembers(text, maxChars, overlap);
    forall c | c in Chunks(text, maxChars, overlap) ensures 0 < |c| <= maxChars {
      var k :| 0 <= k < |ws| && c == Piece(text, ws[k]);
      StripLength(text[ws[k].start..ws[k].end]);
    }
  }

  lemma StripLength(s: string)
    ensures |Strip(s)| <= |s|
  {
  }

  /** One window, then the windows after it. */
  lemma WindowsFromStep(n: nat, i: nat, maxChars: int, overlap: int)
    requires 0 < maxChars && overlap < maxChars && i < n
    ensures var end := WindowEnd(n, i, maxChars);
      end < n ==> end - overlap > i
    ensures var end := WindowEnd(n, i, maxChars);
      WindowsFrom(n, i, maxChars, overlap) ==
        [Window(i, end)] + (if end == n then [] else WindowsFrom(n, NextStart(end, overlap), maxChars, overlap))
  {
  }

  lemma StrippedSnoc(text: string, ws: seq<Window>, w: Window)
    ensures Stripped(text, ws + [w]) == Stripped(text, ws) + [Piece(text, w)]
  {
    assert (ws + [w])[..|ws|] == ws;
  }

  /** The windows still to visit after the one starting at `i`. */
  lemma Advance(all: seq<Window>, seen: seq<Window>, n: nat, i: nat, maxChars: int, overlap: int)
    requires 0 < maxChars && overlap < maxChars && i < n
    requires all == seen + WindowsFrom(n, i, maxChars, overlap)
    ensures var end := WindowEnd(n, i, maxChars);
      (end == n ==> all == seen + [Window(i, end)])
      && (end < n ==>
            end - overlap > i
            && all == (seen + [Window(i, end)]) + WindowsFrom(n, NextStart(end, overlap), maxChars, overlap))
  {
    WindowsFromStep(n, i, maxChars, overlap);
    var end := WindowEnd(n, i, maxChars);
    if end < n {
      var rest := WindowsFrom(n, NextStart(end, overlap), maxChars, overlap);
      assert seen + ([Window(i, end)] + rest) == (seen + [Window(i, end)]) + rest;
    }
  }

  /** The loop of `split_into_chunks`, stopping once a window reaches the end
      of the text: every window, stripped. */
  method StripWindows(text: string, maxChars: int, overlap: int) returns (raw: seq<string>)
    requires 0 < maxChars && overlap < maxChars
    ensures raw == Stripped(text, Windows(|text|, maxChars, overlap))
  {
    var n := |text|;
    ghost var all := Windows(n, maxChars, overlap);
    ghost var seen: seq<Window> := [];
    raw := [];
    var i: int := 0;
    while i < n
      invariant 0 <= i
      invariant all == seen + WindowsFrom(n, i, maxChars, overlap)
      invariant raw == Stripped(text, seen)
      decreases n - i
    {
      var end := WindowEnd(n, i, maxChars);
      var w := Window(i, end);
      Advance(all, seen, n, i, maxChars, overlap);
      StrippedSnoc(text, seen, w);
      raw := raw + [Piece(text, w)];
      seen := seen + [w];
      if end == n {
        break;
      }
      i := end - overlap;
      if i < 0 {
        i := 0;
      }
      assert i == NextStart(end, overlap);
    }
    assert all == seen;
  }

  /** `split_into_chunks`: the stripped windows, empty ones dropped. */
  method SplitIntoChunks(text: string, maxChars: int, overlap: int) returns (chunks: seq<string>)
    requires 0 < maxChars && overlap < maxChars
    ensures chunks == Chunks(text, maxChars, overlap)
  {
    var raw := StripWindows(text, maxChars, overlap);
    chunks := NonEmpty(raw);
  }

  // ---------------------------------------------------------------------------
  // The loop as written, without the stop at the end of the text.

  /** One pass of the loop body as written: the next value of `i`. From a
      start inside the text, a positive overlap always lands inside it again. */
  function WrittenNext(n: nat, i: nat, maxChars: int, overlap: int): (j: nat)
    ensures i < n && 0 < overlap ==> j < n
  {
    NextStart(WindowEnd(n, i, maxChars), overlap)
  }

  /** `i` after `k` passes, starting from 0. */
  function WrittenAfter(n: nat, maxChars: int, overlap: int, k: nat): nat
  {
    if k == 0 then 0 else WrittenNext(n, WrittenAfter(n, maxChars, overlap, k - 1), maxChars, overlap)
  }

  /** On non-empty text with a positive overlap, `i < len(text)` holds after
      every pass, so the loop as written never ends. */
  lemma {:induction false} WrittenNeverStops(n: nat, maxChars: int, overlap: int, k: nat)
    requires 0 < n && 0 < overlap
    ensures WrittenAfter(n, maxChars, overlap, k) < n
  {
    if k > 0 {
      WrittenNeverStops(n, maxChars, overlap, k - 1);
    }
  }

  /** With the defaults (1200, 150) the three-character text "abc" sends `i`
      from 0 back to 0: the window "abc" is appended forever. */
  lemma WrittenRepeatsOnShortText()
    ensures WrittenNext(3, 0, 1200, 150) == 0
    ensures Windows(3, 1200, 150) == [Window(0, 3)]
  {
  }
}
