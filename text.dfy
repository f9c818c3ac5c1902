/** The parts of Python's `str` that the core relies on: `isspace`, `strip`,
    `split()` with no separator and `" ".join`. */
module Text {

  /** Python's `str.isspace` for one character: the characters of Unicode
      bidirectional class WS, B or S, or of general category Zs. U+200B
      (ZERO WIDTH SPACE) is not one of them; U+00A0 (NO-BREAK SPACE) is. */
  predicate IsSpace(c: char)
  {
    var n := c as int;
    (9 <= n <= 13) || (28 <= n <= 32) || n == 0x85 || n == 0xA0 || n == 0x1680
    || (0x2000 <= n <= 0x200A) || n == 0x2028 || n == 0x2029 || n == 0x202F
    || n == 0x205F || n == 0x3000
  }

  /** Spaces, tabs, line breaks and U+00A0 are whitespace; U+200B and letters are not. */
  lemma IsSpaceExamples()
    ensures IsSpace(' ') && IsSpace('\t') && IsSpace('\n') && IsSpace('\U{A0}') && IsSpace('\U{3000}')
    ensures !IsSpace('\U{200B}') && !IsSpace('a') && !IsSpace('0')
  {
  }

  predicate NoSpace(s: string)
  {
    forall k :: 0 <= k < |s| ==> !IsSpace(s[k])
  }

  predicate AllSpace(s: string)
  {
    forall k :: 0 <= k < |s| ==> IsSpace(s[k])
  }

  /** Neither the first nor the last character is whitespace. */
  predicate Trimmed(s: string)
  {
    s == [] || (!IsSpace(s[0]) && !IsSpace(s[|s| - 1]))
  }

  /** The number of leading whitespace characters: what `lstrip()` cuts off. */
  function LeadingSpace(s: string): (n: nat)
    ensures n <= |s|
    ensures forall k :: 0 <= k < n ==> IsSpace(s[k])
    ensures n == |s| || !IsSpace(s[n])
  {
    if s == [] || !IsSpace(s[0]) then 0 else 1 + LeadingSpace(s[1..])
  }

  /** The length that `rstrip()` keeps: every character from it on is whitespace. */
  function TrailingStart(s: string): (n: nat)
    ensures n <= |s|
    ensures forall k :: n <= k < |s| ==> IsSpace(s[k])
    ensures n == 0 || !IsSpace(s[n - 1])
  {
    if s == [] || !IsSpace(s[|s| - 1]) then |s| else TrailingStart(s[..|s| - 1])
  }

  /** `strip()`: the slice of `s` from its first to its last non-whitespace
      character, empty when `s` is all whitespace. */
  function Strip(s: string): (r: string)
    ensures Trimmed(r)
    ensures r == [] <==> AllSpace(s)
    ensures r != [] ==> LeadingSpace(s) < TrailingStart(s) && r == s[LeadingSpace(s)..TrailingStart(s)]
  {
    var a, e := LeadingSpace(s), TrailingStart(s);
    if a == |s| then "" else s[a..e]
  }

  /** Length of the leading run of non-whitespace characters. */
  function WordLength(s: string): (n: nat)
    ensures n <= |s|
    ensures forall k :: 0 <= k < n ==> !IsSpace(s[k])
    ensures n == |s| || IsSpace(s[n])
  {
    if s == [] || IsSpace(s[0]) then 0 else 1 + WordLength(s[1..])
  }

  /** A word as `split()` yields it: non-empty, without whitespace. */
  predicate IsWord(w: string)
  {
    w != [] && NoSpace(w)
  }

  predicate AreWords(ws: seq<string>)
  {
    forall k :: 0 <= k < |ws| ==> IsWord(ws[k])
  }

  /** `split()` with no separator: the maximal runs of non-whitespace characters. */
  function Split(s: string): (ws: seq<string>)
    ensures AreWords(ws)
    decreases |s|
  {
    var t := s[LeadingSpace(s)..];
    if t == [] then []
    else
      var n := WordLength(t);
      [t[..n]] + Split(t[n..])
  }

  /** `" ".join(ws)`. */
  function JoinSpace(ws: seq<string>): string
  {
    if ws == [] then ""
    else if |ws| == 1 then ws[0]
    else ws[0] + " " + JoinSpace(ws[1..])
  }

  /** No two adjacent characters are both whitespace. */
  predicate SingleSpaced(s: string)
  {
    forall k :: 0 <= k < |s| - 1 ==> !(IsSpace(s[k]) && IsSpace(s[k + 1]))
  }

  /** Every whitespace character is the plain space U+0020. */
  predicate OnlyPlainSpace(s: string)
  {
    forall k :: 0 <= k < |s| ==> IsSpace(s[k]) ==> s[k] == ' '
  }

  /** The shape of `" ".join(words)`: trimmed, single spaces between words, and the
      joined string starts with the first word. */
  lemma {:induction false} JoinShape(ws: seq<string>)
    requires AreWords(ws)
    ensures var r := JoinSpace(ws);
      Trimmed(r) && SingleSpaced(r) && OnlyPlainSpace(r)
      && (ws == [] <==> r == [])
      && (ws != [] ==> |ws[0]| <= |r| && r[..|ws[0]|] == ws[0])
  {
    if |ws| > 1 {
      var tail := ws[1..];
      assert AreWords(tail) by {
        forall k | 0 <= k < |tail| ensures IsWord(tail[k]) { assert tail[k] == ws[k + 1]; }
      }
      JoinShape(tail);
      var w, j := ws[0], JoinSpace(tail);
      var r := w + " " + j;
      assert r == JoinSpace(ws);
      assert !IsSpace(j[0]) && !IsSpace(j[|j| - 1]);
      assert r[|r| - 1] == j[|j| - 1];
      forall k | 0 <= k < |r| ensures IsSpace(r[k]) ==> r[k] == ' ' {
        if k < |w| { assert r[k] == w[k]; }
        else if k > |w| { assert r[k] == j[k - |w| - 1]; }
      }
      forall k | 0 <= k < |r| - 1 ensures !(IsSpace(r[k]) && IsSpace(r[k + 1])) {
        if k + 1 < |w| {
          assert r[k] == w[k];
        } else if k + 1 == |w| {
          assert r[k] == w[k];
        } else if k == |w| {
          assert r[k + 1] == j[0];
        } else {
          assert r[k] == j[k - |w| - 1] && r[k + 1] == j[k - |w|];
        }
      }
      assert r[..|w|] == w;
    }
  }

  lemma WordLengthOfWord(w: string, rest: string)
    requires NoSpace(w)
    requires rest == [] || IsSpace(rest[0])
    ensures WordLength(w + rest) == |w|
    decreases |w|
  {
    if w != [] {
      assert (w + rest)[1..] == w[1..] + rest;
      WordLengthOfWord(w[1..], rest);
    } else {
      assert w + rest == rest;
    }
  }

  /** A word-initial string is not trimmed by `split()`. */
  lemma SplitOfWordStart(s: string)
    requires s != [] && !IsSpace(s[0])
    ensures Split(s) == [s[..WordLength(s)]] + Split(s[WordLength(s)..])
  {
    assert LeadingSpace(s) == 0;
    assert s[0..] == s;
  }

  /** One whitespace character before a word-initial string changes nothing for `split()`. */
  lemma SplitSkipsSpace(x: string)
    requires x != [] && !IsSpace(x[0])
    ensures Split(" " + x) == Split(x)
  {
    var y := " " + x;
    assert y[1..] == x;
    assert LeadingSpace(y) == 1;
    SplitOfWordStart(x);
  }

  lemma SplitOfWord(w: string)
    requires IsWord(w)
    ensures Split(w) == [w]
  {
    WordLengthOfWord(w, "");
    assert w + "" == w;
    SplitOfWordStart(w);
    assert w[|w|..] == [];
    assert w[..|w|] == w;
  }

  lemma SplitOfWordSpace(w: string, j: string)
    requires IsWord(w) && j != [] && !IsSpace(j[0])
    ensures Split(w + " " + j) == [w] + Split(j)
  {
    var r := w + (" " + j);
    assert r == w + " " + j;
    WordLengthOfWord(w, " " + j);
    SplitOfWordStart(r);
    assert r[..|w|] == w;
    assert r[|w|..] == " " + j;
    SplitSkipsSpace(j);
  }

  /** `split()` undoes `" ".join` on words: the round trip behind idempotence. */
  lemma {:induction false} SplitJoin(ws: seq<string>)
    requires AreWords(ws)
    ensures Split(JoinSpace(ws)) == ws
  {
    if |ws| == 1 {
      SplitOfWord(ws[0]);
    } else if |ws| > 1 {
      var tail := ws[1..];
      WordsTail(ws);
      JoinStartsWord(tail);
      SplitOfWordSpace(ws[0], JoinSpace(tail));
      SplitJoin(tail);
      assert ws == [ws[0]] + tail;
    }
  }

  lemma WordsTail(ws: seq<string>)
    requires AreWords(ws) && ws != []
    ensures AreWords(ws[1..])
  {
    var tail := ws[1..];
    forall k | 0 <= k < |tail| ensures IsWord(tail[k]) {
      assert tail[k] == ws[k + 1];
    }
  }

  /** `" ".join` of words, when not empty, starts with a non-whitespace character. */
  lemma JoinStartsWord(ws: seq<string>)
    requires AreWords(ws) && ws != []
    ensures JoinSpace(ws) != [] && !IsSpace(JoinSpace(ws)[0])
  {
    JoinShape(ws);
  }

  /** A reference for `" ".join(s.split())` that reads `s` one character at a
      time, `out` being what has been written so far: whitespace only marks a
      space as pending; any other character first writes the pending space,
      unless nothing has been written yet, and then itself. */
  function Squeeze(s: string, out: string, pending: bool): string
    decreases |s|
  {
    if s == [] then out
    else if IsSpace(s[0]) then Squeeze(s[1..], out, true)
    else Squeeze(s[1..], out + (if pending && out != [] then " " else "") + [s[0]], false)
  }

  /** Reading a word writes the pending space, if due, and the word. */
  lemma {:induction false} SqueezeWord(w: string, rest: string, out: string, pending: bool)
    requires w != [] && NoSpace(w)
    ensures Squeeze(w + rest, out, pending) ==
      Squeeze(rest, out + (if pending && out != [] then " " else "") + w, false)
    decreases |w|
  {
    var sep := if pending && out != [] then " " else "";
    var s := w + rest;
    assert s[0] == w[0] && !IsSpace(w[0]) && s[1..] == w[1..] + rest;
    assert Squeeze(s, out, pending) == Squeeze(w[1..] + rest, out + sep + [w[0]], false);
    if |w| == 1 {
      assert w[1..] + rest == rest && [w[0]] == w;
    } else {
      assert NoSpace(w[1..]) by {
        forall k | 0 <= k < |w| - 1 ensures !IsSpace(w[1..][k]) {
          assert w[1..][k] == w[k + 1];
        }
      }
      SqueezeWord(w[1..], rest, out + sep + [w[0]], false);
      assert out + sep + [w[0]] + "" + w[1..] == out + sep + w;
    }
  }

  /** Leading whitespace is skipped by `split()`. */
  lemma SplitOfSpaceStart(s: string)
    requires s != [] && IsSpace(s[0])
    ensures Split(s) == Split(s[1..])
  {
    assert s[LeadingSpace(s)..] == s[1..][LeadingSpace(s[1..])..];
  }

  /** `" ".join` of a word followed by more words. */
  lemma JoinCons(w: string, ws: seq<string>)
    ensures JoinSpace([w] + ws) == if ws == [] then w else w + " " + JoinSpace(ws)
  {
    assert ([w] + ws)[1..] == ws;
  }

  lemma Regroup(a: string, b: string, c: string, d: string, e: string)
    ensures a + b + c + (d + e) == a + (b + (c + d + e))
  {
  }

  /** What the character-by-character reading appends to `out`: nothing for
      an all-whitespace rest, otherwise the words of `split()` joined by single
      spaces, after a space when something was written and a space is due. */
  lemma {:induction false} SqueezeSplit(s: string, out: string, pending: bool)
    ensures Squeeze(s, out, pending) == out +
      (if Split(s) == [] then ""
       else (if out != [] && (pending || (s != [] && IsSpace(s[0]))) then " " else "") + JoinSpace(Split(s)))
    decreases |s|
  {
    if s == [] {
      assert out + "" == out;
    } else if IsSpace(s[0]) {
      SplitOfSpaceStart(s);
      SqueezeSplit(s[1..], out, true);
    } else {
      var n := WordLength(s);
      var w, rest := s[..n], s[n..];
      SplitOfWordStart(s);
      assert s == w + rest;
      SqueezeWord(w, rest, out, pending);
      var sep := if pending && out != [] then " " else "";
      SqueezeSplit(rest, out + sep + w, false);
      JoinCons(w, Split(rest));
      if Split(rest) == [] {
        assert out + sep + w + "" == out + (sep + w);
      } else {
        assert rest != [];
        Regroup(out, sep, w, " ", JoinSpace(Split(rest)));
      }
    }
  }

  /** A character absent from `s` is absent from every word of `split(s)`. */
  lemma {:induction false} SplitChars(s: string, c: char)
    requires c !in s
    ensures forall k :: 0 <= k < |Split(s)| ==> c !in Split(s)[k]
    decreases |s|
  {
    var t := s[LeadingSpace(s)..];
    if t != [] {
      var n := WordLength(t);
      assert c !in t;
      assert c !in t[n..] && c !in t[..n];
      SplitChars(t[n..], c);
      var ws := Split(s);
      assert ws == [t[..n]] + Split(t[n..]);
      forall k | 0 <= k < |ws| ensures c !in ws[k] {
        if k > 0 { assert ws[k] == Split(t[n..])[k - 1]; }
      }
    }
  }

  /** `" ".join` adds no character but the space. */
  lemma {:induction false} JoinChars(ws: seq<string>, c: char)
    requires c != ' '
    requires forall k :: 0 <= k < |ws| ==> c !in ws[k]
    ensures c !in JoinSpace(ws)
  {
    if |ws| > 1 {
      var tail := ws[1..];
      assert forall k :: 0 <= k < |tail| ==> tail[k] == ws[k + 1];
      JoinChars(tail, c);
      assert c !in " ";
    }
  }
}
