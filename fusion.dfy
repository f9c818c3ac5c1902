/** Weighted Box Fusion (`LayoutAnalyzer._wbf`): sort the page's detections by
    score, cluster each best unvisited box with the later unvisited boxes of the
    same kind that overlap it enough, and emit one averaged box per cluster. */
module Fusion {
  import opened Wrappers
  import opened Geometry
  import opened Stats

  // ---------------------------------------------------------------------------
  // Sorting: `sorted(boxes, key=lambda box: box.score, reverse=True)`, which is stable.

  /** Puts `b` before the first box that does not score higher, so that `b`
      precedes the boxes of equal score that came after it in the input. */
  function Insert(b: Box, s: seq<Box>): (r: seq<Box>)
    ensures multiset(r) == multiset(s) + multiset{b}
  {
    if s == [] || s[0].score <= b.score then [b] + s
    else assert s == [s[0]] + s[1..]; [s[0]] + Insert(b, s[1..])
  }

  function SortByScore(s: seq<Box>): (r: seq<Box>)
    ensures multiset(r) == multiset(s) && |r| == |s|
  {
    if s == [] then [] else assert s == [s[0]] + s[1..]; Insert(s[0], SortByScore(s[1..]))
  }

  predicate Descending(s: seq<Box>)
  {
    forall i, j :: 0 <= i < j < |s| ==> s[i].score >= s[j].score
  }

  /** The boxes of score `v`, in order. */
  function WithScore(s: seq<Box>, v: real): seq<Box>
  {
    if s == [] then [] else (if s[0].score == v then [s[0]] else []) + WithScore(s[1..], v)
  }

  /** No box scores above `v`. */
  predicate AtMost(s: seq<Box>, v: real)
  {
    forall k :: 0 <= k < |s| ==> s[k].score <= v
  }

  lemma {:induction false} InsertAtMost(b: Box, s: seq<Box>, v: real)
    requires AtMost(s, v) && b.score <= v
    ensures AtMost(Insert(b, s), v)
  {
    if s != [] && s[0].score > b.score {
      InsertAtMost(b, s[1..], v);
    }
  }

  lemma {:induction false} InsertDescending(b: Box, s: seq<Box>)
    requires Descending(s)
    ensures Descending(Insert(b, s))
  {
    if s != [] && s[0].score > b.score {
      var tail := s[1..];
      InsertDescending(b, tail);
      InsertAtMost(b, tail, s[0].score);
      var r, t := Insert(b, s), Insert(b, tail);
      assert r == [s[0]] + t;
      forall i, j | 0 <= i < j < |r| ensures r[i].score >= r[j].score {
        assert r[j] == t[j - 1];
        if i > 0 { assert r[i] == t[i - 1]; }
      }
    }
  }

  /** The sort puts the scores in non-increasing order (and, by its contract,
      is a permutation of its input). */
  lemma {:induction false} SortDescending(s: seq<Box>)
    ensures Descending(SortByScore(s))
  {
    if s != [] {
      SortDescending(s[1..]);
      InsertDescending(s[0], SortByScore(s[1..]));
    }
  }

  lemma {:induction false} InsertWithScore(b: Box, s: seq<Box>, v: real)
    ensures WithScore(Insert(b, s), v) == (if b.score == v then [b] else []) + WithScore(s, v)
  {
    if s != [] && s[0].score > b.score {
      var t := Insert(b, s[1..]);
      InsertWithScore(b, s[1..], v);
      assert Insert(b, s) == [s[0]] + t;
      WithScoreCons(s[0], t, v);
      WithScoreCons(s[0], s[1..], v);
      assert s == [s[0]] + s[1..];
      var e0, eb, w1 := (if s[0].score == v then [s[0]] else []), (if b.score == v then [b] else []), WithScore(s[1..], v);
      assert e0 == [] || eb == [];
      assert e0 + (eb + w1) == eb + (e0 + w1);
    } else {
      WithScoreCons(b, s, v);
    }
  }

  lemma WithScoreCons(x: Box, s: seq<Box>, v: real)
    ensures WithScore([x] + s, v) == (if x.score == v then [x] else []) + WithScore(s, v)
  {
    assert ([x] + s)[1..] == s;
  }

  /** Stability: the boxes of any one score keep their input order. */
  lemma {:induction false} SortStable(s: seq<Box>, v: real)
    ensures WithScore(SortByScore(s), v) == WithScore(s, v)
  {
    if s != [] {
      SortStable(s[1..], v);
      InsertWithScore(s[0], SortByScore(s[1..]), v);
    }
  }

  // ---------------------------------------------------------------------------
  // Clustering, as a function of the sorted boxes and the visited flags.

  /** A visited flag per sorted box, none set. */
  function NoneUsed(n: nat): (u: seq<bool>)
    ensures |u| == n && forall k :: 0 <= k < n ==> !u[k]
  {
    seq(n, _ => false)
  }

  /** Box `k` joins the cluster anchored at box `i`. */
  predicate Joins(s: seq<Box>, used: seq<bool>, t: real, i: nat, k: nat)
    requires |used| == |s| && i < |s| && k < |s|
  {
    !used[k] && s[k].kind == s[i].kind && IoUAtLeast(s[i], s[k], t)
  }

  /** Comparing box `k` with the anchor `i` raises: the union is zero. */
  predicate Raises(s: seq<Box>, used: seq<bool>, i: nat, k: nat)
    requires |used| == |s| && i < |s| && k < |s|
  {
    !used[k] && s[k].kind == s[i].kind && IoU(s[i], s[k]).None?
  }

  /** The boxes among positions i+1 .. j-1 that join the cluster anchored at `i`,
      in increasing order; `None` when one of the comparisons raises. */
  function Joiners(s: seq<Box>, used: seq<bool>, t: real, i: nat, j: nat): (r: Option<seq<nat>>)
    requires |used| == |s| && i < j <= |s|
    ensures r.Some? ==> forall m :: 0 <= m < |r.value| ==> i < r.value[m] < j && !used[r.value[m]]
    ensures r.Some? ==> forall m, m' :: 0 <= m < m' < |r.value| ==> r.value[m] < r.value[m']
    decreases j
  {
    if j == i + 1 then Some([])
    else
      var k := j - 1;
      var prev := Joiners(s, used, t, i, k);
      if prev.None? then None
      else if used[k] || s[k].kind != s[i].kind then prev
      else if IoU(s[i], s[k]).None? then None
      else if IoU(s[i], s[k]).value < t then prev
      else
        var ks: seq<nat> := prev.value;
        Some(ks + [k])
  }

  /** The scan raises exactly when some unvisited box of the anchor's kind
      has a zero union with it. */
  lemma {:induction false} JoinersRaise(s: seq<Box>, used: seq<bool>, t: real, i: nat, j: nat)
    requires |used| == |s| && i < j <= |s|
    ensures Joiners(s, used, t, i, j).None? <==> exists k :: i < k < j && Raises(s, used, i, k)
    decreases j
  {
    if j > i + 1 {
      var k := j - 1;
      JoinersRaise(s, used, t, i, k);
      if Raises(s, used, i, k) {
        assert Joiners(s, used, t, i, j).None?;
      }
    }
  }

  /** The joiners are exactly the later unvisited boxes of the anchor's kind
      whose IoU with it reaches the threshold. */
  lemma {:induction false} JoinersMembers(s: seq<Box>, used: seq<bool>, t: real, i: nat, j: nat)
    requires |used| == |s| && i < j <= |s|
    requires Joiners(s, used, t, i, j).Some?
    ensures forall k :: k in Joiners(s, used, t, i, j).value <==> i < k < j && Joins(s, used, t, i, k)
    decreases j
  {
    if j > i + 1 {
      JoinersMembers(s, used, t, i, j - 1);
    }
  }

  /** The flags after marking every position of `c` visited. */
  function MarkUsed(used: seq<bool>, c: seq<nat>): (u: seq<bool>)
    ensures |u| == |used| && forall k :: 0 <= k < |u| ==> (u[k] <==> used[k] || k in c)
  {
    seq(|used|, k requires 0 <= k < |used| => used[k] || k in c)
  }

  /** The clusters formed from position `i` on, each as the positions of its
      members, anchor first; `None` when a comparison raises. */
  function ClustersFrom(s: seq<Box>, used: seq<bool>, t: real, i: nat): (r: Option<seq<seq<nat>>>)
    requires |used| == |s| && i <= |s|
    ensures r.Some? ==> |r.value| <= |s| - i
    decreases |s| - i
  {
    if i == |s| then Some([])
    else if used[i] then ClustersFrom(s, used, t, i + 1)
    else
      match Joiners(s, used, t, i, |s|)
      case None => None
      case Some(js) =>
        match ClustersFrom(s, MarkUsed(used, [i] + js), t, i + 1)
        case None => None
        case Some(rest) => Some([[i] + js] + rest)
  }

  function Flatten(cs: seq<seq<nat>>): seq<nat>
  {
    if cs == [] then [] else cs[0] + Flatten(cs[1..])
  }

  /** Position `k` was visited before cluster `q` was formed. */
  predicate VisitedBefore(used: seq<bool>, cs: seq<seq<nat>>, q: nat, k: nat)
    requires k < |used| && q <= |cs|
  {
    used[k] || k in Flatten(cs[..q])
  }

  lemma FlattenCons(c: seq<nat>, rest: seq<seq<nat>>, q: nat)
    requires 1 <= q <= |rest| + 1
    ensures Flatten(([c] + rest)[..q]) == c + Flatten(rest[..q - 1])
  {
    assert ([c] + rest)[..q] == [c] + rest[..q - 1];
  }

  lemma {:induction false} InFlatten(cs: seq<seq<nat>>, k: nat)
    ensures k in Flatten(cs) <==> exists q :: 0 <= q < |cs| && k in cs[q]
  {
    if cs != [] {
      InFlatten(cs[1..], k);
      if k in Flatten(cs[1..]) {
        var q :| 0 <= q < |cs[1..]| && k in cs[1..][q];
        assert k in cs[q + 1];
      }
      forall q | 1 <= q < |cs| && k in cs[q] ensures k in Flatten(cs[1..]) {
        assert cs[1..][q - 1] == cs[q];
      }
    }
  }

  /** No position occurs twice. */
  predicate Distinct(f: seq<nat>)
  {
    forall p, q :: 0 <= p < q < |f| ==> f[p] != f[q]
  }

  lemma DistinctConcat(a: seq<nat>, b: seq<nat>)
    requires Distinct(a) && Distinct(b)
    requires forall p :: 0 <= p < |a| ==> a[p] !in b
    ensures Distinct(a + b)
  {
    var f := a + b;
    forall p, q | 0 <= p < q < |f| ensures f[p] != f[q] {
      if q >= |a| && p < |a| {
        assert f[q] == b[q - |a|];
      }
    }
  }

  /** Every unvisited position from `i` on lands in exactly one cluster, and no
      other position lands in any. */
  lemma {:induction false} ClustersPartition(s: seq<Box>, used: seq<bool>, t: real, i: nat)
    requires |used| == |s| && i <= |s|
    requires ClustersFrom(s, used, t, i).Some?
    ensures var f := Flatten(ClustersFrom(s, used, t, i).value);
      Distinct(f)
      && (forall p :: 0 <= p < |f| ==> i <= f[p] < |s| && !used[f[p]])
      && (forall k :: i <= k < |s| && !used[k] ==> k in f)
    decreases |s| - i
  {
    if i == |s| {
    } else if used[i] {
      ClustersPartition(s, used, t, i + 1);
    } else {
      var cs := ClustersFrom(s, used, t, i).value;
      var js := Joiners(s, used, t, i, |s|).value;
      var c := [i] + js;
      var used' := MarkUsed(used, c);
      var rest := ClustersFrom(s, used', t, i + 1).value;
      assert cs == [c] + rest;
      ClustersPartition(s, used', t, i + 1);
      assert Flatten(cs) == c + Flatten(rest);
      PartitionStep(used, i, js, Flatten(rest));
    }
  }

  /** One step of ClustersPartition: the new cluster `[i] + js` in front of a
      partition of what it leaves unvisited is a partition from `i` on. */
  lemma PartitionStep(used: seq<bool>, i: nat, js: seq<nat>, f': seq<nat>)
    requires i < |used| && !used[i]
    requires forall m :: 0 <= m < |js| ==> i < js[m] < |used| && !used[js[m]]
    requires forall m, m' :: 0 <= m < m' < |js| ==> js[m] < js[m']
    requires var used' := MarkUsed(used, [i] + js);
      Distinct(f')
      && (forall p :: 0 <= p < |f'| ==> i + 1 <= f'[p] < |used| && !used'[f'[p]])
      && (forall k :: i + 1 <= k < |used| && !used'[k] ==> k in f')
    ensures var f := ([i] + js) + f';
      Distinct(f)
      && (forall p :: 0 <= p < |f| ==> i <= f[p] < |used| && !used[f[p]])
      && (forall k :: i <= k < |used| && !used[k] ==> k in f)
  {
    var c := [i] + js;
    var used' := MarkUsed(used, c);
    var f := c + f';
    assert Distinct(c) by {
      forall p, q | 0 <= p < q < |c| ensures c[p] < c[q] {
        if p > 0 { assert c[p] == js[p - 1] && c[q] == js[q - 1]; }
        else { assert c[q] == js[q - 1]; }
      }
    }
    forall p | 0 <= p < |c| ensures c[p] !in f' && i <= c[p] < |used| && !used[c[p]] {
      assert used'[c[p]];
      if p > 0 { assert c[p] == js[p - 1]; }
    }
    DistinctConcat(c, f');
    forall p | 0 <= p < |f| ensures i <= f[p] < |used| && !used[f[p]] {
      if p >= |c| { assert f[p] == f'[p - |c|]; }
    }
    forall k | i <= k < |used| && !used[k] ensures k in f {
      if k !in c { assert !used'[k]; assert k in f'; }
    }
  }

  /** The anchor of cluster `q` and when position `k` joins it. */
  predicate JoinsAnchor(s: seq<Box>, used: seq<bool>, cs: seq<seq<nat>>, t: real, q: nat, k: nat)
    requires |used| == |s| && q < |cs| && cs[q] != [] && cs[q][0] < |s| && k < |s|
  {
    var a := cs[q][0];
    a < k && !VisitedBefore(used, cs, q, k) && s[k].kind == s[a].kind && IoUAtLeast(s[a], s[k], t)
  }

  /** Well-shaped clusters: non-empty, of positions of the sorted boxes. */
  predicate ClusterShape(n: nat, cs: seq<seq<nat>>)
  {
    forall q :: 0 <= q < |cs| ==> Cluster(n, cs[q])
  }

  /** A non-empty cluster of positions of the `n` sorted boxes. */
  predicate Cluster(n: nat, c: seq<nat>)
  {
    c != [] && forall m :: 0 <= m < |c| ==> c[m] < n
  }

  /** The greedy rule: each anchor is the first position still unvisited, and a
      cluster is its anchor together with exactly the later unvisited boxes of
      the same kind whose IoU with the anchor reaches the threshold. */
  predicate Greedy(s: seq<Box>, used: seq<bool>, t: real, i: nat, cs: seq<seq<nat>>)
    requires |used| == |s|
  {
    ClusterShape(|s|, cs)
    && (forall q :: 0 <= q < |cs| ==> i <= cs[q][0] && !VisitedBefore(used, cs, q, cs[q][0]))
    && (forall q, k :: 0 <= q < |cs| && i <= k < cs[q][0] && !used[k] ==> k in Flatten(cs[..q]))
    && (forall q, k :: 0 <= q < |cs| && 0 <= k < |s| ==>
          (k in cs[q] <==> k == cs[q][0] || JoinsAnchor(s, used, cs, t, q, k)))
  }

  lemma {:induction false} ClustersGreedy(s: seq<Box>, used: seq<bool>, t: real, i: nat)
    requires |used| == |s| && i <= |s|
    requires ClustersFrom(s, used, t, i).Some?
    ensures Greedy(s, used, t, i, ClustersFrom(s, used, t, i).value)
    decreases |s| - i
  {
    var cs := ClustersFrom(s, used, t, i).value;
    if i == |s| {
    } else if used[i] {
      ClustersGreedy(s, used, t, i + 1);
      GreedySkip(s, used, t, i, cs);
    } else {
      var js := Joiners(s, used, t, i, |s|).value;
      var c := [i] + js;
      var used' := MarkUsed(used, c);
      var rest := ClustersFrom(s, used', t, i + 1).value;
      assert cs == [c] + rest;
      ClustersGreedy(s, used', t, i + 1);
      GreedyCons(s, used, t, i, js, rest);
    }
  }

  /** A box already used is skipped without changing the clusters. */
  lemma GreedySkip(s: seq<Box>, used: seq<bool>, t: real, i: nat, cs: seq<seq<nat>>)
    requires |used| == |s| && i < |s| && used[i]
    requires Greedy(s, used, t, i + 1, cs)
    ensures Greedy(s, used, t, i, cs)
  {
  }

  /** The inductive step of ClustersGreedy. */
  lemma GreedyCons(s: seq<Box>, used: seq<bool>, t: real, i: nat, js: seq<nat>, rest: seq<seq<nat>>)
    requires |used| == |s| && i < |s| && !used[i]
    requires Joiners(s, used, t, i, |s|) == Some(js)
    requires Greedy(s, MarkUsed(used, [i] + js), t, i + 1, rest)
    ensures Greedy(s, used, t, i, [[i] + js] + rest)
  {
    var cs := [[i] + js] + rest;
    assert forall q :: 1 <= q < |cs| ==> cs[q] == rest[q - 1];
    assert ClusterShape(|s|, cs);
    GreedyAnchors(s, used, t, i, js, rest);
    GreedyEarlier(s, used, t, i, js, rest);
    JoinersMembers(s, used, t, i, |s|);
    GreedyMembers(s, used, t, i, js, rest);
  }

  /** Visited before cluster `q` of `[c] + rest` is visited before cluster
      `q - 1` of `rest`, once `c` is marked. */
  lemma VisitedShift(used: seq<bool>, c: seq<nat>, rest: seq<seq<nat>>, q: nat, k: nat)
    requires 1 <= q <= |rest| && k < |used|
    ensures VisitedBefore(used, [c] + rest, q, k) == VisitedBefore(MarkUsed(used, c), rest, q - 1, k)
  {
    FlattenCons(c, rest, q);
  }

  /** Each anchor of `[[i] + js] + rest` is unvisited when its cluster forms. */
  lemma GreedyAnchors(s: seq<Box>, used: seq<bool>, t: real, i: nat, js: seq<nat>, rest: seq<seq<nat>>)
    requires |used| == |s| && i < |s| && !used[i]
    requires Greedy(s, MarkUsed(used, [i] + js), t, i + 1, rest)
    ensures var cs := [[i] + js] + rest;
      forall q :: 0 <= q < |cs| ==> i <= cs[q][0] && !VisitedBefore(used, cs, q, cs[q][0])
  {
    var c := [i] + js;
    var cs := [c] + rest;
    assert cs[..0] == [];
    assert forall q :: 1 <= q < |cs| ==> cs[q] == rest[q - 1];
    forall q | 1 <= q < |cs| ensures !VisitedBefore(used, cs, q, cs[q][0]) {
      VisitedShift(used, c, rest, q, cs[q][0]);
    }
  }

  /** Positions skipped before an anchor were visited by an earlier cluster. */
  lemma GreedyEarlier(s: seq<Box>, used: seq<bool>, t: real, i: nat, js: seq<nat>, rest: seq<seq<nat>>)
    requires |used| == |s| && i < |s| && !used[i]
    requires Greedy(s, MarkUsed(used, [i] + js), t, i + 1, rest)
    ensures var cs := [[i] + js] + rest;
      forall q, k :: 0 <= q < |cs| && i <= k < cs[q][0] && !used[k] ==> k in Flatten(cs[..q])
  {
    var c := [i] + js;
    var used' := MarkUsed(used, c);
    var cs := [c] + rest;
    forall q, k | 0 <= q < |cs| && i <= k < cs[q][0] && !used[k] ensures k in Flatten(cs[..q]) {
      assert q > 0 && cs[q] == rest[q - 1];
      FlattenCons(c, rest, q);
      if k !in c {
        assert !used'[k];
      }
    }
  }

  /** Membership of each cluster follows the anchor rule. */
  lemma GreedyMembers(s: seq<Box>, used: seq<bool>, t: real, i: nat, js: seq<nat>, rest: seq<seq<nat>>)
    requires |used| == |s| && i < |s| && !used[i]
    requires forall k :: k in js <==> i < k < |s| && Joins(s, used, t, i, k)
    requires Greedy(s, MarkUsed(used, [i] + js), t, i + 1, rest)
    requires ClusterShape(|s|, [[i] + js] + rest)
    ensures var cs := [[i] + js] + rest;
      forall q, k :: 0 <= q < |cs| && 0 <= k < |s| ==>
        (k in cs[q] <==> k == cs[q][0] || JoinsAnchor(s, used, cs, t, q, k))
  {
    var c := [i] + js;
    var used' := MarkUsed(used, c);
    var cs := [c] + rest;
    forall q, k | 0 <= q < |cs| && 0 <= k < |s|
      ensures k in cs[q] <==> k == cs[q][0] || JoinsAnchor(s, used, cs, t, q, k)
    {
      if q == 0 {
        assert cs[..0] == [];
        assert !VisitedBefore(used, cs, 0, k) <==> !used[k];
      } else {
        assert cs[q] == rest[q - 1];
        VisitedShift(used, c, rest, q, k);
        assert JoinsAnchor(s, used, cs, t, q, k) == JoinsAnchor(s, used', rest, t, q - 1, k);
      }
    }
  }

  // ---------------------------------------------------------------------------
  // Emitting one box per cluster.

  /** `w = max(cur_box.score, 1e-06)`. */
  function Weight(b: Box): (w: real)
    ensures w == RealMax(b.score, 0.000001) && w > 0.0 && w >= b.score
  {
    if b.score >= 0.000001 then b.score else 0.000001
  }

  datatype Axis = Left | Top | Right | Bottom

  function Coord(b: Box, a: Axis): int
  {
    match a
    case Left => b.x1
    case Top => b.y1
    case Right => b.x2
    case Bottom => b.y2
  }

  function Weights(bs: seq<Box>): (ws: seq<real>)
    ensures |ws| == |bs| && forall k :: 0 <= k < |ws| ==> ws[k] > 0.0
  {
    seq(|bs|, k requires 0 <= k < |bs| => Weight(bs[k]))
  }

  function Values(bs: seq<Box>, a: Axis): (xs: seq<real>)
    ensures |xs| == |bs| && forall k :: 0 <= k < |xs| ==> xs[k] == Coord(bs[k], a) as real
  {
    seq(|bs|, k requires 0 <= k < |bs| => Coord(bs[k], a) as real)
  }

  function Scores(bs: seq<Box>): (xs: seq<real>)
    ensures |xs| == |bs| && forall k :: 0 <= k < |xs| ==> xs[k] == bs[k].score
  {
    seq(|bs|, k requires 0 <= k < |bs| => bs[k].score)
  }

  /** Python's `int()` on a float: truncation toward zero. */
  function Trunc(r: real): (n: int)
    ensures r >= 0.0 ==> n as real <= r < n as real + 1.0
    ensures r < 0.0 ==> n as real - 1.0 < r <= n as real
  {
    if r >= 0.0 then r.Floor else -((-r).Floor)
  }

  /** `int(Σ wᵢ·cᵢ / Σ wᵢ)`, the weighted mean of one coordinate. */
  function FusedCoord(bs: seq<Box>, a: Axis): int
    requires bs != []
  {
    SumPositive(Weights(bs));
    Trunc(Dot(Weights(bs), Values(bs, a)) / Sum(Weights(bs)))
  }

  /** The box a cluster of two or more members is replaced by: weighted mean
      coordinates, the plain mean score, the anchor's kind and page. */
  function Fused(bs: seq<Box>): Box
    requires bs != []
  {
    Box(FusedCoord(bs, Left), FusedCoord(bs, Top), FusedCoord(bs, Right), FusedCoord(bs, Bottom),
        bs[0].kind, Mean(Scores(bs)), bs[0].page)
  }

  /** The boxes at the positions of a cluster. */
  function Members(s: seq<Box>, c: seq<nat>): (bs: seq<Box>)
    requires forall m :: 0 <= m < |c| ==> c[m] < |s|
    ensures |bs| == |c| && forall m :: 0 <= m < |c| ==> bs[m] == s[c[m]]
  {
    seq(|c|, m requires 0 <= m < |c| => s[c[m]])
  }

  /** The box a cluster contributes: its anchor unchanged when alone, else the fused box. */
  function Emit(s: seq<Box>, c: seq<nat>): (r: Box)
    requires Cluster(|s|, c)
    ensures |c| == 1 ==> r == s[c[0]]
    ensures r.kind == s[c[0]].kind && r.page == s[c[0]].page
  {
    if |c| == 1 then s[c[0]] else Fused(Members(s, c))
  }

  function EmitAll(s: seq<Box>, cs: seq<seq<nat>>): (r: seq<Box>)
    requires ClusterShape(|s|, cs)
    ensures |r| == |cs| && forall q :: 0 <= q < |cs| ==> r[q] == Emit(s, cs[q])
  {
    seq(|cs|, q requires 0 <= q < |cs| => Emit(s, cs[q]))
  }

  /** Width and height both above `minDim`: the final filter. */
  predicate Large(b: Box, minDim: int)
  {
    b.x2 - b.x1 > minDim && b.y2 - b.y1 > minDim
  }

  /** Wider and taller than `minDim` pixels: the final size filter (10 pixels in `_wbf`). */
  function KeepLarge(bs: seq<Box>, minDim: int): (r: seq<Box>)
    ensures |r| <= |bs|
    ensures forall b :: b in r <==> b in bs && Large(b, minDim)
  {
    if bs == [] then []
    else (if Large(bs[0], minDim) then [bs[0]] else []) + KeepLarge(bs[1..], minDim)
  }

  /** One emitted box per cluster of the sorted boxes `s`, in cluster order:
      no more boxes than `s` has, each with the kind and page of a box of `s`.
      `None` where a comparison raises. */
  function ClusterBoxes(s: seq<Box>, t: real): (r: Option<seq<Box>>)
    ensures r.Some? <==> ClustersFrom(s, NoneUsed(|s|), t, 0).Some?
    ensures r.Some? ==> |r.value| <= |s|
    ensures r.Some? ==> forall q :: 0 <= q < |r.value| ==>
      exists k :: 0 <= k < |s| && r.value[q].kind == s[k].kind && r.value[q].page == s[k].page
  {
    match ClustersFrom(s, NoneUsed(|s|), t, 0)
    case None => None
    case Some(cs) =>
      ClustersShape(s, NoneUsed(|s|), t, 0);
      Some(EmitAll(s, cs))
  }

  /** The whole fusion of one page's boxes; `None` where a comparison raises. */
  function FusionSpec(boxes: seq<Box>, t: real, minDim: int): Option<seq<Box>>
  {
    match ClusterBoxes(SortByScore(boxes), t)
    case None => None
    case Some(out) => Some(KeepLarge(out, minDim))
  }

  /** The size filter keeps the boxes it keeps in their order: filtering a
      concatenation concatenates the filtered parts, and a single box is kept
      exactly when it is large. */
  lemma {:induction false} KeepLargeConcat(a: seq<Box>, b: seq<Box>, x: Box, minDim: int)
    ensures KeepLarge(a + b, minDim) == KeepLarge(a, minDim) + KeepLarge(b, minDim)
    ensures KeepLarge([x], minDim) == if Large(x, minDim) then [x] else []
  {
    if a == [] {
      assert a + b == b;
    } else {
      assert (a + b)[0] == a[0] && (a + b)[1..] == a[1..] + b;
      KeepLargeConcat(a[1..], b, x, minDim);
    }
    assert [x][1..] == [];
  }

  /** Every cluster is a non-empty list of positions of the sorted boxes. */
  lemma {:induction false} ClustersShape(s: seq<Box>, used: seq<bool>, t: real, i: nat)
    requires |used| == |s| && i <= |s|
    requires ClustersFrom(s, used, t, i).Some?
    ensures ClusterShape(|s|, ClustersFrom(s, used, t, i).value)
    decreases |s| - i
  {
    if i < |s| {
      if used[i] {
        ClustersShape(s, used, t, i + 1);
      } else {
        var js := Joiners(s, used, t, i, |s|).value;
        ClustersStep(s, used, t, i, js);
        ClustersShape(s, MarkUsed(used, [i] + js), t, i + 1);
      }
    }
  }

  // ---------------------------------------------------------------------------
  // Properties of the emitted boxes.

  lemma TruncBetween(r: real, lo: int, hi: int)
    requires lo as real <= r <= hi as real
    ensures lo <= Trunc(r) <= hi
  {
  }

  /** A fused coordinate lies between the smallest and the largest value of
      that coordinate over the cluster. */
  lemma FusedCoordBounds(bs: seq<Box>, a: Axis)
    requires bs != []
    ensures MinOf(Values(bs, a)) <= FusedCoord(bs, a) as real <= MaxOf(Values(bs, a))
  {
    var ws, xs := Weights(bs), Values(bs, a);
    var lo, hi := MinOf(xs), MaxOf(xs);
    var kl :| 0 <= kl < |xs| && xs[kl] == lo;
    var kh :| 0 <= kh < |xs| && xs[kh] == hi;
    WeightedMeanBounds(ws, xs, lo, hi);
    TruncBetween(Dot(ws, xs) / Sum(ws), Coord(bs[kl], a), Coord(bs[kh], a));
  }

  /** What a fused box keeps of its cluster: every coordinate and the score
      between the members' extremes, the anchor's kind and page. */
  lemma FusedBounds(bs: seq<Box>)
    requires bs != []
    ensures var f := Fused(bs);
      (forall a :: MinOf(Values(bs, a)) <= Coord(f, a) as real <= MaxOf(Values(bs, a)))
      && MinOf(Scores(bs)) <= f.score <= MaxOf(Scores(bs))
      && f.kind == bs[0].kind && f.page == bs[0].page
  {
    forall a ensures MinOf(Values(bs, a)) <= Coord(Fused(bs), a) as real <= MaxOf(Values(bs, a)) {
      FusedCoordBounds(bs, a);
      CoordOfFused(bs, a);
    }
    MeanBounds(Scores(bs));
  }

  lemma CoordOfFused(bs: seq<Box>, a: Axis)
    requires bs != []
    ensures Coord(Fused(bs), a) == FusedCoord(bs, a)
  {
  }

  /** Two identical boxes fuse into one with the same coordinates, score, kind and page. */
  lemma FusedTwins(b: Box)
    ensures Fused([b, b]) == b
  {
    var bs := [b, b];
    FusedBounds(bs);
    forall a ensures Coord(Fused(bs), a) == Coord(b, a) {
      assert Values(bs, a)[0] == Values(bs, a)[1] == Coord(b, a) as real;
    }
    assert Scores(bs) == [b.score, b.score];
  }

  /** The result of a fusion that does not raise: boxes above the size bound,
      no more of them than there were detections, each the emitted box of a
      cluster of the sorted input. */
  lemma {:induction false} FusionOutput(boxes: seq<Box>, t: real, minDim: int)
    requires FusionSpec(boxes, t, minDim).Some?
    ensures var s := SortByScore(boxes);
      var cs := ClustersFrom(s, NoneUsed(|s|), t, 0).value;
      var out := FusionSpec(boxes, t, minDim).value;
      ClusterShape(|s|, cs)
      && |out| <= |boxes|
      && (forall b :: b in out <==> b in EmitAll(s, cs) && Large(b, minDim))
  {
    var s := SortByScore(boxes);
    ClustersShape(s, NoneUsed(|s|), t, 0);
  }

  /** Every box fusion returns carries a page of some input box; so a page's
      boxes give results for that page only. */
  lemma FusionKeepsPage(boxes: seq<Box>, t: real, minDim: int, p: int)
    requires forall k :: 0 <= k < |boxes| ==> boxes[k].page == p
    requires FusionSpec(boxes, t, minDim).Some?
    ensures forall b :: b in FusionSpec(boxes, t, minDim).value ==> b.page == p
  {
    var s := SortByScore(boxes);
    var cs := ClustersFrom(s, NoneUsed(|s|), t, 0).value;
    FusionOutput(boxes, t, minDim);
    forall k | 0 <= k < |s| ensures s[k].page == p {
      assert s[k] in multiset(boxes);
    }
    forall b | b in FusionSpec(boxes, t, minDim).value ensures b.page == p {
      var q :| 0 <= q < |cs| && EmitAll(s, cs)[q] == b;
    }
  }

  /** A score every input box reaches is reached by every fused box: a
      singleton keeps its score and a mean is at least the smallest member score. */
  lemma FusionScoreFloor(boxes: seq<Box>, t: real, minDim: int, v: real)
    requires forall k :: 0 <= k < |boxes| ==> boxes[k].score >= v
    requires FusionSpec(boxes, t, minDim).Some?
    ensures forall b :: b in FusionSpec(boxes, t, minDim).value ==> b.score >= v
  {
    var s := SortByScore(boxes);
    var cs := ClustersFrom(s, NoneUsed(|s|), t, 0).value;
    FusionOutput(boxes, t, minDim);
    forall k | 0 <= k < |s| ensures s[k].score >= v {
      assert s[k] in multiset(boxes);
    }
    EmitAllScoreFloor(s, cs, v);
  }

  lemma EmitAllScoreFloor(s: seq<Box>, cs: seq<seq<nat>>, v: real)
    requires ClusterShape(|s|, cs)
    requires forall k :: 0 <= k < |s| ==> s[k].score >= v
    ensures forall b :: b in EmitAll(s, cs) ==> b.score >= v
  {
    forall b | b in EmitAll(s, cs) ensures b.score >= v {
      var q :| 0 <= q < |cs| && EmitAll(s, cs)[q] == b;
      EmitScoreFloor(s, cs[q], v);
    }
  }

  /** The box emitted for a cluster scores at least what all sorted boxes reach. */
  lemma EmitScoreFloor(s: seq<Box>, c: seq<nat>, v: real)
    requires Cluster(|s|, c)
    requires forall k :: 0 <= k < |s| ==> s[k].score >= v
    ensures Emit(s, c).score >= v
  {
    if |c| != 1 {
      var bs := Members(s, c);
      FusedBounds(bs);
      var lo := MinOf(Scores(bs));
      var m :| 0 <= m < |bs| && Scores(bs)[m] == lo;
    }
  }

  /** Fusion raises only when two degenerate boxes of one kind meet: on
      well-formed boxes it always returns. */
  lemma FusionOfWellFormed(boxes: seq<Box>, t: real, minDim: int)
    requires forall k :: 0 <= k < |boxes| ==> WellFormed(boxes[k])
    ensures FusionSpec(boxes, t, minDim).Some?
  {
    var s := SortByScore(boxes);
    forall k | 0 <= k < |s| ensures WellFormed(s[k]) {
      assert s[k] in multiset(boxes);
    }
    ClustersOfWellFormed(s, NoneUsed(|s|), t, 0);
  }

  lemma {:induction false} ClustersOfWellFormed(s: seq<Box>, used: seq<bool>, t: real, i: nat)
    requires |used| == |s| && i <= |s|
    requires forall k :: 0 <= k < |s| ==> WellFormed(s[k])
    ensures ClustersFrom(s, used, t, i).Some?
    decreases |s| - i
  {
    if i < |s| {
      if used[i] {
        ClustersOfWellFormed(s, used, t, i + 1);
      } else {
        var js := Joiners(s, used, t, i, |s|);
        JoinersRaise(s, used, t, i, |s|);
        ClustersOfWellFormed(s, MarkUsed(used, [i] + js.value), t, i + 1);
      }
    }
  }

  /** Two copies of one well-formed box above the size bound fuse into that box:
      the copy joins the anchor's cluster (its IoU with it is 1), and the fused
      box of two equal boxes is the box itself. */
  lemma FusionOfTwins(b: Box, t: real, minDim: int)
    requires WellFormed(b) && Large(b, minDim) && t <= 1.0
    ensures FusionSpec([b, b], t, minDim) == Some([b])
  {
    var s := [b, b];
    assert SortByScore(s) == s by {
      assert s[1..] == [b];
      assert SortByScore([b]) == [b];
    }
    TwinBoxes(b, t);
    assert KeepLarge([b], minDim) == [b];
  }

  /** Two copies of a well-formed box give the box once. */
  lemma TwinBoxes(b: Box, t: real)
    requires WellFormed(b) && t <= 1.0
    ensures ClusterBoxes([b, b], t) == Some([b])
  {
    var s := [b, b];
    TwinClusters(b, t);
    ClustersShape(s, NoneUsed(2), t, 0);
    FusedTwins(b);
    assert Members(s, [0, 1]) == s;
    assert Emit(s, [0, 1]) == b;
    assert EmitAll(s, [[0, 1]]) == [b];
  }

  /** Two copies of a well-formed box form one cluster. */
  lemma TwinClusters(b: Box, t: real)
    requires WellFormed(b) && t <= 1.0
    ensures ClustersFrom([b, b], NoneUsed(2), t, 0) == Some([[0, 1]])
  {
    var s := [b, b];
    IoUSelf(b);
    var u := NoneUsed(2);
    assert Joiners(s, u, t, 0, 1) == Some([]);
    assert Joins(s, u, t, 0, 1);
    JoinersSnoc(s, u, t, 0, 1);
    assert [] + [1] == [1];
    ClustersStep(s, u, t, 0, [1]);
    var u' := MarkUsed(u, [0] + [1]);
    assert u'[1];
    assert ClustersFrom(s, u', t, 1) == Some([]);
    assert [0] + [1] == [0, 1];
    assert [[0] + [1]] + [] == [[0, 1]];
  }

  /** A box that joins the anchor is appended to the joiners found before it. */
  lemma JoinersSnoc(s: seq<Box>, used: seq<bool>, t: real, i: nat, k: nat)
    requires |used| == |s| && i < k < |s|
    requires Joiners(s, used, t, i, k).Some? && Joins(s, used, t, i, k)
    ensures Joiners(s, used, t, i, k + 1) == Some(Joiners(s, used, t, i, k).value + [k])
  {
  }

  /** No two boxes (at two different positions) of one kind reach the IoU threshold. */
  predicate Separated(s: seq<Box>, t: real)
  {
    forall i, j :: 0 <= i < |s| && 0 <= j < |s| && i != j && s[i].kind == s[j].kind ==>
      !IoUAtLeast(s[i], s[j], t)
  }

  /** A box that reaches no box of its kind, put in front of a separated list,
      keeps it separated. */
  lemma ConsSeparated(x: Box, r: seq<Box>, t: real)
    requires Separated(r, t)
    requires forall m :: 0 <= m < |r| && r[m].kind == x.kind ==>
      !IoUAtLeast(x, r[m], t) && !IoUAtLeast(r[m], x, t)
    ensures Separated([x] + r, t)
  {
    var c := [x] + r;
    forall i, j | 0 <= i < |c| && 0 <= j < |c| && i != j && c[i].kind == c[j].kind
      ensures !IoUAtLeast(c[i], c[j], t)
    {
      if i == 0 {
        assert c[j] == r[j - 1];
      } else if j == 0 {
        assert c[i] == r[i - 1];
      } else {
        assert c[i] == r[i - 1] && c[j] == r[j - 1];
      }
    }
  }

  lemma TailSeparated(s: seq<Box>, t: real)
    requires Separated(s, t) && s != []
    ensures Separated(s[1..], t)
  {
    var tail := s[1..];
    forall i, j | 0 <= i < |tail| && 0 <= j < |tail| && i != j && tail[i].kind == tail[j].kind
      ensures !IoUAtLeast(tail[i], tail[j], t)
    {
      assert tail[i] == s[i + 1] && tail[j] == s[j + 1];
    }
  }

  /** Inserting a box that reaches no box of its kind keeps a list separated. */
  lemma {:induction false} InsertSeparated(b: Box, s: seq<Box>, t: real)
    requires Separated(s, t)
    requires forall x :: x in s && x.kind == b.kind ==> !IoUAtLeast(b, x, t) && !IoUAtLeast(x, b, t)
    ensures Separated(Insert(b, s), t)
  {
    if s == [] || s[0].score <= b.score {
      ConsSeparated(b, s, t);
    } else {
      var tail := s[1..];
      TailSeparated(s, t);
      InsertSeparated(b, tail, t);
      var r' := Insert(b, tail);
      forall m | 0 <= m < |r'| && r'[m].kind == s[0].kind
        ensures !IoUAtLeast(s[0], r'[m], t) && !IoUAtLeast(r'[m], s[0], t)
      {
        assert r'[m] in multiset(r');
        if r'[m] != b {
          assert r'[m] in multiset(tail);
          var k :| 0 <= k < |tail| && tail[k] == r'[m];
          assert s[k + 1] == r'[m];
        } else {
          assert s[0] in s;
        }
      }
      ConsSeparated(s[0], r', t);
    }
  }

  /** Sorting keeps a list separated. */
  lemma {:induction false} SortSeparated(s: seq<Box>, t: real)
    requires Separated(s, t)
    ensures Separated(SortByScore(s), t)
  {
    if s != [] {
      var tail := s[1..];
      TailSeparated(s, t);
      SortSeparated(tail, t);
      var r := SortByScore(tail);
      forall x | x in r && x.kind == s[0].kind
        ensures !IoUAtLeast(s[0], x, t) && !IoUAtLeast(x, s[0], t)
      {
        assert x in multiset(tail);
        var k :| 0 <= k < |tail| && tail[k] == x;
        assert s[k + 1] == x;
      }
      InsertSeparated(s[0], r, t);
    }
  }

  /** Position `k` alone, for every `k` from `i` to `n - 1`. */
  function Singles(i: nat, n: nat): (cs: seq<seq<nat>>)
    requires i <= n
    ensures |cs| == n - i && forall q :: 0 <= q < |cs| ==> cs[q] == [i + q]
    decreases n - i
  {
    if i == n then [] else [[i]] + Singles(i + 1, n)
  }

  /** On separated well-formed boxes no box joins another: every unvisited box
      from `i` on is a cluster of its own. */
  lemma {:induction false} ClustersOfSeparated(s: seq<Box>, used: seq<bool>, t: real, i: nat)
    requires |used| == |s| && i <= |s|
    requires forall k :: 0 <= k < |s| ==> WellFormed(s[k])
    requires Separated(s, t)
    requires forall k :: i <= k < |s| ==> !used[k]
    ensures ClustersFrom(s, used, t, i) == Some(Singles(i, |s|))
    decreases |s| - i
  {
    if i < |s| {
      JoinersOfSeparated(s, used, t, i, |s|);
      ClustersStep(s, used, t, i, []);
      assert [i] + [] == [i];
      var u := MarkUsed(used, [i]);
      assert forall k :: i + 1 <= k < |s| ==> !u[k];
      ClustersOfSeparated(s, u, t, i + 1);
    }
  }

  /** On separated well-formed boxes the scan from anchor `i` finds nobody. */
  lemma {:induction false} JoinersOfSeparated(s: seq<Box>, used: seq<bool>, t: real, i: nat, j: nat)
    requires |used| == |s| && i < j <= |s|
    requires forall k :: 0 <= k < |s| ==> WellFormed(s[k])
    requires Separated(s, t)
    ensures Joiners(s, used, t, i, j) == Some([])
    decreases j
  {
    if j > i + 1 {
      JoinersOfSeparated(s, used, t, i, j - 1);
    }
  }

  /** When no two well-formed boxes of one kind reach the threshold, nothing is
      fused: the result is the boxes by descending score, minus the small ones. */
  lemma FusionOfSeparated(boxes: seq<Box>, t: real, minDim: int)
    requires forall k :: 0 <= k < |boxes| ==> WellFormed(boxes[k])
    requires Separated(boxes, t)
    ensures FusionSpec(boxes, t, minDim) == Some(KeepLarge(SortByScore(boxes), minDim))
  {
    var s := SortByScore(boxes);
    forall k | 0 <= k < |s| ensures WellFormed(s[k]) {
      assert s[k] in multiset(boxes);
    }
    SortSeparated(boxes, t);
    ClustersOfSeparated(s, NoneUsed(|s|), t, 0);
    var cs := Singles(0, |s|);
    ClustersShape(s, NoneUsed(|s|), t, 0);
    assert EmitAll(s, cs) == s;
  }

  // ---------------------------------------------------------------------------
  // The loops of `_wbf`.

  /** The running sums of the accumulation loop: weights, scores, and the
      weighted coordinates. */
  datatype Totals = Totals(w: real, score: real, x1: real, y1: real, x2: real, y2: real)

  /** The sums over the first `m` members. */
  function TotalsOf(bs: seq<Box>, m: nat): Totals
    requires m <= |bs|
  {
    var ws := Weights(bs);
    Totals(SumTo(ws, m), SumTo(Scores(bs), m),
           DotTo(ws, Values(bs, Left), m), DotTo(ws, Values(bs, Top), m),
           DotTo(ws, Values(bs, Right), m), DotTo(ws, Values(bs, Bottom), m))
  }

  /** Adding one member's contribution. */
  function AddBox(a: Totals, b: Box): Totals
  {
    var w := Weight(b);
    Totals(a.w + w, a.score + b.score,
           a.x1 + w * (b.x1 as real), a.y1 + w * (b.y1 as real),
           a.x2 + w * (b.x2 as real), a.y2 + w * (b.y2 as real))
  }

  lemma TotalsStep(bs: seq<Box>, m: nat)
    requires m < |bs|
    ensures TotalsOf(bs, m + 1) == AddBox(TotalsOf(bs, m), bs[m])
  {
  }

  /** The box built from the totals over all members is the fused box. */
  lemma FusedFromTotals(bs: seq<Box>)
    requires bs != []
    ensures var a := TotalsOf(bs, |bs|);
      a.w > 0.0
      && Fused(bs) == Box(Trunc(a.x1 / a.w), Trunc(a.y1 / a.w), Trunc(a.x2 / a.w), Trunc(a.y2 / a.w),
                          bs[0].kind, a.score / (|bs| as real), bs[0].page)
  {
    SumPositive(Weights(bs));
  }

  /** The accumulation loop over one cluster (`for k in cluster: ...`), its
      six running sums kept together in one record. */
  method ClusterTotals(s: seq<Box>, cluster: seq<nat>) returns (a: Totals)
    requires forall m :: 0 <= m < |cluster| ==> cluster[m] < |s|
    ensures a == TotalsOf(Members(s, cluster), |cluster|)
  {
    ghost var bs := Members(s, cluster);
    a := Totals(0.0, 0.0, 0.0, 0.0, 0.0, 0.0);
    for m := 0 to |cluster|
      invariant a == TotalsOf(bs, m)
    {
      var curBox := s[cluster[m]];
      TotalsStep(bs, m);
      a := AddBox(a, curBox);
    }
  }

  /** The fused box of a cluster of two or more members, from the loop's totals. */
  method FuseCluster(s: seq<Box>, cluster: seq<nat>) returns (f: Box)
    requires cluster != [] && forall m :: 0 <= m < |cluster| ==> cluster[m] < |s|
    ensures f == Fused(Members(s, cluster))
  {
    var a := ClusterTotals(s, cluster);
    FusedFromTotals(Members(s, cluster));
    f := Box(Trunc(a.x1 / a.w), Trunc(a.y1 / a.w), Trunc(a.x2 / a.w), Trunc(a.y2 / a.w),
             s[cluster[0]].kind, a.score / (|cluster| as real), s[cluster[0]].page);
  }

  lemma EmitAllSnoc(s: seq<Box>, cs: seq<seq<nat>>, c: seq<nat>)
    requires ClusterShape(|s|, cs) && Cluster(|s|, c)
    ensures ClusterShape(|s|, cs + [c])
    ensures EmitAll(s, cs + [c]) == EmitAll(s, cs) + [Emit(s, c)]
  {
    assert forall q :: 0 <= q < |cs| ==> (cs + [c])[q] == cs[q];
  }

  function Prepend(cs: seq<seq<nat>>, r: Option<seq<seq<nat>>>): Option<seq<seq<nat>>>
  {
    match r
    case None => None
    case Some(rest) => Some(cs + rest)
  }

  /** The scan of `_wbf`'s inner loop after the anchor `i`: the unvisited boxes
      of the anchor's kind whose IoU with it reaches the threshold, in order.
      `None` where an `iou` call divides by zero. */
  method ScanJoiners(s: seq<Box>, used: array<bool>, t: real, i: nat) returns (r: Option<seq<nat>>)
    requires used.Length == |s| && i < |s|
    ensures r == Joiners(s, used[..], t, i, |s|)
  {
    var anchor := s[i];
    var cluster: seq<nat> := [];
    for j := i + 1 to |s|
      invariant Joiners(s, used[..], t, i, j) == Some(cluster)
    {
      if used[j] {
        continue;
      }
      if s[j].kind == anchor.kind {
        var v := IoU(anchor, s[j]);
        if v.None? {
          assert Raises(s, used[..], i, j);
          JoinersRaise(s, used[..], t, i, |s|);
          return None;
        }
        if v.value >= t {
          cluster := cluster + [j];
        }
      }
    }
    r := Some(cluster);
  }

  /** Marks every position of `c` visited (`used[k] = True`). */
  method MarkVisited(used: array<bool>, c: seq<nat>)
    modifies used
    ensures used[..] == MarkUsed(old(used[..]), c)
  {
    ghost var used0 := used[..];
    for m := 0 to |c|
      invariant forall k :: 0 <= k < used.Length ==> (used[k] <==> used0[k] || k in c[..m])
    {
      if c[m] < used.Length {
        used[c[m]] := true;
      }
      assert c[..m + 1] == c[..m] + [c[m]];
    }
    assert c[..|c|] == c;
    assert used[..] == MarkUsed(used0, c);
  }

  /** One round of the greedy clustering: the anchor and its joiners form the
      next cluster, and the rest is clustered with all of them visited. */
  lemma ClustersStep(s: seq<Box>, used: seq<bool>, t: real, i: nat, js: seq<nat>)
    requires |used| == |s| && i < |s| && !used[i]
    requires Joiners(s, used, t, i, |s|) == Some(js)
    ensures ClustersFrom(s, used, t, i) == Prepend([[i] + js], ClustersFrom(s, MarkUsed(used, [i] + js), t, i + 1))
    ensures Cluster(|s|, [i] + js)
  {
    var c := [i] + js;
    forall m | 1 <= m < |c| ensures c[m] < |s| { assert c[m] == js[m - 1]; }
  }

  lemma PrependSnoc(cs: seq<seq<nat>>, c: seq<nat>, r: Option<seq<seq<nat>>>)
    ensures Prepend(cs, Prepend([c], r)) == Prepend(cs + [c], r)
  {
    if r.Some? {
      assert cs + ([c] + r.value) == (cs + [c]) + r.value;
    }
  }

  /** The box a cluster contributes to `out`. */
  method EmitCluster(s: seq<Box>, cluster: seq<nat>) returns (b: Box)
    requires Cluster(|s|, cluster)
    ensures b == Emit(s, cluster)
  {
    if |cluster| == 1 {
      b := s[cluster[0]];
    } else {
      b := FuseCluster(s, cluster);
    }
  }

  /** The main loop of `_wbf` over the sorted boxes: each unvisited box
      anchors a cluster, whose box is appended to `out`. */
  method FuseSorted(s: seq<Box>, t: real) returns (r: Option<seq<Box>>)
    ensures r == ClusterBoxes(s, t)
  {
    var n := |s|;
    var used := new bool[n](_ => false);
    assert used[..] == NoneUsed(n);
    ghost var whole := ClustersFrom(s, used[..], t, 0);
    assert Prepend([], whole) == whole by {
      if whole.Some? { assert [] + whole.value == whole.value; }
    }
    var out: seq<Box> := [];
    ghost var cs: seq<seq<nat>> := [];
    for i: nat := 0 to n
      invariant ClusterShape(n, cs)
      invariant whole == Prepend(cs, ClustersFrom(s, used[..], t, i))
      invariant out == EmitAll(s, cs)
    {
      if used[i] {
        continue;
      }
      ghost var used0 := used[..];
      var joiners := ScanJoiners(s, used, t, i);
      if joiners.None? {
        return None;
      }
      var cluster: seq<nat> := [i] + joiners.value;
      ClustersStep(s, used0, t, i, joiners.value);
      MarkVisited(used, cluster);
      PrependSnoc(cs, cluster, ClustersFrom(s, used[..], t, i + 1));
      var fused := EmitCluster(s, cluster);
      EmitAllSnoc(s, cs, cluster);
      out := out + [fused];
      cs := cs + [cluster];
    }
    assert cs + [] == cs;
    r := Some(out);
  }

  /** `_wbf`, with the intended clustering: the anchor belongs to its cluster,
      every member is marked visited, and the size filter runs once after the
      loop. Returns `None` where an `iou` comparison divides by zero. */
  method WeightedBoxFusion(boxes: seq<Box>, t: real, minDim: int) returns (r: Option<seq<Box>>)
    ensures r == FusionSpec(boxes, t, minDim)
  {
    var s := SortByScore(boxes);
    var out := FuseSorted(s, t);
    if out.None? {
      return None;
    }
    r := Some(KeepLarge(out.value, minDim));
  }
}
