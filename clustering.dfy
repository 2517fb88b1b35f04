/** The temporal vote of the visit pipeline: the observations held in the five-frame
    prediction queue are grouped around the distinct observed points, groups with
    enough members are ranked by size, each yields the mean of its members, and the
    means become locked darts. */
module Clustering {
  import opened Wrappers
  import opened Geometry

  /** One prediction-queue slot: three rows, `None` for a `[-1, -1]` row. */
  type Frame = seq<Option<Point>>

  /** The observed points of one frame, in row order. */
  function Present(f: Frame): (ps: seq<Point>)
    ensures |ps| <= |f|
    ensures forall p :: p in ps <==> Some(p) in f
  {
    if f == [] then []
    else
      var init := Present(f[..|f| - 1]);
      assert f == f[..|f| - 1] + [f[|f| - 1]];
      init + (if f[|f| - 1].Some? then [f[|f| - 1].value] else [])
  }

  /** Every observation of the queue, frame by frame. */
  function Observations(queue: seq<Frame>): seq<Point> {
    if queue == [] then [] else Observations(queue[..|queue| - 1]) + Present(queue[|queue| - 1])
  }

  /** A frame padded with `[-1, -1]` rows to three rows. A point that is itself
      `[-1, -1]` gives a row no different from the padding, so it is an empty row too. */
  function PadFrame(points: seq<Point>): (f: Frame)
    requires |points| <= 3
    ensures |f| == 3
    ensures forall i :: 0 <= i < 3 ==>
              f[i] == if i < |points| && points[i] != Sentinel then Some(points[i]) else None
  {
    seq(3, i requires 0 <= i < 3 => if i < |points| && points[i] != Sentinel then Some(points[i]) else None)
  }

  /** The points other than `[-1, -1]`, in order. */
  function WithoutSentinels(points: seq<Point>): (r: seq<Point>)
    ensures forall p :: p in r <==> p in points && p != Sentinel
    ensures Sentinel !in points ==> r == points
  {
    if points == [] then []
    else
      var last := points[|points| - 1];
      assert points == points[..|points| - 1] + [last];
      WithoutSentinels(points[..|points| - 1]) + (if last == Sentinel then [] else [last])
  }

  /** The padded frame observes exactly the given points other than `[-1, -1]`, in
      order; so a frame of points none of which is `[-1, -1]` observes all of them. */
  lemma PaddedFrameObservesPoints(points: seq<Point>)
    requires |points| <= 3
    ensures Present(PadFrame(points)) == WithoutSentinels(points)
  {
    var f := PadFrame(points);
    forall n | 0 <= n <= 3
      ensures Present(f[..n]) == WithoutSentinels(points[..if |points| < n then |points| else n])
    {
      PaddedPrefix(points, f, n);
    }
    assert f[..3] == f;
    assert points[..|points|] == points;
  }

  lemma {:induction false} PaddedPrefix(points: seq<Point>, f: Frame, n: nat)
    requires |points| <= 3 && f == PadFrame(points) && n <= 3
    ensures Present(f[..n]) == WithoutSentinels(points[..if |points| < n then |points| else n])
  {
    if n > 0 {
      PaddedPrefix(points, f, n - 1);
      assert f[..n][..n - 1] == f[..n - 1];
      if n <= |points| {
        assert points[..n][..n - 1] == points[..n - 1];
      } else {
        assert points[..|points|] == points[..if |points| < n - 1 then |points| else n - 1];
      }
    }
  }

  /** A slot whose only points are `[-1, -1]` counts as an empty frame, as the source's
      `np.all(frame == -1)` sees it. */
  lemma SentinelPointsLeaveFrameEmpty(points: seq<Point>)
    requires |points| <= 3 && forall i :: 0 <= i < |points| ==> points[i] == Sentinel
    ensures EmptyFrame(PadFrame(points))
  {
  }

  /** An all-`[-1, -1]` frame. */
  predicate EmptyFrame(f: Frame) {
    forall i :: 0 <= i < |f| ==> f[i].None?
  }

  lemma EmptyFrameObservesNothing(f: Frame)
    ensures EmptyFrame(f) <==> Present(f) == []
  {
    if !EmptyFrame(f) {
      var i :| 0 <= i < |f| && f[i].Some?;
      assert f[i] in f;
    }
  }

  /** The number of empty frames in the queue. */
  function CountEmpty(queue: seq<Frame>): (n: nat)
    ensures n <= |queue|
  {
    if queue == [] then 0 else CountEmpty(queue[..|queue| - 1]) + (if EmptyFrame(queue[|queue| - 1]) then 1 else 0)
  }

  /** A queue of empty frames observes nothing, and every frame counts as empty. */
  lemma {:induction false} EmptyQueueObservesNothing(queue: seq<Frame>)
    requires forall i :: 0 <= i < |queue| ==> EmptyFrame(queue[i])
    ensures Observations(queue) == [] && CountEmpty(queue) == |queue|
  {
    if queue != [] {
      var init := queue[..|queue| - 1];
      assert forall i :: 0 <= i < |init| ==> init[i] == queue[i];
      EmptyQueueObservesNothing(init);
      EmptyFrameObservesNothing(queue[|queue| - 1]);
    }
  }

  /** The first key at index from or later within distance 0.01 of p. */
  function FirstMatchFrom(keys: seq<Point>, p: Point, from: nat): (r: Option<nat>)
    requires from <= |keys|
    ensures r.Some? ==> from <= r.value < |keys| && Close(p, keys[r.value])
    ensures r.Some? ==> forall j :: from <= j < r.value ==> !Close(p, keys[j])
    ensures r.None? ==> forall j :: from <= j < |keys| ==> !Close(p, keys[j])
    decreases |keys| - from
  {
    if from == |keys| then None
    else if Close(p, keys[from]) then Some(from)
    else FirstMatchFrom(keys, p, from + 1)
  }

  /** The first key, in key order, within distance 0.01 of p. */
  function FirstMatch(keys: seq<Point>, p: Point): (r: Option<nat>)
    ensures r.Some? ==> r.value < |keys| && Close(p, keys[r.value])
    ensures r.Some? ==> forall j :: 0 <= j < r.value ==> !Close(p, keys[j])
    ensures r.None? ==> forall j :: 0 <= j < |keys| ==> !Close(p, keys[j])
  {
    FirstMatchFrom(keys, p, 0)
  }

  /** A point that is itself a key always finds a key. */
  lemma KeyAlwaysMatches(keys: seq<Point>, p: Point)
    requires p in keys
    ensures FirstMatch(keys, p).Some?
  {
    var i :| 0 <= i < |keys| && keys[i] == p;
    CloseBoundsAxes(p, p);
  }

  /** The observations counted for key k, in observation order. */
  function Group(keys: seq<Point>, obs: seq<Point>, k: int): (g: seq<Point>)
    ensures |g| <= |obs|
  {
    if obs == [] then []
    else Group(keys, obs[..|obs| - 1], k) + (if FirstMatch(keys, obs[|obs| - 1]) == Some(k) then [obs[|obs| - 1]] else [])
  }

  /** The groups for every key, in key order: the `matches` dictionary. */
  function Groups(keys: seq<Point>, obs: seq<Point>): (gs: seq<seq<Point>>)
    ensures |gs| == |keys|
  {
    seq(|keys|, k => Group(keys, obs, k))
  }

  /** A group holds exactly the observations whose first close key is its own key. */
  lemma {:induction false} GroupMembers(keys: seq<Point>, obs: seq<Point>, k: int, q: Point)
    ensures q in Group(keys, obs, k) <==> q in obs && FirstMatch(keys, q) == Some(k)
  {
    if obs != [] {
      var init := obs[..|obs| - 1];
      GroupMembers(keys, init, k, q);
      assert obs == init + [obs[|obs| - 1]];
    }
  }

  function SumSizes(gs: seq<seq<Point>>): nat {
    if gs == [] then 0 else SumSizes(gs[..|gs| - 1]) + |gs[|gs| - 1]|
  }

  /** Adding one observation grows exactly the group of its first close key. */
  lemma GroupsSnoc(keys: seq<Point>, obs: seq<Point>, p: Point)
    ensures var k := FirstMatch(keys, p);
            Groups(keys, obs + [p]) ==
              if k.Some? then Groups(keys, obs)[k.value := Groups(keys, obs)[k.value] + [p]] else Groups(keys, obs)
  {
    var gs, hs, m := Groups(keys, obs), Groups(keys, obs + [p]), FirstMatch(keys, p);
    assert (obs + [p])[..|obs + [p]| - 1] == obs;
    forall k | 0 <= k < |keys| ensures hs[k] == if m == Some(k) then gs[k] + [p] else gs[k] {
      assert hs[k] == Group(keys, obs + [p], k);
    }
  }

  lemma {:induction false} SumSizesUpdate(gs: seq<seq<Point>>, k: nat, p: Point)
    requires k < |gs|
    ensures SumSizes(gs[k := gs[k] + [p]]) == SumSizes(gs) + 1
    decreases |gs|
  {
    var hs := gs[k := gs[k] + [p]];
    if k == |gs| - 1 {
      assert hs[..|hs| - 1] == gs[..|gs| - 1];
    } else {
      assert hs[..|hs| - 1] == gs[..|gs| - 1][k := gs[k] + [p]];
      SumSizesUpdate(gs[..|gs| - 1], k, p);
    }
  }

  function NoGroups(n: nat): (gs: seq<seq<Point>>)
    ensures |gs| == n && forall k :: 0 <= k < n ==> gs[k] == []
  {
    seq(n, k => [])
  }

  lemma {:induction false} SumSizesEmpty(n: nat)
    ensures SumSizes(NoGroups(n)) == 0
  {
    if n > 0 {
      assert NoGroups(n)[..n - 1] == NoGroups(n - 1);
      SumSizesEmpty(n - 1);
    }
  }

  /** When every observation is one of the keys (the keys are `np.unique` of the
      observations), every observation is counted in exactly one group. */
  lemma {:induction false} EveryObservationCountedOnce(keys: seq<Point>, obs: seq<Point>)
    requires forall p :: p in obs ==> p in keys
    ensures SumSizes(Groups(keys, obs)) == |obs|
  {
    if obs == [] {
      assert Groups(keys, obs) == NoGroups(|keys|);
      SumSizesEmpty(|keys|);
    } else {
      var init, p := obs[..|obs| - 1], obs[|obs| - 1];
      assert obs == init + [p];
      assert forall q :: q in init ==> q in obs;
      EveryObservationCountedOnce(keys, init);
      KeyAlwaysMatches(keys, p);
      GroupsSnoc(keys, init, p);
      SumSizesUpdate(Groups(keys, init), FirstMatch(keys, p).value, p);
    }
  }

  /** The inner loop over the keys, leaving at the first close one. */
  method FindMatch(keys: seq<Point>, p: Point) returns (r: Option<nat>)
    ensures r == FirstMatch(keys, p)
  {
    var j := 0;
    while j < |keys|
      invariant 0 <= j <= |keys|
      invariant FirstMatchFrom(keys, p, j) == FirstMatch(keys, p)
    {
      if Close(p, keys[j]) {
        return Some(j);
      }
      j := j + 1;
    }
    return None;
  }

  /** The loops over frames and rows that fill `matches`, skipping `[-1, -1]` rows. */
  method GroupObservations(queue: seq<Frame>, keys: seq<Point>) returns (matches: seq<seq<Point>>)
    ensures matches == Groups(keys, Observations(queue))
  {
    matches := NoGroups(|keys|);
    var f := 0;
    while f < |queue|
      invariant 0 <= f <= |queue|
      invariant matches == Groups(keys, Observations(queue[..f]))
    {
      matches := GroupFrame(keys, matches, Observations(queue[..f]), queue[f]);
      assert queue[..f + 1] == queue[..f] + [queue[f]];
      f := f + 1;
    }
    assert queue[..|queue|] == queue;
  }

  /** The row loop for one frame: each observed row joins the group of its first close key. */
  method GroupFrame(keys: seq<Point>, groups: seq<seq<Point>>, ghost seen: seq<Point>, frame: Frame)
    returns (matches: seq<seq<Point>>)
    requires groups == Groups(keys, seen)
    ensures matches == Groups(keys, seen + Present(frame))
  {
    matches := groups;
    var s := 0;
    assert frame[..0] == [] && seen + [] == seen;
    while s < |frame|
      invariant 0 <= s <= |frame|
      invariant matches == Groups(keys, seen + Present(frame[..s]))
    {
      assert frame[..s + 1][..s] == frame[..s];
      ghost var before := seen + Present(frame[..s]);
      assert seen + Present(frame[..s + 1]) == before + (if frame[s].Some? then [frame[s].value] else []);
      if frame[s].Some? {
        var p := frame[s].value;
        var k := FindMatch(keys, p);
        GroupsSnoc(keys, before, p);
        if k.Some? {
          matches := matches[k.value := matches[k.value] + [p]];
        }
      } else {
        assert seen + Present(frame[..s + 1]) == before;
      }
      s := s + 1;
    }
    assert frame[..|frame|] == frame;
  }

  /** Key j comes before key k in the ranking: more members, or as many and earlier. */
  predicate Before(counts: seq<nat>, j: nat, k: nat)
    requires j < |counts| && k < |counts|
  {
    counts[j] > counts[k] || (counts[j] == counts[k] && j < k)
  }

  predicate RankSorted(counts: seq<nat>, s: seq<nat>)
    requires forall i :: 0 <= i < |s| ==> s[i] < |counts|
  {
    forall i, j :: 0 <= i < j < |s| ==> Before(counts, s[i], s[j])
  }

  function InsertRanked(counts: seq<nat>, s: seq<nat>, k: nat): (r: seq<nat>)
    requires k < |counts| && (forall i :: 0 <= i < |s| ==> s[i] < |counts|) && RankSorted(counts, s)
    requires k !in s
    ensures forall i :: 0 <= i < |r| ==> r[i] < |counts|
    ensures RankSorted(counts, r)
    ensures forall j :: j in r <==> j in s || j == k
  {
    if s == [] || Before(counts, k, s[0]) then [k] + s
    else
      var rest := InsertRanked(counts, s[1..], k);
      assert Before(counts, s[0], k) by {
        assert s[0] in s;
      }
      forall i | 0 <= i < |rest| ensures Before(counts, s[0], rest[i]) {
        assert rest[i] in rest;
        if rest[i] != k {
          var j :| 0 <= j < |s[1..]| && s[1..][j] == rest[i];
          assert s[1..][j] == s[j + 1];
        }
      }
      [s[0]] + rest
  }

  /** The indices 0 .. n - 1, stably sorted by decreasing member count. */
  function SortByCount(counts: seq<nat>, n: nat): (r: seq<nat>)
    requires n <= |counts|
    ensures forall i :: 0 <= i < |r| ==> r[i] < |counts|
    ensures RankSorted(counts, r)
    ensures forall j :: j in r <==> 0 <= j < n
  {
    if n == 0 then [] else InsertRanked(counts, SortByCount(counts, n - 1), n - 1)
  }

  function KeepSupported(counts: seq<nat>, s: seq<nat>, threshold: nat): (r: seq<nat>)
    requires forall i :: 0 <= i < |s| ==> s[i] < |counts|
    requires RankSorted(counts, s)
    ensures forall i :: 0 <= i < |r| ==> r[i] < |counts|
    ensures RankSorted(counts, r)
    ensures forall j :: j in r <==> j in s && counts[j] >= threshold
  {
    if s == [] then []
    else
      var rest := KeepSupported(counts, s[1..], threshold);
      assert forall i :: 0 <= i < |s[1..]| ==> Before(counts, s[0], s[1..][i]);
      if counts[s[0]] >= threshold then [s[0]] + rest else rest
  }

  /** The dictionary comprehension over `sorted(..., reverse=True)`: the keys with at
      least `threshold` members, most members first and ties in key order. */
  function Ranked(counts: seq<nat>, threshold: nat): (r: seq<nat>)
    ensures forall i :: 0 <= i < |r| ==> r[i] < |counts| && counts[r[i]] >= threshold
    ensures forall k :: 0 <= k < |counts| && counts[k] >= threshold ==> k in r
    ensures forall i, j :: 0 <= i < j < |r| ==> counts[r[i]] >= counts[r[j]]
    ensures forall i, j :: 0 <= i < j < |r| && counts[r[i]] == counts[r[j]] ==> r[i] < r[j]
  {
    var r := KeepSupported(counts, SortByCount(counts, |counts|), threshold);
    assert forall i :: 0 <= i < |r| ==> r[i] in r;
    r
  }

  /** The ranking is unique: any list of the supported keys ordered by the ranking
      order is the ranking itself. */
  lemma {:induction false} RankingUnique(counts: seq<nat>, s: seq<nat>, t: seq<nat>)
    requires forall i :: 0 <= i < |s| ==> s[i] < |counts|
    requires forall i :: 0 <= i < |t| ==> t[i] < |counts|
    requires RankSorted(counts, s) && RankSorted(counts, t)
    requires forall k :: k in s <==> k in t
    ensures s == t
  {
    assert s != [] ==> s[0] in t;
    assert t != [] ==> t[0] in s;
    if s != [] && t != [] {
      HeadsEqual(counts, s, t);
      forall k ensures k in s[1..] <==> k in t[1..] {
        SecondInTail(counts, s, t, k);
        SecondInTail(counts, t, s, k);
      }
      RankingUnique(counts, s[1..], t[1..]);
    }
  }

  /** The head of a ranked list comes before every other entry. */
  lemma HeadFirst(counts: seq<nat>, s: seq<nat>, x: nat)
    requires forall i :: 0 <= i < |s| ==> s[i] < |counts|
    requires RankSorted(counts, s) && x in s
    ensures x == s[0] || Before(counts, s[0], x)
  {
    var i :| 0 <= i < |s| && s[i] == x;
    if i > 0 {
      assert Before(counts, s[0], s[i]);
    }
  }

  lemma HeadsEqual(counts: seq<nat>, s: seq<nat>, t: seq<nat>)
    requires forall i :: 0 <= i < |s| ==> s[i] < |counts|
    requires forall i :: 0 <= i < |t| ==> t[i] < |counts|
    requires RankSorted(counts, s) && RankSorted(counts, t) && s != [] && t != []
    requires forall k :: k in s <==> k in t
    ensures s[0] == t[0]
  {
    assert s[0] in s && t[0] in t;
    HeadFirst(counts, t, s[0]);
    HeadFirst(counts, s, t[0]);
  }

  lemma SecondInTail(counts: seq<nat>, s: seq<nat>, t: seq<nat>, k: nat)
    requires forall i :: 0 <= i < |s| ==> s[i] < |counts|
    requires forall i :: 0 <= i < |t| ==> t[i] < |counts|
    requires RankSorted(counts, s) && s != [] && t != [] && s[0] == t[0]
    requires forall k :: k in s <==> k in t
    ensures k in s[1..] ==> k in t[1..]
  {
    if k in s[1..] {
      var i :| 0 <= i < |s[1..]| && s[1..][i] == k;
      assert s[i + 1] == k;
      assert Before(counts, s[0], s[i + 1]);
      assert k in t;
      var j :| 0 <= j < |t| && t[j] == k;
      assert j != 0;
      assert t[1..][j - 1] == k;
    }
  }

  function Counts(groups: seq<seq<Point>>): (c: seq<nat>)
    ensures |c| == |groups| && forall k :: 0 <= k < |groups| ==> c[k] == |groups[k]|
  {
    seq(|groups|, k requires 0 <= k < |groups| => |groups[k]|)
  }

  /** The mean of every ranked group, in ranking order. */
  function Means(groups: seq<seq<Point>>, ranked: seq<nat>): (best: seq<Point>)
    requires forall i :: 0 <= i < |ranked| ==> ranked[i] < |groups| && |groups[ranked[i]]| > 0
    ensures |best| == |ranked|
  {
    seq(|ranked|, i requires 0 <= i < |ranked| => Mean(groups[ranked[i]]))
  }

  /** The loop appending each group's mean to `best_predictions`. */
  method BestPredictions(groups: seq<seq<Point>>, ranked: seq<nat>) returns (best: seq<Point>)
    requires forall i :: 0 <= i < |ranked| ==> ranked[i] < |groups| && |groups[ranked[i]]| > 0
    ensures best == Means(groups, ranked)
  {
    best := [];
    var i := 0;
    while i < |ranked|
      invariant 0 <= i <= |ranked|
      invariant best == Means(groups, ranked[..i])
    {
      best := best + [Mean(groups[ranked[i]])];
      i := i + 1;
    }
    assert ranked[..i] == ranked;
  }

  /** Each best prediction lies within 0.01 on each axis of the key its group formed
      around. */
  lemma MeanNearKey(keys: seq<Point>, obs: seq<Point>, k: nat)
    requires k < |keys| && |Group(keys, obs, k)| > 0
    ensures var m, c := Mean(Group(keys, obs, k)), keys[k];
            c.x - 0.01 <= m.x <= c.x + 0.01 && c.y - 0.01 <= m.y <= c.y + 0.01
  {
    var g, c := Group(keys, obs, k), keys[k];
    var lo, hi := Point(c.x - 0.01, c.y - 0.01), Point(c.x + 0.01, c.y + 0.01);
    forall i | 0 <= i < |g| ensures lo.x <= g[i].x <= hi.x && lo.y <= g[i].y <= hi.y {
      assert g[i] in g;
      GroupMembers(keys, obs, k, g[i]);
      CloseBoundsAxes(g[i], c);
    }
    MeanInBox(g, lo, hi);
  }

  /** p is farther than 0.01 from every locked dart. */
  predicate FarFromAll(p: Point, locked: seq<Point>) {
    forall i :: 0 <= i < |locked| ==> Far(locked[i], p)
  }

  /** A point near some dart of a prefix is near some dart of the whole sequence; a
      point of the sequence is near itself. */
  lemma NearOneOf(p: Point, prefix: seq<Point>, r: seq<Point>)
    requires |prefix| <= |r| && r[..|prefix|] == prefix
    ensures !FarFromAll(p, prefix) || p in r ==> !FarFromAll(p, r)
  {
    if !FarFromAll(p, prefix) {
      var i :| 0 <= i < |prefix| && !Far(prefix[i], p);
      assert r[i] == prefix[i];
    } else if p in r {
      var i :| 0 <= i < |r| && r[i] == p;
      assert SquaredDistance(p, p) == 0.0;
    }
  }

  /** The loop over the best predictions once some dart is locked: a prediction far
      from every locked dart is appended, unless three are locked already. */
  function Extend(locked: seq<Point>, best: seq<Point>): (r: seq<Point>)
    ensures |r| >= |locked| && r[..|locked|] == locked
    ensures |locked| <= 3 ==> |r| <= 3
    ensures forall i :: |locked| <= i < |r| ==> r[i] in best && FarFromAll(r[i], r[..i])
    ensures |r| < 3 ==> forall b :: b in best ==> !FarFromAll(b, r)
    decreases |best|
  {
    if best == [] then locked
    else if FarFromAll(best[0], locked) then
      if |locked| == 3 then locked
      else
        var r := Extend(locked + [best[0]], best[1..]);
        assert r[..|locked|] == locked by {
          assert r[..|locked| + 1][..|locked|] == r[..|locked|];
        }
        assert forall i :: |locked| + 1 <= i < |r| ==> r[i] in best;
        assert r[|locked|] == best[0];
        NearOneOf(best[0], locked, r);
        r
    else
      var r := Extend(locked, best[1..]);
      assert forall i :: |locked| <= i < |r| ==> r[i] in best;
      NearOneOf(best[0], locked, r);
      r
  }

  /** The locking step: with nothing locked, the first three best predictions are
      taken as they are; otherwise they are added by `Extend`. */
  function Lock(locked: seq<Point>, best: seq<Point>): (r: seq<Point>)
    ensures |locked| <= 3 ==> |r| <= 3
    ensures locked != [] ==> |r| >= |locked| && r[..|locked|] == locked
    ensures locked == [] ==> r == best[..if |best| < 3 then |best| else 3]
    ensures |r| < 3 ==> forall b :: b in best ==> !FarFromAll(b, r)
  {
    if |locked| == 0 then
      var r := best[..if |best| < 3 then |best| else 3];
      assert |r| < 3 ==> r == best;
      forall b | b in best && |r| < 3 ensures !FarFromAll(b, r) {
        NearOneOf(b, [], r);
      }
      r
    else Extend(locked, best)
  }

  /** Once something is locked, no two locked darts are within 0.01 of each other
      unless they already were: every later addition is far from all before it. */
  lemma LockAddsOnlyFarDarts(locked: seq<Point>, best: seq<Point>)
    requires locked != []
    ensures var r := Lock(locked, best);
            forall i, j :: 0 <= j < i < |r| && i >= |locked| ==> Far(r[j], r[i])
  {
    var r := Lock(locked, best);
    forall i, j | 0 <= j < i < |r| && i >= |locked| ensures Far(r[j], r[i]) {
      assert FarFromAll(r[i], r[..i]);
      assert r[..i][j] == r[j];
    }
  }

  /** The first lock takes the first three predictions without the distance test, so
      two predictions 0.005 apart can both be locked. */
  lemma FirstLockSkipsDistanceTest()
    ensures var p, q := Point(0.0, 0.0), Point(0.005, 0.0);
            Lock([], [p, q]) == [p, q] && !Far(p, q) && Close(p, q)
  {
  }
}
