/**
  Segment counting and merging of block/blk-merge.c: the cached counts of a request bound the
  scatter-gather list that blk_rq_map_sg really builds.
 */
module Segments {

  /** A bio_vec: where it is in physical memory, and whether its page is above the bounce limit. */
  datatype Vec = Vec(phys: nat, len: nat, high: bool)

  /** The limits of a queue. `boundary` is the segment boundary mask plus one. */
  datatype Limits = Limits(cluster: bool, maxSegmentSize: nat, boundary: nat, maxSegments: nat, maxSectors: nat) {
    ghost predicate Valid() { boundary > 0 }
  }

  /** BIOVEC_PHYS_MERGEABLE and BIOVEC_SEG_BOUNDARY */
  predicate Joinable(q: Limits, v: Vec, w: Vec)
    requires q.Valid()
  {
    v.phys + v.len == w.phys && v.phys / q.boundary == (w.phys + w.len - 1) / q.boundary
  }

  function Size(vecs: seq<Vec>): nat {
    if vecs == [] then 0 else Size(vecs[..|vecs| - 1]) + vecs[|vecs| - 1].len
  }

  lemma SizeAppend(vecs: seq<Vec>, v: Vec)
    ensures Size(vecs + [v]) == Size(vecs) + v.len
  {
    assert (vecs + [v])[..|vecs|] == vecs;
  }

  lemma {:induction false} SizeConcat(a: seq<Vec>, b: seq<Vec>)
    ensures Size(a + b) == Size(a) + Size(b)
  {
    if b == [] {
      assert a + b == a;
    } else {
      SizeConcat(a, b[..|b| - 1]);
      assert (a + b)[..|a + b| - 1] == a + b[..|b| - 1];
    }
  }

  // ---- segmentations ----

  /** Vectors the hardware can take as one segment. */
  ghost predicate Fits(q: Limits, seg: seq<Vec>)
    requires q.Valid()
  {
    && seg != []
    && (|seg| > 1 ==>
          && q.cluster && Size(seg) <= q.maxSegmentSize
          && forall i | 0 <= i < |seg| - 1 :: Joinable(q, seg[i], seg[i + 1]))
  }

  ghost function Flatten(segs: seq<seq<Vec>>): seq<Vec> {
    if segs == [] then [] else segs[0] + Flatten(segs[1..])
  }

  ghost predicate AllFit(q: Limits, segs: seq<seq<Vec>>)
    requires q.Valid()
  {
    forall i | 0 <= i < |segs| :: Fits(q, segs[i])
  }

  lemma ConcatAssoc(a: seq<Vec>, b: seq<Vec>, c: seq<Vec>)
    ensures (a + b) + c == a + (b + c)
  {
  }

  lemma {:induction false} FlattenConcat(a: seq<seq<Vec>>, b: seq<seq<Vec>>)
    ensures Flatten(a + b) == Flatten(a) + Flatten(b)
  {
    if a == [] {
      assert a + b == b;
    } else {
      FlattenConcat(a[1..], b);
      assert (a + b)[1..] == a[1..] + b && (a + b)[0] == a[0];
      ConcatAssoc(a[0], Flatten(a[1..]), Flatten(b));
    }
  }

  // ---- the mapping loop ----

  /** The segment being filled: its last vector and its length so far. */
  datatype Open = Nothing | Open(prev: Vec, size: nat)

  predicate Continues(q: Limits, o: Open, v: Vec)
    requires q.Valid()
  {
    o.Open? && q.cluster && o.size + v.len <= q.maxSegmentSize && Joinable(q, o.prev, v)
  }

  function Extend(q: Limits, o: Open, v: Vec): Open
    requires q.Valid()
  {
    if Continues(q, o, v) then Open(v, o.size + v.len) else Open(v, v.len)
  }

  /** The segment left open after some vectors. */
  function After(q: Limits, o: Open, vecs: seq<Vec>): Open
    requires q.Valid()
    decreases |vecs|
  {
    if vecs == [] then o else After(q, Extend(q, o, vecs[0]), vecs[1..])
  }

  /** How many segments the loop starts on the way. */
  function Started(q: Limits, o: Open, vecs: seq<Vec>): nat
    requires q.Valid()
    decreases |vecs|
  {
    if vecs == [] then 0 else
      (if Continues(q, o, vecs[0]) then 0 else 1) + Started(q, Extend(q, o, vecs[0]), vecs[1..])
  }

  lemma {:induction false} StartedConcat(q: Limits, o: Open, a: seq<Vec>, b: seq<Vec>)
    requires q.Valid()
    ensures Started(q, o, a + b) == Started(q, o, a) + Started(q, After(q, o, a), b)
    ensures After(q, o, a + b) == After(q, After(q, o, a), b)
    decreases |a|
  {
    if a == [] {
      assert a + b == b;
    } else {
      assert (a + b)[1..] == a[1..] + b;
      StartedConcat(q, Extend(q, o, a[0]), a[1..], b);
    }
  }

  lemma SliceSize(seg: seq<Vec>, from: nat, i: nat)
    requires from <= i < |seg|
    ensures Size(seg[from..i + 1]) == Size(seg[from..i]) + seg[i].len <= Size(seg)
  {
    hide Size;
    assert seg == seg[..from] + seg[from..i + 1] + seg[i + 1..];
    SizeConcat(seg[..from] + seg[from..i + 1], seg[i + 1..]);
    SizeConcat(seg[..from], seg[from..i + 1]);
    assert seg[from..i + 1] == seg[from..i] + [seg[i]];
    SizeAppend(seg[from..i], seg[i]);
  }

  /** Inside a segment that fits, an open segment that began in it is never closed. */
  lemma {:induction false} NoStartInside(q: Limits, seg: seq<Vec>, from: nat, i: nat)
    requires q.Valid() && Fits(q, seg) && from < i <= |seg|
    ensures Started(q, Open(seg[i - 1], Size(seg[from..i])), seg[i..]) == 0
    decreases |seg| - i
  {
    hide Size, Joinable;
    if i < |seg| {
      SliceSize(seg, from, i);
      assert Joinable(q, seg[i - 1], seg[i]);
      assert seg[i..][1..] == seg[i + 1..];
      NoStartInside(q, seg, from, i + 1);
    }
  }

  /** A segment that fits costs the loop at most one new segment, whatever is open before it. */
  lemma {:induction false} OneStartPerSegment(q: Limits, seg: seq<Vec>, o: Open, i: nat)
    requires q.Valid() && Fits(q, seg) && i <= |seg|
    ensures Started(q, o, seg[i..]) <= 1
    decreases |seg| - i
  {
    if i < |seg| {
      assert seg[i..][1..] == seg[i + 1..];
      if Continues(q, o, seg[i]) {
        OneStartPerSegment(q, seg, Extend(q, o, seg[i]), i + 1);
      } else {
        NoStartInside(q, seg, i, i + 1);
        assert seg[i..i + 1] == [] + [seg[i]];
        SizeAppend([], seg[i]);
      }
    }
  }

  /** The loop is optimal: no segmentation into segments that fit has fewer of them. */
  lemma {:induction false} GreedyOptimal(q: Limits, segs: seq<seq<Vec>>, o: Open)
    requires q.Valid() && AllFit(q, segs)
    ensures Started(q, o, Flatten(segs)) <= |segs|
  {
    if segs != [] {
      var rest := segs[1..];
      assert forall i | 0 <= i < |rest| :: rest[i] == segs[i + 1];
      StartedConcat(q, o, segs[0], Flatten(rest));
      OneStartPerSegment(q, segs[0], o, 0);
      assert segs[0][0..] == segs[0];
      GreedyOptimal(q, rest, After(q, o, segs[0]));
    }
  }

  // ---- what the cached numbers stand for ----

  /**
    The vectors split into exactly `n` segments that fit, of which the first is no longer than `front`
    and the last no longer than `back`.
   */
  ghost predicate Witness(q: Limits, vecs: seq<Vec>, n: nat, front: nat, back: nat, segs: seq<seq<Vec>>) {
    && q.Valid() && AllFit(q, segs) && Flatten(segs) == vecs
    && |segs| == n >= 1 && Size(segs[0]) <= front && Size(segs[n - 1]) <= back
  }

  lemma {:induction false} FlattenLast(segs: seq<seq<Vec>>)
    requires segs != []
    ensures Flatten(segs) == Flatten(segs[..|segs| - 1]) + segs[|segs| - 1]
  {
    var n := |segs| - 1;
    assert segs == segs[..n] + [segs[n]];
    FlattenConcat(segs[..n], [segs[n]]);
    assert [segs[n]][1..] == [];
  }

  /** Two runs of vectors side by side. */
  lemma WitnessApart(q: Limits, v1: seq<Vec>, n1: nat, f1: nat, b1: nat, s1: seq<seq<Vec>>,
                     v2: seq<Vec>, n2: nat, f2: nat, b2: nat, s2: seq<seq<Vec>>)
    requires Witness(q, v1, n1, f1, b1, s1) && Witness(q, v2, n2, f2, b2, s2)
    ensures Witness(q, v1 + v2, n1 + n2, f1, b2, s1 + s2)
  {
    FlattenConcat(s1, s2);
  }

  lemma FitsJoin(q: Limits, a: seq<Vec>, b: seq<Vec>)
    requires q.Valid() && Fits(q, a) && Fits(q, b) && q.cluster && Size(a) + Size(b) <= q.maxSegmentSize
    requires Joinable(q, a[|a| - 1], b[0])
    ensures Fits(q, a + b)
  {
    SizeConcat(a, b);
    forall i | 0 <= i < |a + b| - 1
      ensures Joinable(q, (a + b)[i], (a + b)[i + 1])
    {
    }
  }

  /** The segmentation in which the last segment of one run and the first of the next are one. */
  ghost function Together(s1: seq<seq<Vec>>, s2: seq<seq<Vec>>): seq<seq<Vec>>
    requires s1 != [] && s2 != []
  {
    s1[..|s1| - 1] + [s1[|s1| - 1] + s2[0]] + s2[1..]
  }

  lemma FlattenTogether(s1: seq<seq<Vec>>, s2: seq<seq<Vec>>)
    requires s1 != [] && s2 != []
    ensures Flatten(Together(s1, s2)) == Flatten(s1) + Flatten(s2)
  {
    var left, mid, right := s1[..|s1| - 1], [s1[|s1| - 1] + s2[0]], s2[1..];
    FlattenLast(s1);
    FlattenConcat(left + mid, right);
    FlattenConcat(left, mid);
    assert mid[1..] == [];
  }

  /** Two runs of vectors whose meeting segments become one. */
  lemma WitnessTogether(q: Limits, v1: seq<Vec>, n1: nat, f1: nat, b1: nat, s1: seq<seq<Vec>>,
                        v2: seq<Vec>, n2: nat, f2: nat, b2: nat, s2: seq<seq<Vec>>)
    requires Witness(q, v1, n1, f1, b1, s1) && Witness(q, v2, n2, f2, b2, s2)
    requires q.cluster && b1 + f2 <= q.maxSegmentSize && v1 != [] && v2 != [] && Joinable(q, v1[|v1| - 1], v2[0])
    ensures Witness(q, v1 + v2, n1 + n2 - 1, if n1 == 1 then b1 + f2 else f1, if n2 == 1 then b1 + f2 else b2,
                    Together(s1, s2))
  {
    hide Fits, Flatten, Size, Joinable;
    var a, b := s1[n1 - 1], s2[0];
    assert Fits(q, a) && Fits(q, b);
    MeetingEnds(q, s1, s2);
    FitsJoin(q, a, b);
    SizeConcat(a, b);
    FlattenTogether(s1, s2);
    var segs := Together(s1, s2);
    forall i | 0 <= i < |segs|
      ensures Fits(q, segs[i])
    {
      if i < n1 - 1 { assert segs[i] == s1[i]; } else if i >= n1 { assert segs[i] == s2[i - n1 + 1]; }
    }
  }

  lemma MeetingEnds(q: Limits, s1: seq<seq<Vec>>, s2: seq<seq<Vec>>)
    requires q.Valid() && s1 != [] && s2 != [] && Fits(q, s1[|s1| - 1]) && Fits(q, s2[0])
    ensures var a, b, v1, v2 := s1[|s1| - 1], s2[0], Flatten(s1), Flatten(s2);
            a != [] && b != [] && v1 != [] && v2 != [] && v1[|v1| - 1] == a[|a| - 1] && v2[0] == b[0]
  {
    FlattenLast(s1);
  }

  // ---- bios and requests ----

  /** A bio with its cached segment count and edge sizes; the count is meaningful when `segValid`. */
  datatype Bio = Bio(vecs: seq<Vec>, front: nat, back: nat, segs: nat, segValid: bool)

  function AllVecs(bios: seq<Bio>): seq<Vec> {
    if bios == [] then [] else AllVecs(bios[..|bios| - 1]) + bios[|bios| - 1].vecs
  }

  lemma {:induction false} AllVecsConcat(a: seq<Bio>, b: seq<Bio>)
    ensures AllVecs(a + b) == AllVecs(a) + AllVecs(b)
  {
    if b == [] {
      assert a + b == a;
    } else {
      var b' := b[..|b| - 1];
      AllVecsConcat(a, b');
      assert (a + b)[..|a + b| - 1] == a + b' && (a + b)[|a + b| - 1] == b[|b| - 1];
      ConcatAssoc(AllVecs(a), AllVecs(b'), b[|b| - 1].vecs);
    }
  }

  lemma AllVecsOne(b: Bio)
    ensures AllVecs([b]) == b.vecs
  {
    assert [b][..0] == [];
  }

  /** Where the counting loop stands: closed segments, the one being filled, and the numbers kept. */
  ghost predicate Counting(q: Limits, done: seq<Vec>, closed: seq<seq<Vec>>, cur: seq<Vec>, n: nat, segSize: nat,
                           front: nat, prev: Vec, highPrev: bool) {
    && q.Valid() && AllFit(q, closed) && done == Flatten(closed) + cur
    && n == |closed| + (if cur == [] then 0 else 1)
    && segSize == Size(cur)
    && (cur == [] ==> closed == [] && highPrev)
    && (cur != [] ==> Fits(q, cur) && prev == cur[|cur| - 1])
    && (closed != [] ==> Size(closed[0]) <= front)
  }

  lemma CountJoin(q: Limits, done: seq<Vec>, closed: seq<seq<Vec>>, cur: seq<Vec>, n: nat, segSize: nat, front: nat,
                  prev: Vec, highPrev: bool, v: Vec)
    requires Counting(q, done, closed, cur, n, segSize, front, prev, highPrev) && !highPrev
    requires q.cluster && segSize + v.len <= q.maxSegmentSize && Joinable(q, prev, v)
    ensures Counting(q, done + [v], closed, cur + [v], n, segSize + v.len, front, v, highPrev)
  {
    SizeAppend(cur, v);
    SizeAppend([], v);
    assert [] + [v] == [v];
    FitsJoin(q, cur, [v]);
    assert done + [v] == Flatten(closed) + (cur + [v]);
  }

  lemma CountNew(q: Limits, done: seq<Vec>, closed: seq<seq<Vec>>, cur: seq<Vec>, n: nat, segSize: nat, front: nat,
                 prev: Vec, highPrev: bool, v: Vec, front': nat)
    requires Counting(q, done, closed, cur, n, segSize, front, prev, highPrev)
    requires front' >= front && (n == 1 ==> front' >= segSize)
    ensures var closed' := if cur == [] then closed else closed + [cur];
            Counting(q, done + [v], closed', [v], n + 1, v.len, front', v, v.high)
  {
    SizeAppend([], v);
    assert [] + [v] == [v];
    if cur != [] {
      FlattenConcat(closed, [cur]);
      assert [cur][1..] == [];
      assert Flatten([cur]) == cur;
    }
  }

  lemma CountEnd(q: Limits, done: seq<Vec>, closed: seq<seq<Vec>>, cur: seq<Vec>, n: nat, segSize: nat, front: nat,
                 prev: Vec, highPrev: bool, front': nat, back': nat)
    requires Counting(q, done, closed, cur, n, segSize, front, prev, highPrev) && done != []
    requires front' >= front && (n == 1 ==> front' >= segSize) && back' >= segSize
    ensures Witness(q, done, n, front', back', closed + [cur])
  {
    FlattenConcat(closed, [cur]);
    assert [cur][1..] == [];
    assert Flatten([cur]) == cur;
  }

  /** The bytes of a bio chain in sectors. */
  function Sectors(bios: seq<Bio>): nat { Size(AllVecs(bios)) / 512 }

  /** A bio whose cached count and sizes stand for a real segmentation of its vectors. */
  ghost predicate BioOk(q: Limits, b: Bio) {
    b.vecs != [] && (b.segValid ==> exists segs :: Witness(q, b.vecs, b.segs, b.front, b.back, segs))
  }

  lemma AllVecsSteps(bios: seq<Bio>)
    ensures AllVecs(bios[..0]) == []
    ensures forall b | 0 <= b < |bios| :: AllVecs(bios[..b + 1]) == AllVecs(bios[..b]) + bios[b].vecs
  {
    forall b | 0 <= b < |bios| ensures AllVecs(bios[..b + 1]) == AllVecs(bios[..b]) + bios[b].vecs {
      assert bios[..b + 1][..b] == bios[..b];
    }
  }

  /**
    What a count of a chain and the edge sizes kept with it stand for: a segmentation of all vectors, with the sizes
    only raised; with no high page it is the number of segments that the mapping loop starts.
   */
  ghost predicate Counted(q: Limits, bios: seq<Bio>, count: nat, front: nat, back: nat)
    requires q.Valid()
  {
    if AllVecs(bios) == [] then count == 0 else
      && (exists segs :: Witness(q, AllVecs(bios), count, front, back, segs))
      && bios != [] && front >= bios[0].front && back >= bios[|bios| - 1].back
      && (NoneHigh(AllVecs(bios)) ==> count == Started(q, Nothing, AllVecs(bios)))
  }

  /** __blk_recalc_rq_segments: counts, and raises the front size of the first and the back size of the last bio. */
  method RecalcSegments(q: Limits, bios: seq<Bio>) returns (count: nat, frontSize: nat, backSize: nat)
    requires q.Valid()
    ensures Counted(q, bios, count, frontSize, backSize)
  {
    hide AllFit, Size, Flatten, Counting, Joinable, Witness, AllVecs, Exact, NoneHigh, Counted;
    AllVecsSteps(bios);
    if bios == [] {
      assert bios[..0] == bios;
      CountedNothing(q, bios, 0, 0);
      return 0, 0, 0;
    }
    ghost var done, closed, cur: seq<Vec> := [], [], [];
    count, frontSize := 0, bios[0].front;
    var segSize: nat, highPrev, prev := 0, true, Vec(0, 0, true);
    CountStart(q, frontSize, prev);
    for b := 0 to |bios|
      invariant Exact(q, done, count, segSize, prev, highPrev)
      invariant Counting(q, done, closed, cur, count, segSize, frontSize, prev, highPrev) && done == AllVecs(bios[..b])
                && frontSize >= bios[0].front
    {
      for i := 0 to |bios[b].vecs|
        invariant Exact(q, done, count, segSize, prev, highPrev)
        invariant Counting(q, done, closed, cur, count, segSize, frontSize, prev, highPrev)
                  && frontSize >= bios[0].front
        invariant done == AllVecs(bios[..b]) + bios[b].vecs[..i]
      {
        var v := bios[b].vecs[i];
        ExactStep(q, done, count, segSize, prev, highPrev, v);
        if !(v.high || highPrev) && q.cluster && segSize + v.len <= q.maxSegmentSize && Joinable(q, prev, v) {
          CountJoin(q, done, closed, cur, count, segSize, frontSize, prev, highPrev, v);
          cur := cur + [v];
          segSize := segSize + v.len;
          prev := v;
        } else {
          ghost var front0 := frontSize;
          if count == 1 && segSize > frontSize { frontSize := segSize; }
          CountNew(q, done, closed, cur, count, segSize, front0, prev, highPrev, v, frontSize);
          closed, cur := if cur == [] then closed else closed + [cur], [v];
          count := count + 1;
          prev := v;
          segSize := v.len;
          highPrev := v.high;
        }
        done := done + [v];
      }
      assert bios[b].vecs[..|bios[b].vecs|] == bios[b].vecs;
    }
    assert bios[..|bios|] == bios;
    ghost var front0 := frontSize;
    if count == 1 && segSize > frontSize { frontSize := segSize; }
    backSize := bios[|bios| - 1].back;
    if segSize > backSize { backSize := segSize; }
    if done == [] {
      CountNone(q, closed, cur, count, segSize, front0, prev, highPrev);
      CountedNothing(q, bios, frontSize, backSize);
    } else {
      CountEnd(q, done, closed, cur, count, segSize, front0, prev, highPrev, frontSize, backSize);
      ExactEnd(q, done, count, segSize, prev, highPrev);
      CountedBy(q, bios, count, frontSize, backSize, closed + [cur]);
    }
  }

  lemma CountedNothing(q: Limits, bios: seq<Bio>, front: nat, back: nat)
    requires q.Valid() && AllVecs(bios) == []
    ensures Counted(q, bios, 0, front, back)
  {
  }

  lemma CountedBy(q: Limits, bios: seq<Bio>, count: nat, front: nat, back: nat, segs: seq<seq<Vec>>)
    requires Witness(q, AllVecs(bios), count, front, back, segs)
    requires bios != [] && front >= bios[0].front && back >= bios[|bios| - 1].back && AllVecs(bios) != []
    requires NoneHigh(AllVecs(bios)) ==> count == Started(q, Nothing, AllVecs(bios))
    ensures Counted(q, bios, count, front, back)
  {
    hide AllFit, Size, Flatten, AllVecs, NoneHigh, Started;
  }

  lemma CountNone(q: Limits, closed: seq<seq<Vec>>, cur: seq<Vec>, n: nat, segSize: nat, front: nat, prev: Vec,
                  highPrev: bool)
    requires Counting(q, [], closed, cur, n, segSize, front, prev, highPrev)
    ensures n == 0
  {
  }

  ghost predicate NoneHigh(vecs: seq<Vec>) {
    forall i | 0 <= i < |vecs| :: !vecs[i].high
  }

  /** With no page above the bounce limit the counting loop is in step with the mapping loop. */
  ghost predicate Exact(q: Limits, done: seq<Vec>, n: nat, segSize: nat, prev: Vec, highPrev: bool)
    requires q.Valid()
  {
    NoneHigh(done) ==>
      && n == Started(q, Nothing, done) && highPrev == (done == [])
      && After(q, Nothing, done) == if done == [] then Nothing else Open(prev, segSize)
  }

  lemma ExactStep(q: Limits, done: seq<Vec>, n: nat, segSize: nat, prev: Vec, highPrev: bool, v: Vec)
    requires q.Valid() && Exact(q, done, n, segSize, prev, highPrev)
    ensures var joins := !(v.high || highPrev) && q.cluster && segSize + v.len <= q.maxSegmentSize
            && Joinable(q, prev, v);
            Exact(q, done + [v], if joins then n else n + 1, if joins then segSize + v.len else v.len, v,
                  if joins then highPrev else v.high)
  {
    hide Joinable;
    if NoneHigh(done + [v]) {
      assert NoneHigh(done) && !v.high by {
        assert forall i | 0 <= i < |done| :: (done + [v])[i] == done[i];
        assert (done + [v])[|done|] == v;
      }
      StartedConcat(q, Nothing, done, [v]);
      assert [v][1..] == [];
    }
  }

  lemma ExactEnd(q: Limits, done: seq<Vec>, n: nat, segSize: nat, prev: Vec, highPrev: bool)
    requires q.Valid() && Exact(q, done, n, segSize, prev, highPrev)
    ensures NoneHigh(done) ==> n == Started(q, Nothing, done)
  {
  }

  lemma CountStart(q: Limits, front: nat, prev: Vec)
    requires q.Valid()
    ensures Counting(q, [], [], [], 0, 0, front, prev, true) && Exact(q, [], 0, 0, prev, true)
  {
  }

  /** blk_recount_segments on one bio */
  method RecountBio(q: Limits, b: Bio) returns (r: Bio)
    requires q.Valid() && b.vecs != []
    ensures r.vecs == b.vecs && r.segValid && BioOk(q, r) && r.front >= b.front && r.back >= b.back
  {
    AllVecsOne(b);
    var n, front, back := RecalcSegments(q, [b]);
    r := Bio(b.vecs, front, back, n, true);
  }

  /** blk_phys_contig_segment on data-carrying bios */
  predicate PhysContig(q: Limits, a: Bio, b: Bio)
    requires q.Valid() && a.vecs != [] && b.vecs != []
  {
    q.cluster && a.back + b.front <= q.maxSegmentSize && Joinable(q, a.vecs[|a.vecs| - 1], b.vecs[0])
  }

  /** The cached count and edge sizes of a chain stand for a segmentation of all its vectors. */
  ghost predicate Holds(q: Limits, bios: seq<Bio>, n: nat, segs: seq<seq<Vec>>) {
    && q.Valid() && bios != [] && (forall i | 0 <= i < |bios| :: bios[i].vecs != [])
    && Witness(q, AllVecs(bios), n, bios[0].front, bios[|bios| - 1].back, segs)
  }

  /** Raising the edge sizes of one bio is harmless. */
  lemma HoldsRaised(q: Limits, bios: seq<Bio>, n: nat, segs: seq<seq<Vec>>, i: nat, b: Bio)
    requires Holds(q, bios, n, segs) && i < |bios| && b.vecs == bios[i].vecs && b.front >= bios[i].front
             && b.back >= bios[i].back
    ensures Holds(q, bios[i := b], n, segs) && AllVecs(bios[i := b]) == AllVecs(bios)
  {
    hide AllFit, Flatten, Size, AllVecs;
    SameVecs(bios, i, b);
  }

  /** Chaining two runs of bios without joining segments. */
  lemma HoldsApart(q: Limits, a: seq<Bio>, n1: nat, s1: seq<seq<Vec>>, b: seq<Bio>, n2: nat, s2: seq<seq<Vec>>)
    requires Holds(q, a, n1, s1) && Holds(q, b, n2, s2)
    ensures Holds(q, a + b, n1 + n2, s1 + s2) && AllVecs(a + b) == AllVecs(a) + AllVecs(b)
  {
    hide Witness, AllVecs;
    AllVecsConcat(a, b);
    WitnessApart(q, AllVecs(a), n1, a[0].front, a[|a| - 1].back, s1, AllVecs(b), n2, b[0].front, b[|b| - 1].back, s2);
  }

  lemma HoldsOne(q: Limits, b: Bio) returns (segs: seq<seq<Vec>>)
    requires q.Valid() && BioOk(q, b) && b.segValid
    ensures Holds(q, [b], b.segs, segs) && AllVecs([b]) == b.vecs
  {
    segs :| Witness(q, b.vecs, b.segs, b.front, b.back, segs);
    AllVecsOne(b);
  }

  /** ll_merge_requests_fn on the edge sizes: what the two chains and the total become. */
  function MergedSizes(q: Limits, a: seq<Bio>, n1: nat, b: seq<Bio>, n2: nat): (seq<Bio>, seq<Bio>, int)
    requires q.Valid() && a != [] && b != [] && a[|a| - 1].vecs != [] && b[0].vecs != []
  {
    var tail, head, last := a[|a| - 1], b[0], |b| - 1;
    if !PhysContig(q, tail, head) then (a, b, n1 + n2) else
      var segSize := tail.back + head.front;
      (if n1 == 1 then a[0 := a[0].(front := segSize)] else a,
       if n2 == 1 then b[last := b[last].(back := segSize)] else b,
       n1 + n2 - 1)
  }

  /** Both chains stay sound under the new sizes, and chained together they are counted by the total. */
  lemma MergedSizesOk(q: Limits, a: seq<Bio>, n1: nat, s1: seq<seq<Vec>>, b: seq<Bio>, n2: nat, s2: seq<seq<Vec>>)
    returns (segs: seq<seq<Vec>>)
    requires Holds(q, a, n1, s1) && Holds(q, b, n2, s2)
    ensures var (a', b', total) := MergedSizes(q, a, n1, b, n2);
            && total >= 0 && Holds(q, a', n1, s1) && Holds(q, b', n2, s2) && Holds(q, a' + b', total, segs)
            && AllVecs(a') == AllVecs(a) && AllVecs(b') == AllVecs(b) && AllVecs(a' + b') == AllVecs(a) + AllVecs(b)
  {
    hide Witness, Size, AllVecs, Joinable;
    var tail, head, last := a[|a| - 1], b[0], |b| - 1;
    HoldsApart(q, a, n1, s1, b, n2, s2);
    segs := s1 + s2;
    if PhysContig(q, tail, head) {
      var segSize := tail.back + head.front;
      var (a', b', total) := MergedSizes(q, a, n1, b, n2);
      AllVecsEnds(a);
      AllVecsEnds(b);
      WitnessTogether(q, AllVecs(a), n1, a[0].front, tail.back, s1, AllVecs(b), n2, head.front, b[last].back, s2);
      WitnessNonempty(q, AllVecs(a), n1, a[0].front, tail.back, s1);
      WitnessNonempty(q, AllVecs(b), n2, head.front, b[last].back, s2);
      segs := Together(s1, s2);
      if n1 == 1 {
        OneSegment(q, AllVecs(a), a[0].front, tail.back, s1, segSize);
        SameVecs(a, 0, a[0].(front := segSize));
      }
      if n2 == 1 {
        OneSegment(q, AllVecs(b), head.front, b[last].back, s2, segSize);
        SameVecs(b, last, b[last].(back := segSize));
      }
      AllVecsConcat(a', b');
    }
  }

  lemma WitnessNonempty(q: Limits, vecs: seq<Vec>, n: nat, front: nat, back: nat, segs: seq<seq<Vec>>)
    requires Witness(q, vecs, n, front, back, segs)
    ensures n >= 1 && |segs| == n
  {
  }

  /** Vectors that are within both limits even if every one of them needs a segment of its own. */
  ghost predicate Roomy(q: Limits, vecs: seq<Vec>) {
    Size(vecs) / 512 <= q.maxSectors && |vecs| <= q.maxSegments
  }

  lemma RoomyMeans(q: Limits, a: seq<Vec>, b: seq<Vec>)
    ensures Roomy(q, a + b) ==> Size(a) / 512 + Size(b) / 512 <= q.maxSectors && |a| + |b| <= q.maxSegments
    ensures Roomy(q, a + b) ==> Roomy(q, a) && Roomy(q, b)
  {
    SizeConcat(a, b);
  }

  /** No segment is empty. */
  lemma {:induction false} SegmentsCount(q: Limits, segs: seq<seq<Vec>>)
    requires q.Valid() && AllFit(q, segs)
    ensures |segs| <= |Flatten(segs)|
  {
    if segs != [] {
      assert forall i | 0 <= i < |segs| - 1 :: segs[1..][i] == segs[i + 1];
      SegmentsCount(q, segs[1..]);
    }
  }

  lemma HoldsCount(q: Limits, bios: seq<Bio>, n: nat, segs: seq<seq<Vec>>)
    requires Holds(q, bios, n, segs)
    ensures n <= |AllVecs(bios)|
  {
    SegmentsCount(q, segs);
  }

  lemma BioCount(q: Limits, b: Bio)
    requires q.Valid() && BioOk(q, b) && b.segValid
    ensures b.segs <= |b.vecs|
  {
    var segs := HoldsOne(q, b);
    HoldsCount(q, [b], b.segs, segs);
  }

  class Request {
    var bios: seq<Bio>
    var nrSegments: nat
    var noMerge: bool
    ghost var segs: seq<seq<Vec>>

    ghost predicate Valid(q: Limits)
      reads this
    {
      Holds(q, bios, nrSegments, segs)
    }

    /** blk_rq_bio_prep */
    constructor (q: Limits, bio: Bio)
      requires q.Valid() && BioOk(q, bio)
      ensures Valid(q) && !noMerge && AllVecs(bios) == bio.vecs
    {
      hide Witness, AllVecs;
      var b := bio;
      if !bio.segValid { b := RecountBio(q, bio); }
      bios := [b];
      nrSegments := b.segs;
      noMerge := false;
      ghost var w := HoldsOne(q, b);
      segs := w;
    }

    /** The recount of the bio at one end of the chain before something is merged there. */
    method RefreshBio(q: Limits, i: nat)
      requires Valid(q) && i < |bios|
      modifies `bios
      ensures Valid(q) && |bios| == |old(bios)| && AllVecs(bios) == old(AllVecs(bios))
    {
      hide Witness, AllVecs;
      if !bios[i].segValid {
        var b := RecountBio(q, bios[i]);
        HoldsRaised(q, bios, nrSegments, segs, i, b);
        bios := bios[i := b];
      }
    }

    /** bio_attempt_back_merge with ll_back_merge_fn and ll_new_hw_segment */
    method BackMerge(q: Limits, bio: Bio) returns (merged: bool)
      requires Valid(q) && BioOk(q, bio)
      modifies this
      ensures Valid(q)
      ensures AllVecs(bios) == if merged then old(AllVecs(bios)) + bio.vecs else old(AllVecs(bios))
      ensures merged ==> nrSegments <= q.maxSegments && old(Sectors(bios)) + Size(bio.vecs) / 512 <= q.maxSectors
      ensures !merged ==> !Roomy(q, old(AllVecs(bios)) + bio.vecs)
      ensures !merged ==> nrSegments == old(nrSegments) && noMerge
      ensures bio.segValid ==>
                (merged <==> && old(Sectors(bios)) + Size(bio.vecs) / 512 <= q.maxSectors
                             && old(nrSegments) + bio.segs <= q.maxSegments)
      ensures bio.segValid && merged ==> nrSegments == old(nrSegments) + bio.segs
    {
      hide Holds, Witness, Size, AllVecs;
      HoldsCount(q, bios, nrSegments, segs);
      RoomyMeans(q, AllVecs(bios), bio.vecs);
      HoldsLength(q, bios, nrSegments, segs);
      if Sectors(bios) + Size(bio.vecs) / 512 > q.maxSectors {
        noMerge := true;
        return false;
      }
      RefreshBio(q, |bios| - 1);
      var b := bio;
      if !bio.segValid { b := RecountBio(q, bio); }
      BioCount(q, b);
      if nrSegments + b.segs > q.maxSegments {
        noMerge := true;
        return false;
      }
      ghost var w := HoldsOne(q, b);
      HoldsApart(q, bios, nrSegments, segs, [b], b.segs, w);
      nrSegments := nrSegments + b.segs;
      segs := segs + w;
      bios := bios + [b];
      return true;
    }

    /** bio_attempt_front_merge with ll_front_merge_fn and ll_new_hw_segment */
    method FrontMerge(q: Limits, bio: Bio) returns (merged: bool)
      requires Valid(q) && BioOk(q, bio)
      modifies this
      ensures Valid(q)
      ensures AllVecs(bios) == if merged then bio.vecs + old(AllVecs(bios)) else old(AllVecs(bios))
      ensures merged ==> nrSegments <= q.maxSegments && old(Sectors(bios)) + Size(bio.vecs) / 512 <= q.maxSectors
      ensures !merged ==> !Roomy(q, bio.vecs + old(AllVecs(bios)))
      ensures !merged ==> nrSegments == old(nrSegments) && noMerge
      ensures bio.segValid ==>
                (merged <==> && old(Sectors(bios)) + Size(bio.vecs) / 512 <= q.maxSectors
                             && old(nrSegments) + bio.segs <= q.maxSegments)
      ensures bio.segValid && merged ==> nrSegments == old(nrSegments) + bio.segs
    {
      hide Holds, Witness, Size, AllVecs;
      HoldsCount(q, bios, nrSegments, segs);
      RoomyMeans(q, bio.vecs, AllVecs(bios));
      HoldsLength(q, bios, nrSegments, segs);
      if Sectors(bios) + Size(bio.vecs) / 512 > q.maxSectors {
        noMerge := true;
        return false;
      }
      var b := bio;
      if !bio.segValid { b := RecountBio(q, bio); }
      RefreshBio(q, 0);
      BioCount(q, b);
      if nrSegments + b.segs > q.maxSegments {
        noMerge := true;
        return false;
      }
      ghost var w := HoldsOne(q, b);
      HoldsApart(q, [b], b.segs, w, bios, nrSegments, segs);
      nrSegments := nrSegments + b.segs;
      segs := w + segs;
      bios := [b] + bios;
      return true;
    }

    /** ll_merge_requests_fn and the chaining of attempt_merge; `next` hands over its bios. */
    method MergeRequests(q: Limits, next: Request) returns (merged: bool)
      requires this != next && Valid(q) && next.Valid(q)
      modifies this, next
      ensures Valid(q)
      ensures merged ==> AllVecs(bios) == old(AllVecs(bios)) + old(AllVecs(next.bios)) && next.bios == []
      ensures merged ==> nrSegments <= q.maxSegments && old(Sectors(bios)) + old(Sectors(next.bios)) <= q.maxSectors
      ensures !merged ==>
                && next.Valid(q) && AllVecs(bios) == old(AllVecs(bios))
                && AllVecs(next.bios) == old(AllVecs(next.bios))
      ensures !merged ==> !Roomy(q, old(AllVecs(bios)) + old(AllVecs(next.bios)))
      ensures !merged ==> nrSegments == old(nrSegments) && next.nrSegments == old(next.nrSegments)
      ensures var total := old(MergedSizes(q, bios, nrSegments, next.bios, next.nrSegments).2);
              && (merged <==> old(Sectors(bios)) + old(Sectors(next.bios)) <= q.maxSectors && total <= q.maxSegments)
              && (merged ==> nrSegments == total)
    {
      hide Holds, Witness, Size, AllVecs, Joinable;
      HoldsCount(q, bios, nrSegments, segs);
      HoldsCount(q, next.bios, next.nrSegments, next.segs);
      RoomyMeans(q, AllVecs(bios), AllVecs(next.bios));
      HoldsLength(q, bios, nrSegments, segs);
      HoldsLength(q, next.bios, next.nrSegments, next.segs);
      if Sectors(bios) + Sectors(next.bios) > q.maxSectors { return false; }
      ghost var joined := MergedSizesOk(q, bios, nrSegments, segs, next.bios, next.nrSegments, next.segs);
      ghost var (a', b', total') := MergedSizes(q, bios, nrSegments, next.bios, next.nrSegments);
      var last, nextLast := |bios| - 1, |next.bios| - 1;
      var segSize := bios[last].back + next.bios[0].front;
      var total := nrSegments + next.nrSegments;
      if PhysContig(q, bios[last], next.bios[0]) {
        if nrSegments == 1 { bios := bios[0 := bios[0].(front := segSize)]; }
        if next.nrSegments == 1 { next.bios := next.bios[nextLast := next.bios[nextLast].(back := segSize)]; }
        total := total - 1;
      }
      assert bios == a' && next.bios == b' && total == total';
      if total > q.maxSegments { return false; }
      nrSegments := total;
      segs := joined;
      bios := bios + next.bios;
      next.bios := [];
      return true;
    }

    /** The mapping loop of blk_rq_map_sg: at most nr_phys_segments entries, covering the same memory in order. */
    method MapSg(q: Limits) returns (sg: seq<Entry>)
      requires Valid(q)
      ensures |sg| == Started(q, Nothing, AllVecs(bios)) <= nrSegments
      ensures EntryBytes(sg) == VecBytes(AllVecs(bios))
    {
      hide Holds, Witness, Size, Joinable, After, Started, EntryBytes, VecBytes, AllVecs;
      HoldsLength(q, bios, nrSegments, segs);
      var vecs := AllVecs(bios);
      sg := [];
      var o: Open := Nothing;
      MapStart(q, vecs);
      for i := 0 to |vecs|
        invariant After(q, Nothing, vecs[..i]) == o && Started(q, Nothing, vecs[..i]) == |sg|
        invariant EntryBytes(sg) == VecBytes(vecs[..i])
        invariant o.Nothing? <==> sg == []
        invariant o.Open? ==>
                    && sg[|sg| - 1].phys + sg[|sg| - 1].len == o.prev.phys + o.prev.len
                    && sg[|sg| - 1].len == o.size
      {
        var v := vecs[i];
        MapStep(q, vecs, i);
        VecBytesAppend(vecs[..i], v);
        assert vecs[..i + 1] == vecs[..i] + [v];
        if o.Open? && q.cluster && o.size + v.len <= q.maxSegmentSize && Joinable(q, o.prev, v) {
          JoinableAdjacent(q, o.prev, v);
          var e := sg[|sg| - 1];
          EntryGrow(sg[..|sg| - 1], e, v);
          assert sg == sg[..|sg| - 1] + [e];
          sg := sg[..|sg| - 1] + [Entry(e.phys, e.len + v.len)];
          o := Open(v, o.size + v.len);
        } else {
          EntryAppend(sg, Entry(v.phys, v.len));
          sg := sg + [Entry(v.phys, v.len)];
          o := Open(v, v.len);
        }
      }
      assert vecs[..|vecs|] == vecs;
      HoldsBounds(q, bios, nrSegments, segs);
    }
  }

  // ---- any sequence of merges ----

  /** What can happen to a request: a bio at either end, or another request, itself the result of merges, behind it. */
  datatype Merge = Back(bio: Bio) | Front(bio: Bio) | Join(first: Bio, merges: seq<Merge>)

  ghost predicate MergesOk(q: Limits, merges: seq<Merge>) {
    forall i | 0 <= i < |merges| ::
      match merges[i]
      case Back(bio) => BioOk(q, bio)
      case Front(bio) => BioOk(q, bio)
      case Join(first, rest) => BioOk(q, first) && MergesOk(q, rest)
  }

  /** The vectors that `first` and the merges behind it bring together, in order. */
  ghost function MergedVecs(first: Bio, merges: seq<Merge>): seq<Vec>
    decreases merges
  {
    if merges == [] then first.vecs else With(MergedVecs(first, merges[..|merges| - 1]), merges[|merges| - 1])
  }

  ghost function With(before: seq<Vec>, m: Merge): seq<Vec>
    decreases m
  {
    match m
    case Back(bio) => before + bio.vecs
    case Front(bio) => bio.vecs + before
    case Join(other, rest) => before + MergedVecs(other, rest)
  }

  /** Some of the merges tried, in order; of a request that was joined, some of the merges tried on it. */
  ghost predicate Admitted(tried: seq<Merge>, admitted: seq<Merge>)
    decreases tried
  {
    if tried == [] then admitted == [] else
      var before, last := tried[..|tried| - 1], tried[|tried| - 1];
      || Admitted(before, admitted)
      || (&& admitted != [] && Admitted(before, admitted[..|admitted| - 1])
          && var m := admitted[|admitted| - 1];
             if last.Join? then m.Join? && m.first == last.first && Admitted(last.merges, m.merges) else m == last)
  }

  lemma AdmitOne(tried: seq<Merge>, i: nat, admitted: seq<Merge>, m: Merge)
    requires i < |tried| && Admitted(tried[..i], admitted)
    ensures Admitted(tried[..i + 1], admitted)
    ensures (if tried[i].Join?
             then m.Join? && m.first == tried[i].first && Admitted(tried[i].merges, m.merges)
             else m == tried[i])
            ==> Admitted(tried[..i + 1], admitted + [m])
  {
    assert tried[..i + 1][..i] == tried[..i];
    assert (admitted + [m])[..|admitted|] == admitted;
  }

  lemma MergedStep(first: Bio, merges: seq<Merge>, m: Merge)
    ensures MergedVecs(first, merges + [m]) == With(MergedVecs(first, merges), m)
  {
    assert (merges + [m])[..|merges|] == merges;
  }

  /** A part of what is roomy is roomy. */
  lemma {:induction false} RoomyPart(q: Limits, first: Bio, merges: seq<Merge>, i: nat)
    requires Roomy(q, MergedVecs(first, merges)) && i < |merges|
    ensures Roomy(q, MergedVecs(first, merges[..i + 1]))
    ensures merges[i].Join? ==> Roomy(q, MergedVecs(merges[i].first, merges[i].merges))
    decreases |merges|
  {
    hide Roomy;
    var n := |merges| - 1;
    var before := MergedVecs(first, merges[..n]);
    match merges[n] {
      case Back(bio) => RoomyMeans(q, before, bio.vecs);
      case Front(bio) => RoomyMeans(q, bio.vecs, before);
      case Join(other, rest) => RoomyMeans(q, before, MergedVecs(other, rest));
    }
    if i < n {
      RoomyPart(q, first, merges[..n], i);
      assert merges[..n][..i + 1] == merges[..i + 1];
    } else {
      assert merges[..i + 1] == merges;
    }
  }

  /**
    A request and whatever merges are tried on it: it carries exactly the vectors of those that are admitted, and all
    are admitted if the limits leave room for all.
   */
  method RunMerges(q: Limits, first: Bio, merges: seq<Merge>) returns (rq: Request, ghost admitted: seq<Merge>)
    requires q.Valid() && BioOk(q, first) && MergesOk(q, merges)
    ensures fresh(rq) && rq.Valid(q)
    ensures Admitted(merges, admitted) && AllVecs(rq.bios) == MergedVecs(first, admitted)
    ensures Roomy(q, MergedVecs(first, merges)) ==> admitted == merges
    decreases merges
  {
    hide Holds, BioOk, Admitted, MergedVecs, Roomy, AllVecs, Size;
    rq := new Request(q, first);
    admitted := [];
    NoMerges(first, merges);
    for i := 0 to |merges|
      invariant fresh(rq) && rq.Valid(q)
      invariant Admitted(merges[..i], admitted) && AllVecs(rq.bios) == MergedVecs(first, admitted)
      invariant Roomy(q, MergedVecs(first, merges)) ==> admitted == merges[..i]
    {
      if Roomy(q, MergedVecs(first, merges)) { RoomyPart(q, first, merges, i); }
      ghost var m := merges[i];
      var merged;
      match merges[i] {
        case Back(bio) =>
          merged := rq.BackMerge(q, bio);
        case Front(bio) =>
          merged := rq.FrontMerge(q, bio);
        case Join(other, rest) =>
          var next;
          ghost var inner;
          next, inner := RunMerges(q, other, rest);
          m := Join(other, inner);
          merged := rq.MergeRequests(q, next);
      }
      AdmitOne(merges, i, admitted, m);
      MergedStep(first, admitted, m);
      assert merges[..i + 1] == merges[..i] + [merges[i]];
      if merged { admitted := admitted + [m]; }
    }
    assert merges[..|merges|] == merges;
  }

  lemma NoMerges(first: Bio, merges: seq<Merge>)
    ensures Admitted(merges[..0], []) && MergedVecs(first, []) == first.vecs
  {
  }

  /**
    For every sequence of merges the scatter-gather list has at most nr_phys_segments entries and covers, in order, the
    memory of the bios that were admitted.
   */
  method MergeAndMap(q: Limits, first: Bio, merges: seq<Merge>)
    returns (rq: Request, sg: seq<Entry>, ghost admitted: seq<Merge>)
    requires q.Valid() && BioOk(q, first) && MergesOk(q, merges)
    ensures rq.Valid(q) && |sg| <= rq.nrSegments && EntryBytes(sg) == VecBytes(MergedVecs(first, admitted))
    ensures Admitted(merges, admitted) && (Roomy(q, MergedVecs(first, merges)) ==> admitted == merges)
  {
    hide Holds, Admitted, MergedVecs, Roomy, AllVecs;
    rq, admitted := RunMerges(q, first, merges);
    sg := rq.MapSg(q);
  }

  lemma HoldsLength(q: Limits, bios: seq<Bio>, n: nat, segs: seq<seq<Vec>>)
    requires Holds(q, bios, n, segs)
    ensures q.Valid() && bios != [] && (forall i | 0 <= i < |bios| :: bios[i].vecs != [])
  {
  }

  lemma HoldsBounds(q: Limits, bios: seq<Bio>, n: nat, segs: seq<seq<Vec>>)
    requires Holds(q, bios, n, segs)
    ensures Started(q, Nothing, AllVecs(bios)) <= n
  {
    CountBounds(q, AllVecs(bios), n, bios[0].front, bios[|bios| - 1].back, segs);
  }

  lemma MapStart(q: Limits, vecs: seq<Vec>)
    requires q.Valid()
    ensures After(q, Nothing, vecs[..0]) == Nothing && Started(q, Nothing, vecs[..0]) == 0
    ensures EntryBytes([]) == VecBytes(vecs[..0]) == []
  {
  }

  /** A scatterlist entry. */
  datatype Entry = Entry(phys: nat, len: nat)

  ghost function Range(phys: nat, len: nat): seq<nat> {
    seq(len, i requires 0 <= i < len => phys + i)
  }

  /** The memory a list of vectors or entries covers, byte by byte. */
  ghost function VecBytes(vecs: seq<Vec>): seq<nat> {
    if vecs == [] then [] else VecBytes(vecs[..|vecs| - 1]) + Range(vecs[|vecs| - 1].phys, vecs[|vecs| - 1].len)
  }

  ghost function EntryBytes(sg: seq<Entry>): seq<nat> {
    if sg == [] then [] else EntryBytes(sg[..|sg| - 1]) + Range(sg[|sg| - 1].phys, sg[|sg| - 1].len)
  }

  lemma VecBytesAppend(vecs: seq<Vec>, v: Vec)
    ensures VecBytes(vecs + [v]) == VecBytes(vecs) + Range(v.phys, v.len)
  {
    assert (vecs + [v])[..|vecs|] == vecs;
  }

  lemma EntryAppend(sg: seq<Entry>, e: Entry)
    ensures EntryBytes(sg + [e]) == EntryBytes(sg) + Range(e.phys, e.len)
  {
    assert (sg + [e])[..|sg|] == sg;
  }

  lemma EntryGrow(sg: seq<Entry>, e: Entry, v: Vec)
    requires e.phys + e.len == v.phys
    ensures EntryBytes(sg + [Entry(e.phys, e.len + v.len)]) == EntryBytes(sg + [e]) + Range(v.phys, v.len)
  {
    EntryAppend(sg, e);
    EntryAppend(sg, Entry(e.phys, e.len + v.len));
    assert Range(e.phys, e.len + v.len) == Range(e.phys, e.len) + Range(v.phys, v.len);
  }

  lemma JoinableAdjacent(q: Limits, v: Vec, w: Vec)
    requires q.Valid() && Joinable(q, v, w)
    ensures v.phys + v.len == w.phys
  {
  }

  lemma MapStep(q: Limits, vecs: seq<Vec>, i: nat)
    requires q.Valid() && i < |vecs|
    ensures var o := After(q, Nothing, vecs[..i]);
            && After(q, Nothing, vecs[..i + 1]) == Extend(q, o, vecs[i])
            && Started(q, Nothing, vecs[..i + 1])
                == Started(q, Nothing, vecs[..i]) + (if Continues(q, o, vecs[i]) then 0 else 1)
  {
    assert vecs[..i + 1] == vecs[..i] + [vecs[i]];
    StartedConcat(q, Nothing, vecs[..i], [vecs[i]]);
    assert [vecs[i]][1..] == [];
  }

  /** Any witness bounds what the mapping loop starts. */
  lemma CountBounds(q: Limits, vecs: seq<Vec>, n: nat, front: nat, back: nat, segs: seq<seq<Vec>>)
    requires Witness(q, vecs, n, front, back, segs)
    ensures Started(q, Nothing, vecs) <= n
  {
    GreedyOptimal(q, segs, Nothing);
  }

  /** A single segment is both first and last, so either edge size may stand in for the other. */
  lemma OneSegment(q: Limits, vecs: seq<Vec>, front: nat, back: nat, segs: seq<seq<Vec>>, size: nat)
    requires Witness(q, vecs, 1, front, back, segs) && (size >= back || size >= front)
    ensures Witness(q, vecs, 1, size, back, segs) && Witness(q, vecs, 1, front, size, segs)
  {
  }

  lemma {:induction false} SameVecs(bios: seq<Bio>, i: nat, b: Bio)
    requires i < |bios| && b.vecs == bios[i].vecs
    ensures AllVecs(bios[i := b]) == AllVecs(bios)
  {
    var n := |bios| - 1;
    if i == n {
      assert bios[i := b][..n] == bios[..n];
    } else {
      SameVecs(bios[..n], i, b);
      assert bios[i := b][..n] == bios[..n][i := b];
    }
  }

  lemma AllVecsEnds(bios: seq<Bio>)
    requires bios != [] && forall i | 0 <= i < |bios| :: bios[i].vecs != []
    ensures var v := AllVecs(bios); var t := bios[|bios| - 1].vecs;
            v != [] && v[|v| - 1] == t[|t| - 1] && v[0] == bios[0].vecs[0]
  {
    assert bios == [bios[0]] + bios[1..];
    AllVecsConcat([bios[0]], bios[1..]);
    AllVecsOne(bios[0]);
  }
}
