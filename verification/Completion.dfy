/**
  Partial completion of requests: blk_update_request and req_bio_endio of block/blk-core.c.

  A request is a chain of bios, a bio a list of memory vectors with an index of the first
  unfinished one.  What a request still has to transfer is a stream of bytes.
 */
module Completion {
  import opened Basics

  const EIO := 5

  /** `len` bytes of a page, from `offset`. */
  datatype Vec = Vec(page: nat, offset: nat, len: nat)

  datatype Bio = Bio(id: nat, vecs: seq<Vec>, idx: nat, size: nat, sector: nat, uptodate: bool)

  /** A call of bio_endio. */
  datatype EndIo = EndIo(id: nat, error: int)

  // ---- the byte stream ----

  /** A byte of memory. */
  datatype Byte = Byte(page: nat, offset: nat)

  ghost function VecBytes(v: Vec): seq<Byte> {
    seq(v.len, i requires 0 <= i < v.len => Byte(v.page, v.offset + i))
  }

  ghost function VecsBytes(vecs: seq<Vec>): (s: seq<Byte>)
    ensures |s| == VecsLen(vecs)
  {
    if vecs == [] then [] else VecBytes(vecs[0]) + VecsBytes(vecs[1..])
  }

  /** What a bio still has to transfer. */
  ghost function BioBytes(b: Bio): seq<Byte> {
    if b.idx <= |b.vecs| then VecsBytes(b.vecs[b.idx..]) else []
  }

  ghost function Stream(bios: seq<Bio>): seq<Byte> {
    if bios == [] then [] else BioBytes(bios[0]) + Stream(bios[1..])
  }

  /** A stream without its first `n` bytes. */
  ghost function Skip(s: seq<Byte>, n: nat): seq<Byte> {
    if n <= |s| then s[n..] else []
  }

  function VecsLen(vecs: seq<Vec>): nat {
    if vecs == [] then 0 else vecs[0].len + VecsLen(vecs[1..])
  }

  function TotalSize(bios: seq<Bio>): nat {
    if bios == [] then 0 else bios[0].size + TotalSize(bios[1..])
  }

  /** The size field counts the unfinished vectors. */
  ghost predicate WellFormed(b: Bio) {
    b.idx <= |b.vecs| && b.size == VecsLen(b.vecs[b.idx..])
  }

  ghost predicate AllWellFormed(bios: seq<Bio>) {
    forall b | b in bios :: WellFormed(b)
  }

  lemma {:induction false} StreamLen(bios: seq<Bio>)
    requires AllWellFormed(bios)
    ensures |Stream(bios)| == TotalSize(bios)
  {
    if bios != [] {
      assert WellFormed(bios[0]);
      StreamLen(bios[1..]);
    }
  }

  // ---- one bio ----

  /** Skips `n` bytes from vector `idx` on: whole vectors first, then into one. */
  function AdvanceVecs(vecs: seq<Vec>, idx: nat, n: nat): (seq<Vec>, nat)
    decreases |vecs| - idx
  {
    if n == 0 || idx >= |vecs| then (vecs, idx)
    else if vecs[idx].len <= n then AdvanceVecs(vecs, idx + 1, n - vecs[idx].len)
    else (vecs[idx := Vec(vecs[idx].page, vecs[idx].offset + n, vecs[idx].len - n)], idx)
  }

  /** A bio of which `n` bytes, not all, were completed with `error`. */
  function Advance(b: Bio, n: nat, error: int): Bio
    requires n <= b.size
  {
    if n == 0 then b else
      var (vecs, idx) := AdvanceVecs(b.vecs, b.idx, n);
      Bio(b.id, vecs, idx, b.size - n, b.sector + n / 512, b.uptodate && error == 0)
  }

  /** A bio completed to its end; its vectors are left as they were. */
  function Finish(b: Bio, error: int): Bio {
    b.(size := 0, sector := b.sector + b.size / 512, uptodate := b.uptodate && error == 0)
  }

  /** The error reported for a bio: an earlier failure of a part is remembered as -EIO. */
  function EndError(b: Bio, error: int): int {
    if error != 0 then error else if !b.uptodate then -EIO else 0
  }

  // ---- a chain of bios ----

  /** How many bios of a chain `n` bytes finish; completion stops at once when the bytes are used up. */
  function Finished(bios: seq<Bio>, n: nat): (k: nat)
    ensures k <= |bios|
  {
    if bios == [] || n < bios[0].size then 0
    else if n == bios[0].size then 1
    else 1 + Finished(bios[1..], n - bios[0].size)
  }

  /** The chain left after `n` bytes. */
  function Remaining(bios: seq<Bio>, n: nat, error: int): seq<Bio> {
    if bios == [] then []
    else if n < bios[0].size then [Advance(bios[0], n, error)] + bios[1..]
    else if n == bios[0].size then bios[1..]
    else Remaining(bios[1..], n - bios[0].size, error)
  }

  function Reports(bios: seq<Bio>, error: int): seq<EndIo> {
    seq(|bios|, i requires 0 <= i < |bios| => EndIo(bios[i].id, EndError(bios[i], error)))
  }

  // ---- facts about streams ----

  lemma {:induction false} AdvanceVecsStream(vecs: seq<Vec>, idx: nat, n: nat)
    requires idx <= |vecs| && n <= VecsLen(vecs[idx..])
    ensures var (vecs', idx') := AdvanceVecs(vecs, idx, n);
            && idx <= idx' <= |vecs'| == |vecs|
            && VecsBytes(vecs'[idx'..]) == VecsBytes(vecs[idx..])[n..]
    decreases |vecs| - idx
  {
    if n > 0 && idx < |vecs| {
      var v := vecs[idx];
      assert vecs[idx..][1..] == vecs[idx + 1..];
      assert VecsBytes(vecs[idx..]) == VecBytes(v) + VecsBytes(vecs[idx + 1..]);
      if v.len <= n {
        AdvanceVecsStream(vecs, idx + 1, n - v.len);
        SkipPast(VecBytes(v), VecsBytes(vecs[idx + 1..]), n);
      } else {
        var v' := Vec(v.page, v.offset + n, v.len - n);
        assert vecs[idx := v'][idx..][1..] == vecs[idx + 1..];
        assert VecBytes(v') == VecBytes(v)[n..];
        SkipInto(VecBytes(v), VecsBytes(vecs[idx + 1..]), n);
      }
    }
  }

  lemma SkipPast(a: seq<Byte>, b: seq<Byte>, n: nat)
    requires |a| <= n <= |a| + |b|
    ensures (a + b)[n..] == b[n - |a|..]
  {
  }

  lemma SkipInto(a: seq<Byte>, b: seq<Byte>, n: nat)
    requires n <= |a|
    ensures (a + b)[n..] == a[n..] + b
  {
  }

  lemma AdvanceStream(b: Bio, n: nat, error: int)
    requires WellFormed(b) && n <= b.size
    ensures |BioBytes(b)| == b.size
    ensures WellFormed(Advance(b, n, error)) && BioBytes(Advance(b, n, error)) == BioBytes(b)[n..]
  {
    AdvanceVecsStream(b.vecs, b.idx, n);
  }

  /** Completion refines the byte stream: exactly the first `n` bytes are gone. */
  lemma {:induction false} RemainingStream(bios: seq<Bio>, n: nat, error: int)
    requires AllWellFormed(bios)
    ensures AllWellFormed(Remaining(bios, n, error))
    ensures |Stream(bios)| == TotalSize(bios)
    ensures Stream(Remaining(bios, n, error)) == Skip(Stream(bios), n)
    ensures TotalSize(Remaining(bios, n, error)) == if n <= TotalSize(bios) then TotalSize(bios) - n else 0
  {
    StreamLen(bios);
    if bios != [] {
      var b := bios[0];
      assert WellFormed(b);
      if n < b.size {
        AdvanceStream(b, n, error);
        SkipInto(BioBytes(b), Stream(bios[1..]), n);
        assert ([Advance(b, n, error)] + bios[1..])[1..] == bios[1..];
      } else if n > b.size {
        RemainingStream(bios[1..], n - b.size, error);
        if n <= TotalSize(bios) { SkipPast(BioBytes(b), Stream(bios[1..]), n); }
      }
    }
  }

  // ---- requests ----

  /**
    A request: the unfinished chain, the bios already taken off it, the bytes and the first sector left,
    whether sectors are meaningful, whether it is part of a flush sequence, and the bio_endio calls made.
   */
  datatype Req = Req(bios: seq<Bio>, done: seq<Bio>, dataLen: nat, sector: nat, fs: bool, flushSeq: bool,
                     ended: seq<EndIo>)

  ghost predicate ReqOk(r: Req) {
    AllWellFormed(r.bios) && r.dataLen == TotalSize(r.bios)
  }

  function FinishAll(bios: seq<Bio>, error: int): seq<Bio> {
    seq(|bios|, i requires 0 <= i < |bios| => Finish(bios[i], error))
  }

  /** blk_update_request: the request left, and whether it has more data. */
  function Update(r: Req, error: int, n: nat): (Req, bool) {
    if r.bios == [] then (r, false) else
      var total := Min(n, TotalSize(r.bios));
      var first := r.bios[..Finished(r.bios, n)];
      var rest := Remaining(r.bios, n, error);
      var more := rest != [];
      (r.(bios := rest, done := r.done + FinishAll(first, error),
          dataLen := if more && r.dataLen >= total then r.dataLen - total else 0,
          sector := if more && r.fs then r.sector + total / 512 else r.sector,
          ended := if r.flushSeq then r.ended else r.ended + Reports(first, error)),
       more)
  }

  lemma {:induction false} RemainingLen(bios: seq<Bio>, n: nat, error: int)
    ensures |Remaining(bios, n, error)| + Finished(bios, n) == |bios|
    ensures forall i | 0 <= i < |Remaining(bios, n, error)| ::
            Remaining(bios, n, error)[i].id == bios[Finished(bios, n) + i].id
    ensures forall i | 0 < i < |Remaining(bios, n, error)| ::
            Remaining(bios, n, error)[i] == bios[Finished(bios, n) + i]
  {
    if bios != [] && n > bios[0].size {
      RemainingLen(bios[1..], n - bios[0].size, error);
    }
  }

  lemma {:induction false} ReqOkUpdate(r: Req, error: int, n: nat)
    requires ReqOk(r)
    ensures ReqOk(Update(r, error, n).0)
    ensures Update(r, error, n).0.dataLen == if n < r.dataLen then r.dataLen - n else 0
    ensures Stream(Update(r, error, n).0.bios) == Skip(Stream(r.bios), n)
  {
    if r.bios != [] {
      RemainingStream(r.bios, n, error);
    }
  }

  /** The sector just past the request stays put while whole sectors are completed. */
  lemma EndSectorFixed(r: Req, error: int, n: nat)
    requires ReqOk(r) && r.fs && n % 512 == 0 && r.dataLen % 512 == 0 && Update(r, error, n).1
    ensures var r' := Update(r, error, n).0;
            r'.dataLen % 512 == 0 && r'.sector + r'.dataLen / 512 == r.sector + r.dataLen / 512
  {
    hide Remaining, Finished, Reports, FinishAll, AllWellFormed;
    ReqOkUpdate(r, error, n);
    WholeSectors(r.dataLen, Min(n, r.dataLen));
  }

  lemma WholeSectors(a: nat, b: nat)
    requires b <= a && a % 512 == 0 && b % 512 == 0
    ensures (a - b) % 512 == 0 && b / 512 + (a - b) / 512 == a / 512
  {
  }

  /** Completing the whole length finishes the request exactly when no empty bio trails the data. */
  lemma {:induction false} FullCompletion(r: Req, error: int)
    requires ReqOk(r)
    ensures !Update(r, error, r.dataLen).1 <==> |r.bios| <= 1 || r.bios[|r.bios| - 1].size > 0
  {
    if r.bios != [] {
      ChainFullCompletion(r.bios, error);
    }
  }

  lemma {:induction false} ChainFullCompletion(bios: seq<Bio>, error: int)
    requires bios != []
    ensures Remaining(bios, TotalSize(bios), error) == [] <==> |bios| == 1 || bios[|bios| - 1].size > 0
  {
    var rest := bios[1..];
    if |bios| > 1 {
      if TotalSize(rest) == 0 {
        TrailingEmpty(rest);
      } else {
        ChainFullCompletion(rest, error);
        if |rest| == 1 { assert TotalSize(rest[1..]) == 0; }
      }
    }
  }

  lemma {:induction false} TrailingEmpty(bios: seq<Bio>)
    requires TotalSize(bios) == 0 && bios != []
    ensures bios[|bios| - 1].size == 0
  {
    if |bios| > 1 {
      TrailingEmpty(bios[1..]);
    }
  }

  /**
    And such requests there are: two bios of which the second is empty. All the bytes are completed and nothing is left
    to transfer, yet the request is reported to have more.
   */
  lemma EmptyBioTrails()
    ensures var bios := [Bio(1, [Vec(0, 0, 512)], 0, 512, 0, true), Bio(2, [], 0, 0, 1, true)];
            var r := Req(bios, [], 512, 0, true, false, []);
            && ReqOk(r) && Update(r, 0, r.dataLen).1
            && Update(r, 0, r.dataLen).0.bios == [Bio(2, [], 0, 0, 1, true)]
            && Stream(Update(r, 0, r.dataLen).0.bios) == []
  {
    var full, empty := Bio(1, [Vec(0, 0, 512)], 0, 512, 0, true), Bio(2, [], 0, 0, 1, true);
    var bios := [full, empty];
    assert bios[1..] == [empty] && [empty][1..] == [];
    assert full.vecs[0..] == full.vecs && full.vecs[1..] == [] && empty.vecs[0..] == [];
    assert VecsLen(full.vecs) == 512;
    assert WellFormed(full) && WellFormed(empty);
    assert TotalSize([empty]) == 0;
    assert TotalSize(bios) == 512;
    assert Remaining(bios, 512, 0) == [empty];
    assert Stream([empty]) == BioBytes(empty) + Stream([]);
  }

  // ---- any split into completions ----

  datatype Part = Part(bytes: nat, error: int)

  function Updates(r: Req, parts: seq<Part>): Req {
    if parts == [] then r else
      Update(Updates(r, parts[..|parts| - 1]), parts[|parts| - 1].error, parts[|parts| - 1].bytes).0
  }

  function PartBytes(parts: seq<Part>): nat {
    if parts == [] then 0 else PartBytes(parts[..|parts| - 1]) + parts[|parts| - 1].bytes
  }

  function Ids(bios: seq<Bio>): seq<nat> {
    seq(|bios|, i requires 0 <= i < |bios| => bios[i].id)
  }

  function EndedIds(ended: seq<EndIo>): seq<nat> {
    seq(|ended|, i requires 0 <= i < |ended| => ended[i].id)
  }

  /**
    However a request is split into completions, what is left is the suffix of the byte stream, the bios
    reported so far followed by those left are the original chain in order, and the length field counts
    what is left.
   */
  lemma {:induction false} SplitCompletion(r: Req, parts: seq<Part>)
    requires ReqOk(r) && !r.flushSeq
    ensures var r', n := Updates(r, parts), PartBytes(parts);
            && ReqOk(r') && !r'.flushSeq
            && Stream(r'.bios) == Skip(Stream(r.bios), n)
            && r'.dataLen == (if n <= r.dataLen then r.dataLen - n else 0)
            && EndedIds(r'.ended) + Ids(r'.bios) == EndedIds(r.ended) + Ids(r.bios)
  {
    StreamLen(r.bios);
    hide Update, Stream, Ids, EndedIds, AllWellFormed, TotalSize;
    if parts != [] {
      var last := parts[|parts| - 1];
      var r1, n1 := Updates(r, parts[..|parts| - 1]), PartBytes(parts[..|parts| - 1]);
      SplitCompletion(r, parts[..|parts| - 1]);
      ReqOkUpdate(r1, last.error, last.bytes);
      StepIds(r1, last.error, last.bytes);
    }
  }

  /** The sector just past the request stays put over any split into whole sectors, for as long as something is left. */
  lemma {:induction false} EndSectorOverSplit(r: Req, parts: seq<Part>)
    requires ReqOk(r) && r.fs && r.dataLen % 512 == 0 && (forall i | 0 <= i < |parts| :: parts[i].bytes % 512 == 0)
    requires Updates(r, parts).bios != []
    ensures var r' := Updates(r, parts);
            ReqOk(r') && r'.fs && r'.dataLen % 512 == 0 && r'.sector + r'.dataLen / 512 == r.sector + r.dataLen / 512
  {
    hide Remaining, Finished, Reports, FinishAll, AllWellFormed;
    if parts != [] {
      var before, last := parts[..|parts| - 1], parts[|parts| - 1];
      var r1 := Updates(r, before);
      assert r1.bios != [] && Update(r1, last.error, last.bytes).1;
      EndSectorOverSplit(r, before);
      ReqOkUpdate(r1, last.error, last.bytes);
      EndSectorFixed(r1, last.error, last.bytes);
    }
  }

  lemma StepIds(r: Req, error: int, n: nat)
    requires !r.flushSeq
    ensures var r' := Update(r, error, n).0;
            !r'.flushSeq && EndedIds(r'.ended) + Ids(r'.bios) == EndedIds(r.ended) + Ids(r.bios)
  {
    RemainingLen(r.bios, n, error);
  }

  // ---- the error of each bio ----

  /** Where a bio of a chain starts and ends in the byte stream. */
  function From(bios: seq<Bio>, i: nat): nat
    requires i <= |bios|
  {
    TotalSize(bios[..i])
  }

  function To(bios: seq<Bio>, i: nat): nat
    requires i < |bios|
  {
    From(bios, i) + bios[i].size
  }

  /** Part `j` of a split holds some byte of bio `i`. */
  predicate Covers(bios: seq<Bio>, parts: seq<Part>, i: nat, j: nat)
    requires i < |bios| && j < |parts|
  {
    Max(PartBytes(parts[..j]), From(bios, i)) < Min(PartBytes(parts[..j]) + parts[j].bytes, To(bios, i))
  }

  /** Some part that holds a byte of bio `i` failed. */
  ghost predicate Failed(bios: seq<Bio>, parts: seq<Part>, i: nat)
    requires i < |bios|
  {
    exists j :: 0 <= j < |parts| && parts[j].error != 0 && Covers(bios, parts, i, j)
  }

  /** The part that holds the last byte of bio `i` decides; if it went well, an earlier failure is reported as -EIO. */
  ghost predicate EndedWith(bios: seq<Bio>, parts: seq<Part>, i: nat, error: int, j: nat)
    requires i < |bios|
  {
    && j < |parts| && PartBytes(parts[..j]) < To(bios, i) <= PartBytes(parts[..j]) + parts[j].bytes
    && error == if parts[j].error != 0 then parts[j].error
                else if !bios[i].uptodate || Failed(bios, parts, i) then -EIO
                else 0
  }

  /** What the head of the chain left, once bio `d` of the whole chain, remembers. */
  ghost predicate HeadAt(bios: seq<Bio>, parts: seq<Part>, d: nat, head: Bio)
    requires d < |bios|
  {
    && head.id == bios[d].id && head.size <= bios[d].size && (bios[d].size > 0 ==> head.size > 0)
    && PartBytes(parts) == From(bios, d) + (bios[d].size - head.size)
    && (head.uptodate <==> bios[d].uptodate && !Failed(bios, parts, d))
  }

  /** After some parts of a chain: the bios left, and what those that are gone were ended with. */
  ghost predicate Progress(bios: seq<Bio>, parts: seq<Part>, left: seq<Bio>, ended: seq<EndIo>) {
    && |ended| + |left| == |bios|
    && (left != [] ==> HeadAt(bios, parts, |ended|, left[0]))
    && (forall i | 0 < i < |left| :: left[i] == bios[|ended| + i])
    && (forall i | 0 <= i < |ended| && bios[i].size > 0 :: exists j :: EndedWith(bios, parts, i, ended[i].error, j))
  }

  lemma {:induction false} PartBytesMono(parts: seq<Part>, j: nat)
    requires j < |parts|
    ensures PartBytes(parts[..j]) + parts[j].bytes <= PartBytes(parts)
  {
    var n := |parts| - 1;
    if j < n {
      PartBytesMono(parts[..n], j);
      assert parts[..n][..j] == parts[..j];
    }
  }

  /** One more part fails what it covers, and nothing else. */
  lemma FailedAppend(bios: seq<Bio>, parts: seq<Part>, p: Part, i: nat)
    requires i < |bios|
    ensures Failed(bios, parts + [p], i)
            <==> Failed(bios, parts, i) || (p.error != 0 && Covers(bios, parts + [p], i, |parts|))
  {
    hide Covers;
    forall j | 0 <= j < |parts| ensures Covers(bios, parts + [p], i, j) == Covers(bios, parts, i, j) {
      CoversAppend(bios, parts, p, i, j);
    }
    if Failed(bios, parts, i) {
      var j :| 0 <= j < |parts| && parts[j].error != 0 && Covers(bios, parts, i, j);
      assert (parts + [p])[j] == parts[j];
    }
  }

  lemma CoversAppend(bios: seq<Bio>, parts: seq<Part>, p: Part, i: nat, j: nat)
    requires i < |bios| && j < |parts|
    ensures Covers(bios, parts + [p], i, j) == Covers(bios, parts, i, j)
  {
    assert (parts + [p])[..j] == parts[..j];
  }

  lemma PartBytesAppend(parts: seq<Part>, p: Part)
    ensures PartBytes(parts + [p]) == PartBytes(parts) + p.bytes
  {
    assert (parts + [p])[..|parts|] == parts;
  }

  lemma CoversLast(bios: seq<Bio>, parts: seq<Part>, p: Part, i: nat)
    requires i < |bios|
    ensures Covers(bios, parts + [p], i, |parts|)
            <==> Max(PartBytes(parts), From(bios, i)) < Min(PartBytes(parts) + p.bytes, To(bios, i))
  {
    hide From, To, PartBytes;
    assert (parts + [p])[..|parts|] == parts;
  }

  /** Nothing has failed of a bio that no part has reached. */
  lemma NotReached(bios: seq<Bio>, parts: seq<Part>, i: nat)
    requires i < |bios| && PartBytes(parts) <= From(bios, i)
    ensures !Failed(bios, parts, i)
  {
    hide From, To, PartBytes;
    if j :| 0 <= j < |parts| && parts[j].error != 0 && Covers(bios, parts, i, j) {
      PartBytesMono(parts, j);
      assert false;
    }
  }

  /** What a bio was ended with does not change any more. */
  lemma EndedWithAppend(bios: seq<Bio>, parts: seq<Part>, p: Part, i: nat, error: int, j: nat)
    requires i < |bios| && EndedWith(bios, parts, i, error, j)
    ensures EndedWith(bios, parts + [p], i, error, j)
  {
    hide From, To, PartBytes, Failed;
    assert (parts + [p])[..j] == parts[..j] && (parts + [p])[j] == parts[j];
    PartBytesMono(parts, j);
    FailedAppend(bios, parts, p, i);
    CoversLast(bios, parts, p, i);
  }

  /** How far `n` bytes reach into a chain. */
  lemma {:induction false} FinishedReach(bios: seq<Bio>, n: nat, error: int)
    ensures var k := Finished(bios, n);
            && (forall i | 0 <= i < k :: To(bios, i) <= n)
            && (k < |bios| ==>
                  && From(bios, k) <= n && (From(bios, k) < n ==> n < To(bios, k))
                  && |Remaining(bios, n, error)| == |bios| - k
                  && n - From(bios, k) <= bios[k].size
                  && Remaining(bios, n, error)[0] == Advance(bios[k], n - From(bios, k), error))
  {
    RemainingLen(bios, n, error);
    if bios != [] && n >= bios[0].size {
      var rest := bios[1..];
      forall i | 0 < i <= |bios| ensures From(bios, i) == bios[0].size + From(rest, i - 1) {
        assert bios[..i][1..] == rest[..i - 1];
      }
      assert From(bios, 0) == 0;
      if n > bios[0].size {
        FinishedReach(rest, n - bios[0].size, error);
        forall i | 0 <= i < Finished(bios, n) ensures To(bios, i) <= n {
          if i > 0 { assert To(rest, i - 1) <= n - bios[0].size; }
        }
      }
    }
  }

  /** The chain left lies behind the bytes that are done, bio by bio. */
  lemma {:induction false} LeftPositions(bios: seq<Bio>, parts: seq<Part>, left: seq<Bio>, ended: seq<EndIo>, x: nat)
    requires Progress(bios, parts, left, ended) && x < |left|
    ensures To(bios, |ended| + x) == PartBytes(parts) + To(left, x)
    ensures x > 0 ==> From(bios, |ended| + x) == PartBytes(parts) + From(left, x)
    ensures x == 0 ==> From(bios, |ended|) <= PartBytes(parts) && From(left, 0) == 0
  {
    hide Failed, EndedWith;
    if x > 0 {
      LeftPositions(bios, parts, left, ended, x - 1);
      TotalSizeAppend(bios, |ended| + x - 1);
      TotalSizeAppend(left, x - 1);
    }
  }

  /** A bio that a part finishes is ended with the error of that part, or with what it remembers. */
  lemma EndedNow(bios: seq<Bio>, parts: seq<Part>, p: Part, left: seq<Bio>, ended: seq<EndIo>, x: nat)
    requires Progress(bios, parts, left, ended) && x < Finished(left, p.bytes) && bios[|ended| + x].size > 0
    ensures EndedWith(bios, parts + [p], |ended| + x, EndError(left[x], p.error), |parts|)
  {
    hide From, PartBytes, Failed, Finished, Remaining, EndedWith;
    var i := |ended| + x;
    FinishedReach(left, p.bytes, p.error);
    LeftPositions(bios, parts, left, ended, x);
    assert left[x].size > 0 && (left[x].uptodate <==> bios[i].uptodate && !Failed(bios, parts, i)) by {
      if x > 0 { NotReached(bios, parts, i); }
    }
    FailedAppend(bios, parts, p, i);
    CoversLast(bios, parts, p, i);
    EndedWithNow(bios, parts, p, i, EndError(left[x], p.error));
  }

  lemma EndedWithNow(bios: seq<Bio>, parts: seq<Part>, p: Part, i: nat, error: int)
    requires i < |bios| && PartBytes(parts) < To(bios, i) <= PartBytes(parts) + p.bytes
    requires error == if p.error != 0 then p.error
                      else if !bios[i].uptodate || Failed(bios, parts + [p], i) then -EIO
                      else 0
    ensures EndedWith(bios, parts + [p], i, error, |parts|)
  {
    hide From, To, PartBytes, Failed;
    assert (parts + [p])[..|parts|] == parts;
  }

  /** The bio that a part stops in, or before, remembers the part if it was reached. */
  lemma HeadNow(bios: seq<Bio>, parts: seq<Part>, p: Part, left: seq<Bio>, ended: seq<EndIo>)
    requires Progress(bios, parts, left, ended) && Finished(left, p.bytes) < |left|
    ensures var left' := Remaining(left, p.bytes, p.error);
            left' != [] && HeadAt(bios, parts + [p], |ended| + Finished(left, p.bytes), left'[0])
  {
    hide From, PartBytes, Failed, Finished, Remaining, EndedWith, AdvanceVecs;
    var x := Finished(left, p.bytes);
    var i := |ended| + x;
    FinishedReach(left, p.bytes, p.error);
    LeftPositions(bios, parts, left, ended, x);
    assert left[x].uptodate <==> bios[i].uptodate && !Failed(bios, parts, i) by {
      if x > 0 { NotReached(bios, parts, i); }
    }
    FailedAppend(bios, parts, p, i);
    CoversLast(bios, parts, p, i);
    PartBytesAppend(parts, p);
  }

  /** One more part. */
  lemma ProgressStep(bios: seq<Bio>, parts: seq<Part>, p: Part, left: seq<Bio>, ended: seq<EndIo>)
    requires Progress(bios, parts, left, ended)
    ensures Progress(bios, parts + [p], Remaining(left, p.bytes, p.error),
                     ended + Reports(left[..Finished(left, p.bytes)], p.error))
  {
    hide HeadAt, Remaining, EndedWith;
    var k := Finished(left, p.bytes);
    var left', ended' := Remaining(left, p.bytes, p.error), ended + Reports(left[..k], p.error);
    RemainingLen(left, p.bytes, p.error);
    if k < |left| { HeadNow(bios, parts, p, left, ended); }
    forall i | 0 <= i < |ended'| && bios[i].size > 0
      ensures exists j :: EndedWith(bios, parts + [p], i, ended'[i].error, j)
    {
      if i < |ended| {
        var j :| EndedWith(bios, parts, i, ended[i].error, j);
        EndedWithAppend(bios, parts, p, i, ended[i].error, j);
        assert ended'[i] == ended[i];
      } else {
        EndedNow(bios, parts, p, left, ended, i - |ended|);
        assert ended'[i] == Reports(left[..k], p.error)[i - |ended|];
      }
    }
  }

  lemma {:induction false} SplitProgress(r: Req, parts: seq<Part>)
    requires !r.flushSeq
    ensures var r' := Updates(r, parts);
            && !r'.flushSeq && r.ended <= r'.ended
            && Progress(r.bios, parts, r'.bios, r'.ended[|r.ended|..])
  {
    hide Progress, Remaining, Finished, Reports, FinishAll;
    if parts == [] {
      ProgressStart(r.bios);
      assert r.ended[|r.ended|..] == [];
    } else {
      var before, p := parts[..|parts| - 1], parts[|parts| - 1];
      SplitProgress(r, before);
      var r1 := Updates(r, before);
      ProgressStep(r.bios, before, p, r1.bios, r1.ended[|r.ended|..]);
      assert parts == before + [p];
      if r1.bios == [] {
        NothingLeft(p.bytes, p.error);
        assert r1.ended[|r.ended|..] + [] == r1.ended[|r.ended|..];
      } else {
        var reports := Reports(r1.bios[..Finished(r1.bios, p.bytes)], p.error);
        assert (r1.ended + reports)[|r.ended|..] == r1.ended[|r.ended|..] + reports;
      }
    }
  }

  lemma ProgressStart(bios: seq<Bio>)
    ensures Progress(bios, [], bios, [])
  {
    if bios != [] { NotReached(bios, [], 0); }
  }

  lemma NothingLeft(n: nat, error: int)
    ensures Remaining([], n, error) == [] && Reports([][..Finished([], n)], error) == []
  {
  }

  /**
    Over any split, every bio that has data and has been ended was ended with the error of the part that holds its last
    byte, or else with -EIO if it was bad to begin with or another part that holds some of its bytes failed. So it ends
    with an error exactly if it was bad before or a part that holds some of its bytes failed.
   */
  lemma SplitErrors(r: Req, parts: seq<Part>, i: nat)
    requires !r.flushSeq && i < |r.bios| && r.bios[i].size > 0 && |r.ended| + i < |Updates(r, parts).ended|
    ensures |Updates(r, parts).ended| <= |r.ended| + |r.bios|
    ensures var e := Updates(r, parts).ended[|r.ended| + i];
            && (exists j :: EndedWith(r.bios, parts, i, e.error, j))
            && (e.error != 0 <==> !r.bios[i].uptodate || Failed(r.bios, parts, i))
  {
    hide Updates, HeadAt, EndedWith, Failed;
    SplitProgress(r, parts);
    var r' := Updates(r, parts);
    var e := r'.ended[|r.ended|..][i];
    var j :| EndedWith(r.bios, parts, i, e.error, j);
    EndedWithError(r.bios, parts, i, e.error, j);
  }

  lemma EndedWithError(bios: seq<Bio>, parts: seq<Part>, i: nat, error: int, j: nat)
    requires i < |bios| && bios[i].size > 0 && EndedWith(bios, parts, i, error, j)
    ensures error != 0 <==> !bios[i].uptodate || Failed(bios, parts, i)
  {
    hide From, PartBytes;
    assert Covers(bios, parts, i, j);
  }

  /** A bio without data is covered by no part, yet it is ended with the error of the part that passes it. */
  lemma EmptyBioFails()
    ensures var r := Req([Bio(1, [], 0, 0, 0, true)], [], 0, 0, true, false, []); var parts := [Part(0, -EIO)];
            ReqOk(r) && Updates(r, parts).ended == [EndIo(1, -EIO)] && !Failed(r.bios, parts, 0)
  {
    var b, parts := Bio(1, [], 0, 0, 0, true), [Part(0, -EIO)];
    assert parts[..0] == [] && [b][1..] == [] && b.vecs[0..] == [];
    assert Finished([b], 0) == 1 && [b][..1] == [b];
  }

  // ---- the loop ----

  lemma VecsLenStep(vecs: seq<Vec>, i: nat)
    requires i < |vecs|
    ensures VecsLen(vecs[i..]) == vecs[i].len + VecsLen(vecs[i + 1..])
  {
    assert vecs[i..][1..] == vecs[i + 1..];
  }

  /**
    Where the scan of a chain stands: `k` bios finished, `next` vectors of the head passed with `inHead` bytes, `left`
    to go.
   */
  ghost predicate Scan(bios: seq<Bio>, n: nat, error: int, k: nat, next: nat, inHead: nat, left: nat) {
    && k <= |bios|
    && inHead + left + TotalSize(bios[..k]) == n
    && Remaining(bios, n, error) == Remaining(bios[k..], inHead + left, error)
    && Finished(bios, n) == k + Finished(bios[k..], inHead + left)
    && (k < |bios| ==>
          var b := bios[k];
          && b.idx + next <= |b.vecs|
          && VecsLen(b.vecs[b.idx..]) == inHead + VecsLen(b.vecs[b.idx + next..])
          && (next > 0 ==> inHead + left < b.size)
          && AdvanceVecs(b.vecs, b.idx, inHead + left) == AdvanceVecs(b.vecs, b.idx + next, left))
    && (next == 0 ==> inHead == 0)
  }

  lemma ScanStart(bios: seq<Bio>, n: nat, error: int)
    requires AllWellFormed(bios)
    ensures Scan(bios, n, error, 0, 0, 0, n)
  {
    assert bios[0..] == bios;
    if bios != [] { assert WellFormed(bios[0]); }
  }

  lemma {:induction false} TotalSizeAppend(bios: seq<Bio>, k: nat)
    requires k < |bios|
    ensures TotalSize(bios[..k + 1]) == TotalSize(bios[..k]) + bios[k].size
  {
    if k > 0 {
      TotalSizeAppend(bios[1..], k - 1);
      assert bios[..k + 1][1..] == bios[1..][..k] && bios[..k][1..] == bios[1..][..k - 1];
    }
  }

  /** The head is finished and bytes are left, or the chain ends with it. */
  lemma ScanBio(bios: seq<Bio>, n: nat, error: int, k: nat, next: nat, inHead: nat, left: nat)
    requires AllWellFormed(bios) && Scan(bios, n, error, k, next, inHead, left)
    requires k < |bios| && left >= bios[k].size
    ensures next == 0 && TotalSize(bios[..k + 1]) == TotalSize(bios[..k]) + bios[k].size
    ensures left > bios[k].size || k + 1 == |bios| ==> Scan(bios, n, error, k + 1, 0, 0, left - bios[k].size)
    ensures left == bios[k].size && k + 1 < |bios| ==> Stopped(bios, n, error, k + 1, 0, 0, 0)
    ensures k + 1 == |bios| ==> Finished(bios, n) == k + 1 && Remaining(bios, n, error) == []
  {
    TotalSizeAppend(bios, k);
    assert bios[k..][1..] == bios[k + 1..];
    if k + 1 < |bios| { assert WellFormed(bios[k + 1]); }
  }

  /** A vector of the head is passed. */
  lemma ScanVec(bios: seq<Bio>, n: nat, error: int, k: nat, next: nat, inHead: nat, left: nat)
    requires AllWellFormed(bios) && Scan(bios, n, error, k, next, inHead, left)
    requires k < |bios| && left < bios[k].size
    ensures bios[k].idx + next < |bios[k].vecs| && bios[k].vecs[bios[k].idx + next].len <= bios[k].size
    ensures var len := bios[k].vecs[bios[k].idx + next].len;
            len <= left && left > 0 ==> Scan(bios, n, error, k, next + 1, inHead + len, left - len)
  {
    var b := bios[k];
    assert WellFormed(b);
    if next == 0 || b.idx + next < |b.vecs| {
      VecsLenStep(b.vecs, b.idx + next);
    }
  }

  /** The bytes of the current vector. */
  function CurBytes(b: Bio): nat {
    if b.idx < |b.vecs| then b.vecs[b.idx].len else b.size
  }

  /**
    The scan of a chain has stopped: `k` bios are finished and `inHead` bytes of the next one are done,
    which ends `left` bytes into the vector `next` places on.
   */
  ghost predicate Stopped(bios: seq<Bio>, n: nat, error: int, k: nat, next: nat, inHead: nat, left: nat) {
    && k < |bios| && Finished(bios, n) == k && inHead <= bios[k].size
    && Remaining(bios, n, error) == [Advance(bios[k], inHead, error)] + bios[k + 1..]
    && (inHead > 0 ==>
          var b := bios[k];
          && b.idx + next < |b.vecs|
          && var v := b.vecs[b.idx + next];
             && left <= v.len && inHead < b.size
             && Advance(b, inHead, error)
                  == Bio(b.id, b.vecs[b.idx + next := Vec(v.page, v.offset + left, v.len - left)], b.idx + next,
                         b.size - inHead, b.sector + inHead / 512, b.uptodate && error == 0))
  }

  lemma ScanStop(bios: seq<Bio>, n: nat, error: int, k: nat, next: nat, inHead: nat, left: nat)
    requires AllWellFormed(bios) && Scan(bios, n, error, k, next, inHead, left)
    requires k < |bios| && inHead + left < bios[k].size
    requires bios[k].idx + next < |bios[k].vecs| && (left == 0 || left < bios[k].vecs[bios[k].idx + next].len)
    ensures Stopped(bios, n, error, k, next, inHead + left, left)
  {
    assert bios[k..][0] == bios[k] && bios[k..][1..] == bios[k + 1..];
    var b := bios[k];
    if left == 0 { assert b.vecs[b.idx + next := b.vecs[b.idx + next]] == b.vecs; }
  }

  /** While bytes of the head are missing, there is a vector that holds them. */
  lemma ScanInside(bios: seq<Bio>, n: nat, error: int, k: nat, next: nat, inHead: nat, left: nat)
    requires AllWellFormed(bios) && Scan(bios, n, error, k, next, inHead, left) && k < |bios|
    requires next > 0 || left < bios[k].size
    ensures inHead + left < bios[k].size && (left == 0 ==> bios[k].idx + next < |bios[k].vecs|)
  {
    assert WellFormed(bios[k]);
  }

  lemma ReportsAppend(bios: seq<Bio>, k: nat, error: int)
    requires k < |bios|
    ensures Reports(bios[..k + 1], error) == Reports(bios[..k], error) + [EndIo(bios[k].id, EndError(bios[k], error))]
    ensures FinishAll(bios[..k + 1], error) == FinishAll(bios[..k], error) + [Finish(bios[k], error)]
  {
  }

  class Request {
    var bios: seq<Bio>
    var done: seq<Bio>
    var dataLen: nat
    var sector: nat
    var fs: bool
    var flushSeq: bool
    var ended: seq<EndIo>

    ghost function Value(): Req
      reads this
    {
      Req(bios, done, dataLen, sector, fs, flushSeq, ended)
    }

    /** req_bio_endio on a bio that is complete and already off the chain. */
    method EndBio(bio: Bio, error: int)
      modifies `done, `ended
      ensures done == old(done) + [Finish(bio, error)]
      ensures ended == if flushSeq then old(ended) else old(ended) + [EndIo(bio.id, EndError(bio, error))]
    {
      var uptodate := bio.uptodate;
      var report := error;
      if error != 0 { uptodate := false; } else if !uptodate { report := -EIO; }
      done := done + [bio.(size := 0, sector := bio.sector + bio.size / 512, uptodate := uptodate)];
      if !flushSeq { ended := ended + [EndIo(bio.id, report)]; }
    }

    /**
      The loop of blk_update_request: finished bios leave the chain, and the position inside the next one is returned.
     */
    method ScanChain(error: int, n: nat) returns (total: nat, inHead: nat, next: nat, left: nat)
      requires AllWellFormed(bios) && bios != []
      modifies `bios, `done, `ended
      ensures var k := Finished(old(bios), n);
              && bios == old(bios)[k..]
              && done == old(done) + FinishAll(old(bios)[..k], error)
              && ended == (if flushSeq then old(ended) else old(ended) + Reports(old(bios)[..k], error))
      ensures bios == [] ==> Remaining(old(bios), n, error) == []
      ensures bios != [] ==> total == n && Stopped(old(bios), n, error, Finished(old(bios), n), next, inHead, left)
    {
      hide Remaining, Finished, AdvanceVecs, Reports, FinishAll, Scan, Stopped, AllWellFormed, TotalSize, Finish,
           EndError;
      ghost var all := bios;
      ghost var k := 0;
      total, inHead, next, left := 0, 0, 0, n;
      ScanStart(all, n, error);
      NothingYet(all, error);
      while bios != []
        invariant k <= |all| && bios == all[k..] && total + left == n
        invariant Scan(all, n, error, k, next, inHead, left)
        invariant bios != [] && left == 0 ==> inHead == 0
        invariant bios == [] ==> Finished(all, n) == k && Remaining(all, n, error) == []
        invariant done == old(done) + FinishAll(all[..k], error)
        invariant ended == if flushSeq then old(ended) else old(ended) + Reports(all[..k], error)
        decreases |bios|, if bios != [] then |bios[0].vecs| - next else 0
      {
        var bio := bios[0];
        if left >= bio.size {
          bios := bios[1..];
          EndBio(bio, error);
          ScanBio(all, n, error, k, next, inHead, left);
          ReportsAppend(all, k, error);
          total, left, next, inHead := total + bio.size, left - bio.size, 0, 0;
          k := k + 1;
          if bios != [] && left == 0 {
            StoppedFinished(all, n, error, k, next, inHead, left);
            break;
          }
        } else {
          var stop;
          stop, total, inHead, next, left := PassVector(bio, total, inHead, next, left, all, n, error, k);
          if stop { break; }
        }
      }
    }

    /** The branch of the loop that stays inside a bio: one vector is passed, or the bytes end. */
    static method PassVector(bio: Bio, total0: nat, inHead0: nat, next0: nat, left0: nat,
                             ghost all: seq<Bio>, ghost n: nat, ghost error: int, ghost k: nat)
      returns (stop: bool, total: nat, inHead: nat, next: nat, left: nat)
      requires AllWellFormed(all) && k < |all| && bio == all[k] && left0 < bio.size && total0 + left0 == n
      requires Scan(all, n, error, k, next0, inHead0, left0) && (left0 == 0 ==> inHead0 == 0)
      ensures stop ==> total == n && Finished(all, n) == k && Stopped(all, n, error, k, next, inHead, left)
      ensures !stop ==> total + left == n && left > 0 && next == next0 + 1 && Scan(all, n, error, k, next, inHead, left)
      ensures next0 < |bio.vecs|
    {
      hide Remaining, Finished, AdvanceVecs, Scan, Stopped;
      total, inHead, next, left := total0, inHead0, next0, left0;
      var idx := bio.idx + next;
      ScanVec(all, n, error, k, next, inHead, left);
      assert idx < |bio.vecs|;  // the "bio idx" branch is dead
      var len := bio.vecs[idx].len;
      assert len <= bio.size;
      if len > left || left == 0 {
        ScanInside(all, n, error, k, next, inHead, left);
        ScanStop(all, n, error, k, next, inHead, left);
        StoppedFinished(all, n, error, k, next, inHead + left, left);
      }
      if len > left {
        inHead, total := inHead + left, total + left;
        return true, total, inHead, next, left;
      }
      next, inHead, total, left := next + 1, inHead + len, total + len, left - len;
      stop := left == 0;
      if stop {
        if inHead > 0 {
          ScanInside(all, n, error, k, next, inHead, 0);
          ScanStop(all, n, error, k, next, inHead, 0);
          StoppedFinished(all, n, error, k, next, inHead, 0);
        } else {
          StoppedAnywhere(all, n, error, k, next - 1, next);
        }
      }
    }

    /** blk_update_request */
    method UpdateRequest(error: int, n: nat) returns (more: bool)
      requires ReqOk(Value())
      modifies this
      ensures (Value(), more) == Update(old(Value()), error, n)
    {
      hide Remaining, Finished, AdvanceVecs, Reports, FinishAll, TotalSize;
      if bios == [] { return false; }
      ghost var all := bios;
      var total, inHead, next, left := ScanChain(error, n);
      if bios == [] {
        dataLen := 0;
        return false;
      }
      StoppedLength(all, n, error, next, inHead, left);
      assert bios[0] == all[Finished(all, n)] && bios[1..] == all[Finished(all, n) + 1..];
      var bio := bios[0];
      if inHead != 0 {
        var v := bio.vecs[bio.idx + next];
        bio := Bio(bio.id, bio.vecs[bio.idx + next := Vec(v.page, v.offset + left, v.len - left)], bio.idx + next,
                   bio.size - inHead, bio.sector + inHead / 512, bio.uptodate && error == 0);
        bios := [bio] + bios[1..];
      }
      assert bios == Remaining(all, n, error);
      dataLen := dataLen - total;
      if fs { sector := sector + total / 512; }
      assert CurBytes(bios[0]) <= dataLen by {  // the "request botched" branch is dead
        CurrentFits(all, n, error);
      }
      return true;
    }
  }

  lemma StoppedFinished(bios: seq<Bio>, n: nat, error: int, k: nat, next: nat, inHead: nat, left: nat)
    requires Stopped(bios, n, error, k, next, inHead, left)
    ensures Finished(bios, n) == k
  {
  }

  lemma StoppedAnywhere(bios: seq<Bio>, n: nat, error: int, k: nat, next: nat, next': nat)
    requires Stopped(bios, n, error, k, next, 0, 0)
    ensures Stopped(bios, n, error, k, next', 0, 0)
  {
  }

  /** A chain that is not finished has not used up its bytes. */
  lemma StoppedLength(bios: seq<Bio>, n: nat, error: int, next: nat, inHead: nat, left: nat)
    requires AllWellFormed(bios) && Finished(bios, n) < |bios|
    requires Stopped(bios, n, error, Finished(bios, n), next, inHead, left)
    ensures n <= TotalSize(bios) && Remaining(bios, n, error) != []
    ensures Min(n, TotalSize(bios)) == n
  {
    NotFinished(bios, n);
  }

  lemma {:induction false} NotFinished(bios: seq<Bio>, n: nat)
    requires Finished(bios, n) < |bios|
    ensures n <= TotalSize(bios)
  {
    if bios != [] && n > bios[0].size {
      NotFinished(bios[1..], n - bios[0].size);
    }
  }

  lemma CurrentFits(bios: seq<Bio>, n: nat, error: int)
    requires AllWellFormed(bios) && Remaining(bios, n, error) != [] && n <= TotalSize(bios)
    ensures CurBytes(Remaining(bios, n, error)[0]) <= TotalSize(bios) - n
  {
    RemainingStream(bios, n, error);
    var b := Remaining(bios, n, error)[0];
    assert WellFormed(b);
    if b.idx < |b.vecs| { VecsLenStep(b.vecs, b.idx); }
  }

  lemma NothingYet(bios: seq<Bio>, error: int)
    ensures FinishAll(bios[..0], error) == [] && Reports(bios[..0], error) == []
  {
  }
}
