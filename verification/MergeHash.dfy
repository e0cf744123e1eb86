/**
  The merge hash of block/elevator.c and the merges of block/blk-core.c and block/blk-merge.c that move its keys.
  Requests are hashed by the sector behind their end, which changes with every back merge.
 */
module MergeHash {

  import opened Basics

  /** What bios and requests must have in common to be merged: direction, disk, REQ_DISCARD and REQ_SECURE. */
  datatype Kind = Kind(write: bool, disk: nat, discard: bool, secure: bool)

  /** A bio by its first sector, its number of sectors and its kind. */
  datatype Bio = Bio(sector: nat, sectors: nat, kind: Kind)

  /** __sector, __data_len in sectors, the bio chain, the kind, whether `special` is set, and rq_mergeable. */
  datatype Rq = Rq(pos: nat, sectors: nat, bios: seq<Bio>, kind: Kind, special: bool, mergeable: bool)

  /** rq_hash_key */
  function End(r: Rq): nat { r.pos + r.sectors }

  const BUCKETS := 64

  /** ELV_HASH_FN with the 32-bit hash_long of include/linux/hash.h */
  function Bucket(sector: nat): (b: nat)
    ensures b < BUCKETS
  {
    var hash := ((sector / 8) % 0x1_0000_0000) * 0x9e37_0001 % 0x1_0000_0000;
    hash / 0x400_0000
  }

  /** The bios follow each other from sector `from` up to sector `to`. */
  predicate Contiguous(bios: seq<Bio>, from: nat, to: nat) {
    if bios == [] then from == to else bios[0].sector == from && Contiguous(bios[1..], from + bios[0].sectors, to)
  }

  /** The bios of a request are contiguous and all of its kind. */
  predicate RqOk(r: Rq) {
    r.bios != [] && Contiguous(r.bios, r.pos, End(r)) && forall i | 0 <= i < |r.bios| :: r.bios[i].kind == r.kind
  }

  lemma {:induction false} ContiguousConcat(a: seq<Bio>, b: seq<Bio>, from: nat, mid: nat, to: nat)
    requires Contiguous(a, from, mid) && Contiguous(b, mid, to)
    ensures Contiguous(a + b, from, to)
    decreases |a|
  {
    if a == [] {
      assert a + b == b;
    } else {
      ContiguousConcat(a[1..], b, from + a[0].sectors, mid, to);
      assert (a + b)[1..] == a[1..] + b;
    }
  }

  // ---- merging requests as values ----

  /** bio_attempt_back_merge */
  function Appended(r: Rq, bio: Bio): Rq { r.(bios := r.bios + [bio], sectors := r.sectors + bio.sectors) }

  /** bio_attempt_front_merge */
  function Prepended(r: Rq, bio: Bio): Rq {
    r.(bios := [bio] + r.bios, pos := bio.sector, sectors := r.sectors + bio.sectors)
  }

  /** The chaining in attempt_merge */
  function Joined(r: Rq, next: Rq): Rq { r.(bios := r.bios + next.bios, sectors := r.sectors + next.sectors) }

  /** blk_rq_merge_ok, apart from integrity */
  predicate MayTake(r: Rq, bio: Bio) { r.mergeable && r.kind == bio.kind && !r.special }

  /** The tests of attempt_merge and ll_merge_requests_fn; `segments` stands for the segment test. */
  predicate CanJoin(max: nat, r: Rq, next: Rq, segments: bool) {
    && r.mergeable && next.mergeable && r.kind == next.kind && End(r) == next.pos && !r.special && !next.special
    && r.sectors + next.sectors <= max && segments
  }

  lemma AppendedOk(r: Rq, bio: Bio)
    requires RqOk(r) && End(r) == bio.sector && r.kind == bio.kind
    ensures RqOk(Appended(r, bio))
  {
    assert Contiguous([bio], bio.sector, bio.sector + bio.sectors);
    ContiguousConcat(r.bios, [bio], r.pos, End(r), End(r) + bio.sectors);
  }

  lemma PrependedOk(r: Rq, bio: Bio)
    requires RqOk(r) && bio.sector + bio.sectors == r.pos && r.kind == bio.kind
    ensures RqOk(Prepended(r, bio)) && End(Prepended(r, bio)) == End(r)
  {
    assert Contiguous([bio], bio.sector, r.pos);
    ContiguousConcat([bio], r.bios, bio.sector, r.pos, End(r));
  }

  lemma JoinedOk(r: Rq, next: Rq)
    requires RqOk(r) && RqOk(next) && End(r) == next.pos && r.kind == next.kind
    ensures RqOk(Joined(r, next)) && End(Joined(r, next)) == End(next)
  {
    ContiguousConcat(r.bios, next.bios, r.pos, End(r), End(next));
  }

  // ---- the hash ----

  /**
    Every hashed request is live and in the bucket of its current end, once; every live mergeable request is hashed.
    `moving` is exempt from the bucket rule while its end has changed and it has not been repositioned.
   */
  ghost predicate Coherent(rqs: map<nat, Rq>, hash: seq<seq<nat>>, moving: Option<nat>) {
    && |hash| == BUCKETS
    && (forall b | 0 <= b < BUCKETS :: NoDups(hash[b]))
    && (forall b, k | 0 <= b < BUCKETS && 0 <= k < |hash[b]| :: hash[b][k] in rqs)
    && (forall b, k | 0 <= b < BUCKETS && 0 <= k < |hash[b]| && Some(hash[b][k]) != moving ::
        Bucket(End(rqs[hash[b][k]])) == b)
    && (forall id | id in rqs && rqs[id].mergeable && Some(id) != moving :: id in hash[Bucket(End(rqs[id]))])
  }

  /** __elv_rqhash_del, wherever the request is hashed */
  function Unhash(hash: seq<seq<nat>>, id: nat): seq<seq<nat>> {
    seq(|hash|, b requires 0 <= b < |hash| => Without(hash[b], id))
  }

  lemma UnhashOk(rqs: map<nat, Rq>, hash: seq<seq<nat>>, moving: Option<nat>, id: nat)
    requires Coherent(rqs, hash, moving) && (moving == None || moving == Some(id))
    ensures Coherent(rqs, Unhash(hash, id), Some(id))
    ensures forall b, k | 0 <= b < BUCKETS && 0 <= k < |Unhash(hash, id)[b]| :: Unhash(hash, id)[b][k] != id
  {
    var hash' := Unhash(hash, id);
    forall b | 0 <= b < BUCKETS
      ensures NoDups(hash'[b]) && forall x: nat :: x in hash'[b] <==> x in hash[b] && x != id
    {
      WithoutNoDups(hash[b], id);
    }
    forall b, k | 0 <= b < BUCKETS && 0 <= k < |hash'[b]|
      ensures hash'[b][k] in rqs && hash'[b][k] != id && Bucket(End(rqs[hash'[b][k]])) == b
    {
      var x := hash'[b][k];
      assert x in hash'[b];
      var j :| 0 <= j < |hash[b]| && hash[b][j] == x;
    }
  }

  /** elv_rqhash_add at the head of the bucket of the current end */
  lemma HashAddOk(rqs: map<nat, Rq>, hash: seq<seq<nat>>, id: nat)
    requires Coherent(rqs, hash, Some(id)) && id in rqs
    requires forall b, k | 0 <= b < BUCKETS && 0 <= k < |hash[b]| :: hash[b][k] != id
    ensures var b := Bucket(End(rqs[id])); Coherent(rqs, hash[b := [id] + hash[b]], None)
  {
    var b := Bucket(End(rqs[id]));
    var hash' := hash[b := [id] + hash[b]];
    assert hash'[b][0] == id;
    forall x | x in rqs && rqs[x].mergeable ensures x in hash'[Bucket(End(rqs[x]))] {
      if x != id { assert x in hash[Bucket(End(rqs[x]))]; }
    }
  }

  /** A request that is in no bucket can leave, and one that is not mergeable need not be hashed. */
  lemma CoherentWithout(rqs: map<nat, Rq>, hash: seq<seq<nat>>, id: nat)
    requires Coherent(rqs, hash, Some(id))
    requires forall b, k | 0 <= b < BUCKETS && 0 <= k < |hash[b]| :: hash[b][k] != id
    ensures Coherent(rqs - {id}, hash, None)
  {
  }

  /** Taking a request that is not mergeable out of its bucket. */
  lemma DropOk(rqs: map<nat, Rq>, hash: seq<seq<nat>>, b: nat, k: nat)
    requires Coherent(rqs, hash, None) && b < BUCKETS && k < |hash[b]| && !rqs[hash[b][k]].mergeable
    ensures Coherent(rqs, hash[b := hash[b][..k] + hash[b][k + 1..]], None)
  {
    hide RqOk, Bucket;
    var ids := hash[b][..k] + hash[b][k + 1..];
    var hash' := hash[b := ids];
    assert forall x: nat | x in hash[b] && x != hash[b][k] :: x in ids by {
      assert hash[b] == hash[b][..k] + [hash[b][k]] + hash[b][k + 1..];
    }
    forall x | x in rqs && rqs[x].mergeable ensures x in hash'[Bucket(End(rqs[x]))] {
      assert x in hash[Bucket(End(rqs[x]))];
    }
  }

  /** A change of one request that keeps its end and can only make it less mergeable. */
  lemma SameEndOk(rqs: map<nat, Rq>, hash: seq<seq<nat>>, id: nat, r: Rq)
    requires Coherent(rqs, hash, None) && id in rqs && End(r) == End(rqs[id]) && (r.mergeable ==> rqs[id].mergeable)
    ensures Coherent(rqs[id := r], hash, None)
  {
  }

  /** A change of one request that moves its end leaves it to be repositioned. */
  lemma MovedEndOk(rqs: map<nat, Rq>, hash: seq<seq<nat>>, moving: Option<nat>, id: nat, r: Rq)
    requires Coherent(rqs, hash, moving) && id in rqs && (moving == None || moving == Some(id))
    ensures Coherent(rqs[id := r], hash, Some(id))
  {
  }

  /** Looking in one bucket finds a mergeable request with that end if and only if there is one at all. */
  lemma BucketSuffices(rqs: map<nat, Rq>, hash: seq<seq<nat>>, offset: nat)
    requires Coherent(rqs, hash, None)
    ensures (exists id :: id in rqs && rqs[id].mergeable && End(rqs[id]) == offset)
       <==> (exists k ::
               && 0 <= k < |hash[Bucket(offset)]| && rqs[hash[Bucket(offset)][k]].mergeable
               && End(rqs[hash[Bucket(offset)][k]]) == offset)
  {
    if id :| id in rqs && rqs[id].mergeable && End(rqs[id]) == offset {
      assert id in hash[Bucket(offset)];
      var k :| 0 <= k < |hash[Bucket(offset)]| && hash[Bucket(offset)][k] == id;
    }
  }

  datatype MergeKind = NoMerge | Back(id: nat) | Front(id: nat)

  /** What a successful back merge of a bio, and then perhaps of the next request, makes of the live requests. */
  ghost function BackMerged(max: nat, rqs: map<nat, Rq>, id: nat, bio: Bio, next: Option<nat>,
                            segments: bool): map<nat, Rq>
    requires id in rqs && (next.Some? ==> next.value in rqs)
  {
    var r := Appended(rqs[id], bio);
    if next.Some? && next.value != id && CanJoin(max, r, rqs[next.value], segments)
        then (rqs - {next.value})[id := Joined(r, rqs[next.value])]
    else rqs[id := r]
  }

  /** The same for a front merge, where the request before may take over the merged one. */
  ghost function FrontMerged(max: nat, rqs: map<nat, Rq>, id: nat, bio: Bio, prev: Option<nat>,
                             segments: bool): map<nat, Rq>
    requires id in rqs && (prev.Some? ==> prev.value in rqs)
  {
    var r := Prepended(rqs[id], bio);
    if prev.Some? && prev.value != id && CanJoin(max, rqs[prev.value], r, segments)
        then (rqs - {id})[prev.value := Joined(rqs[prev.value], r)]
    else rqs[id := r]
  }

  lemma AppendedHas(max: nat, rqs: map<nat, Rq>, id: nat, bio: Bio, next: Option<nat>, segments: bool)
    requires id in rqs && (next.Some? ==> next.value in rqs)
    ensures var rqs' := BackMerged(max, rqs, id, bio, next, segments); id in rqs' && bio in rqs'[id].bios
  {
    var bios := rqs[id].bios + [bio];
    assert bios[|rqs[id].bios|] == bio;
    if next.Some? { assert (bios + rqs[next.value].bios)[|rqs[id].bios|] == bio; }
  }

  lemma PrependedHas(max: nat, rqs: map<nat, Rq>, id: nat, bio: Bio, prev: Option<nat>, segments: bool)
    requires id in rqs && (prev.Some? ==> prev.value in rqs)
    ensures var rqs' := FrontMerged(max, rqs, id, bio, prev, segments);
            if id in rqs' then bio in rqs'[id].bios
            else prev.Some? && prev.value in rqs' && bio in rqs'[prev.value].bios
  {
    var bios := [bio] + rqs[id].bios;
    assert bios[0] == bio;
    if prev.Some? { assert (rqs[prev.value].bios + bios)[|rqs[prev.value].bios|] == bio; }
  }

  lemma MapSizes(rqs: map<nat, Rq>, id: nat, r: Rq)
    ensures |rqs[id := r]| == if id in rqs then |rqs| else |rqs| + 1
    ensures id in rqs ==> |rqs - {id}| == |rqs| - 1
  {
    assert rqs[id := r].Keys == rqs.Keys + {id};
    assert (rqs - {id}).Keys == rqs.Keys - {id};
  }

  /** The invariant, with the request whose end has changed and that is still to be repositioned. */
  ghost predicate Ok(rqs: map<nat, Rq>, hash: seq<seq<nat>>, lastMerge: Option<nat>, nrSorted: int,
                     moving: Option<nat>) {
    && Coherent(rqs, hash, moving)
    && (forall id | id in rqs :: RqOk(rqs[id]))
    && (lastMerge.Some? ==> lastMerge.value in rqs)
    && nrSorted == |rqs|
  }

  lemma MoveOk(rqs: map<nat, Rq>, hash: seq<seq<nat>>, lastMerge: Option<nat>, n: int, moving: Option<nat>, id: nat,
               r: Rq)
    requires Ok(rqs, hash, lastMerge, n, moving) && (moving == None || moving == Some(id)) && id in rqs && RqOk(r)
    ensures Ok(rqs[id := r], hash, lastMerge, n, Some(id)) && Ok(rqs[id := r], hash, Some(id), n, Some(id))
  {
    hide Coherent, RqOk;
    MovedEndOk(rqs, hash, moving, id, r);
    MapSizes(rqs, id, r);
  }

  lemma StayOk(rqs: map<nat, Rq>, hash: seq<seq<nat>>, lastMerge: Option<nat>, n: int, id: nat, r: Rq)
    requires Ok(rqs, hash, lastMerge, n, None) && id in rqs && RqOk(r) && End(r) == End(rqs[id])
             && (r.mergeable ==> rqs[id].mergeable)
    ensures Ok(rqs[id := r], hash, lastMerge, n, None) && Ok(rqs[id := r], hash, None, n, None)
            && Ok(rqs[id := r], hash, Some(id), n, None)
  {
    hide Coherent, RqOk;
    SameEndOk(rqs, hash, id, r);
    MapSizes(rqs, id, r);
  }

  lemma RefusedOk(r: Rq)
    requires RqOk(r)
    ensures RqOk(r.(mergeable := false)) && End(r.(mergeable := false)) == End(r)
  {
  }

  lemma OkRq(rqs: map<nat, Rq>, hash: seq<seq<nat>>, lastMerge: Option<nat>, n: int, moving: Option<nat>, id: nat)
    requires Ok(rqs, hash, lastMerge, n, moving) && id in rqs
    ensures RqOk(rqs[id]) && Ok(rqs, hash, Some(id), n, moving) && |hash| == BUCKETS
    ensures moving == None ==> Ok(rqs, hash, lastMerge, n, Some(id))
  {
    hide RqOk;
  }

  lemma LeaveOk(rqs: map<nat, Rq>, hash: seq<seq<nat>>, lastMerge: Option<nat>, n: int, id: nat)
    requires Ok(rqs, hash, lastMerge, n, None) && id in rqs && lastMerge != Some(id)
    ensures Ok(rqs - {id}, Unhash(hash, id), lastMerge, n - 1, None)
  {
    hide RqOk;
    UnhashOk(rqs, hash, None, id);
    CoherentWithout(rqs, Unhash(hash, id), id);
    MapSizes(rqs, id, rqs[id]);
    hide Coherent;
  }

  lemma RepositionOk(rqs: map<nat, Rq>, hash: seq<seq<nat>>, lastMerge: Option<nat>, n: int, id: nat)
    requires Ok(rqs, hash, lastMerge, n, Some(id)) && id in rqs
    ensures var hash', b := Unhash(hash, id), Bucket(End(rqs[id]));
            |hash'| == |hash| == BUCKETS && Ok(rqs, hash'[b := [id] + hash'[b]], lastMerge, n, None)
  {
    hide RqOk, Bucket;
    UnhashOk(rqs, hash, Some(id), id);
    HashAddOk(rqs, Unhash(hash, id), id);
  }

  lemma EnterOk(rqs: map<nat, Rq>, hash: seq<seq<nat>>, lastMerge: Option<nat>, n: int, id: nat, r: Rq)
    requires Ok(rqs, hash, lastMerge, n, None) && id !in rqs && RqOk(r)
    ensures |hash| == BUCKETS
    ensures !r.mergeable ==> Ok(rqs[id := r], hash, lastMerge, n + 1, None)
    ensures var b := Bucket(End(r)); Ok(rqs[id := r], hash[b := [id] + hash[b]], lastMerge, n + 1, None)
    ensures var b := Bucket(End(r)); Ok(rqs[id := r], hash[b := [id] + hash[b]], Some(id), n + 1, None)
  {
    hide RqOk, Bucket;
    MapSizes(rqs, id, r);
    HashAddOk(rqs[id := r], hash, id);
  }

  // ---- the bios of the live requests ----

  ghost function LiveBios(rqs: map<nat, Rq>): multiset<Bio>
    decreases |rqs|
  {
    if rqs == map[] then multiset{} else
      assert rqs.Keys != {} by { assert exists id :: id in rqs; }
      var id :| id in rqs;
      MapSizes(rqs, id, rqs[id]);
      multiset(rqs[id].bios) + LiveBios(rqs - {id})
  }

  /** It does not matter which request is counted first. */
  lemma {:induction false} LiveWithout(rqs: map<nat, Rq>, id: nat)
    requires id in rqs
    ensures LiveBios(rqs) == multiset(rqs[id].bios) + LiveBios(rqs - {id})
    decreases |rqs|
  {
    var x :| x in rqs && LiveBios(rqs) == multiset(rqs[x].bios) + LiveBios(rqs - {x});
    if x != id {
      MapSizes(rqs, x, rqs[x]);
      MapSizes(rqs, id, rqs[id]);
      LiveWithout(rqs - {x}, id);
      LiveWithout(rqs - {id}, x);
      assert rqs - {x} - {id} == rqs - {id} - {x};
    }
  }

  lemma LiveUpdate(rqs: map<nat, Rq>, id: nat, r: Rq)
    ensures LiveBios(rqs[id := r]) == LiveBios(rqs - {id}) + multiset(r.bios)
    ensures id !in rqs ==> rqs - {id} == rqs
  {
    hide LiveBios;
    LiveWithout(rqs[id := r], id);
    assert rqs[id := r] - {id} == rqs - {id};
  }

  lemma {:induction false} LiveSame(a: map<nat, Rq>, b: map<nat, Rq>)
    requires a.Keys == b.Keys && forall id | id in a :: a[id].bios == b[id].bios
    ensures LiveBios(a) == LiveBios(b)
    decreases |a|
  {
    if id :| id in a {
      LiveWithout(a, id);
      LiveWithout(b, id);
      MapSizes(a, id, a[id]);
      assert (a - {id}).Keys == (b - {id}).Keys;
      LiveSame(a - {id}, b - {id});
    } else {
      assert a == map[] && b == map[];
    }
  }

  lemma BiosConcat(a: seq<Bio>, b: seq<Bio>)
    ensures multiset(a + b) == multiset(a) + multiset(b)
  {
  }

  /** One request takes bios over from elsewhere. */
  lemma LiveGrows(rqs: map<nat, Rq>, id: nat, r: Rq, more: multiset<Bio>)
    requires id in rqs && multiset(r.bios) == multiset(rqs[id].bios) + more
    ensures LiveBios(rqs[id := r]) == LiveBios(rqs) + more
  {
    hide LiveBios;
    LiveUpdate(rqs, id, r);
    LiveWithout(rqs, id);
  }

  /** One request takes over those of another, which leaves. */
  lemma LiveJoined(rqs: map<nat, Rq>, id: nat, next: nat)
    requires id in rqs && next in rqs && id != next
    ensures LiveBios((rqs - {next})[id := Joined(rqs[id], rqs[next])]) == LiveBios(rqs)
  {
    hide LiveBios;
    LiveWithout(rqs, next);
    BiosConcat(rqs[id].bios, rqs[next].bios);
    LiveGrows(rqs - {next}, id, Joined(rqs[id], rqs[next]), multiset(rqs[next].bios));
  }

  lemma BackMergedBios(max: nat, rqs: map<nat, Rq>, id: nat, bio: Bio, next: Option<nat>, segments: bool)
    requires id in rqs && (next.Some? ==> next.value in rqs)
    ensures LiveBios(BackMerged(max, rqs, id, bio, next, segments)) == LiveBios(rqs) + multiset{bio}
  {
    hide CanJoin, LiveBios;
    var r := Appended(rqs[id], bio);
    BiosConcat(rqs[id].bios, [bio]);
    LiveGrows(rqs, id, r, multiset{bio});
    if next.Some? && next.value != id {
      LiveJoined(rqs[id := r], id, next.value);
      assert (rqs[id := r] - {next.value})[id := Joined(r, rqs[next.value])]
          == (rqs - {next.value})[id := Joined(r, rqs[next.value])];
    }
  }

  lemma FrontMergedBios(max: nat, rqs: map<nat, Rq>, id: nat, bio: Bio, prev: Option<nat>, segments: bool)
    requires id in rqs && (prev.Some? ==> prev.value in rqs)
    ensures LiveBios(FrontMerged(max, rqs, id, bio, prev, segments)) == LiveBios(rqs) + multiset{bio}
  {
    hide CanJoin, LiveBios;
    var r := Prepended(rqs[id], bio);
    BiosConcat([bio], rqs[id].bios);
    LiveGrows(rqs, id, r, multiset{bio});
    if prev.Some? && prev.value != id {
      LiveJoined(rqs[id := r], prev.value, id);
      assert (rqs[id := r] - {id})[prev.value := Joined(rqs[prev.value], r)]
          == (rqs - {id})[prev.value := Joined(rqs[prev.value], r)];
    }
  }

  /** The sorted requests of one elevator; `hash` and `lastMerge` as in the source. */
  class Elevator {
    const maxSectors: nat
    var rqs: map<nat, Rq>
    var hash: seq<seq<nat>>
    var lastMerge: Option<nat>
    var nrSorted: int

    ghost predicate ValidBut(moving: Option<nat>)
      reads this
    {
      Ok(rqs, hash, lastMerge, nrSorted, moving)
    }

    ghost predicate Valid()
      reads this
    {
      ValidBut(None)
    }

    constructor (maxSectors: nat)
      ensures Valid() && rqs == map[] && lastMerge == None && this.maxSectors == maxSectors
    {
      this.maxSectors := maxSectors;
      rqs, hash, lastMerge, nrSorted := map[], seq(BUCKETS, _ => []), None, 0;
    }

    /** elv_rqhash_reposition */
    method RqhashReposition(id: nat)
      requires ValidBut(Some(id)) && id in rqs
      modifies `hash
      ensures Valid()
    {
      hide Bucket, Ok;
      RepositionOk(rqs, hash, lastMerge, nrSorted, id);
      hash := Unhash(hash, id);
      var b := Bucket(End(rqs[id]));
      hash := hash[b := [id] + hash[b]];
    }

    /**
      elv_rqhash_find: entries that are no longer mergeable are thrown out on the way. The answer is the same as that
      of a scan of all live requests.
     */
    method RqhashFind(offset: nat) returns (found: Option<nat>)
      requires Valid()
      modifies `hash
      ensures Valid()
      ensures found.Some? ==> found.value in rqs && rqs[found.value].mergeable && End(rqs[found.value]) == offset
      ensures found.Some? <==> exists id :: id in rqs && rqs[id].mergeable && End(rqs[id]) == offset
    {
      hide Bucket, RqOk;
      var b := Bucket(offset);
      var k := 0;
      while k < |hash[b]|
        invariant Valid() && 0 <= k <= |hash[b]|
        invariant forall j | 0 <= j < k :: End(rqs[hash[b][j]]) != offset
        decreases |hash[b]| - k
      {
        var id := hash[b][k];
        if !rqs[id].mergeable {
          DropOk(rqs, hash, b, k);
          hash := hash[b := hash[b][..k] + hash[b][k + 1..]];
        } else if End(rqs[id]) == offset {
          return Some(id);
        } else {
          k := k + 1;
        }
      }
      BucketSuffices(rqs, hash, offset);
      return None;
    }

    /** elv_dispatch_add_tail, as far as the elevator goes: the request leaves it. */
    method DispatchAddTail(id: nat)
      requires Valid() && id in rqs
      modifies this
      ensures Valid() && rqs == old(rqs) - {id}
              && lastMerge == (if old(lastMerge) == Some(id) then None else old(lastMerge))
    {
      hide Coherent, RqOk;
      if lastMerge == Some(id) { lastMerge := None; }
      RemoveSorted(id);
    }

    /** A request leaves the hash and the live requests. */
    method RemoveSorted(id: nat)
      requires Valid() && id in rqs && lastMerge != Some(id)
      modifies `hash, `nrSorted, `rqs
      ensures Valid() && rqs == old(rqs) - {id}
    {
      hide Ok;
      LeaveOk(rqs, hash, lastMerge, nrSorted, id);
      hash := Unhash(hash, id);
      nrSorted := nrSorted - 1;
      rqs := rqs - {id};
    }

    /** The ELEVATOR_INSERT_SORT case of __elv_add_request */
    method InsertSort(id: nat, rq: Rq)
      requires Valid() && id !in rqs && RqOk(rq)
      modifies this
      ensures Valid() && rqs == old(rqs)[id := rq]
      ensures lastMerge == if rq.mergeable && old(lastMerge) == None then Some(id) else old(lastMerge)
    {
      hide Bucket, Ok;
      EnterOk(rqs, hash, lastMerge, nrSorted, id, rq);
      rqs, nrSorted := rqs[id := rq], nrSorted + 1;
      if rq.mergeable {
        var b := Bucket(End(rq));
        hash := hash[b := [id] + hash[b]];
        if lastMerge == None { lastMerge := Some(id); }
      }
    }

    /** attempt_merge with elv_merge_requests, for a `next` that is not in the elevator */
    method AttemptMergeNew(id: nat, next: Rq, segments: bool) returns (merged: bool)
      requires Valid() && id in rqs && RqOk(next)
      modifies this
      ensures Valid() && merged == CanJoin(maxSectors, old(rqs)[id], next, segments)
      ensures rqs == if merged then old(rqs)[id := Joined(old(rqs)[id], next)] else old(rqs)
      ensures lastMerge == if merged then Some(id) else old(lastMerge)
    {
      hide Bucket, Ok, RqOk;
      if !CanJoin(maxSectors, rqs[id], next, segments) { return false; }
      OkRq(rqs, hash, lastMerge, nrSorted, None, id);
      JoinedOk(rqs[id], next);
      MoveOk(rqs, hash, lastMerge, nrSorted, None, id, Joined(rqs[id], next));
      rqs := rqs[id := Joined(rqs[id], next)];
      lastMerge := Some(id);
      RqhashReposition(id);
      return true;
    }

    /** The same for two requests of the elevator: `next` leaves it. The end of `id` may already have moved. */
    method AttemptMerge(id: nat, next: nat, segments: bool) returns (merged: bool)
      requires ValidBut(Some(id)) && id in rqs && next in rqs && id != next
      modifies this
      ensures merged == CanJoin(maxSectors, old(rqs)[id], old(rqs)[next], segments)
      ensures merged ==>
                && Valid() && rqs == (old(rqs) - {next})[id := Joined(old(rqs)[id], old(rqs)[next])]
                && lastMerge == Some(id)
      ensures !merged ==> unchanged(this)
    {
      hide Bucket, Ok, RqOk;
      if !CanJoin(maxSectors, rqs[id], rqs[next], segments) { return false; }
      OkRq(rqs, hash, lastMerge, nrSorted, Some(id), id);
      OkRq(rqs, hash, lastMerge, nrSorted, Some(id), next);
      JoinedOk(rqs[id], rqs[next]);
      MoveOk(rqs, hash, lastMerge, nrSorted, Some(id), id, Joined(rqs[id], rqs[next]));
      rqs := rqs[id := Joined(rqs[id], rqs[next])];
      lastMerge := Some(id);
      RqhashReposition(id);
      RemoveSorted(next);
      return true;
    }

    /** A refused bio: REQ_NOMERGE is set and the one-hit cache forgets the request. */
    method RefuseMerge(id: nat)
      requires Valid() && id in rqs
      modifies this
      ensures Valid() && rqs == old(rqs)[id := old(rqs)[id].(mergeable := false)]
      ensures lastMerge == if old(lastMerge) == Some(id) then None else old(lastMerge)
    {
      hide Ok, RqOk;
      OkRq(rqs, hash, lastMerge, nrSorted, None, id);
      RefusedOk(rqs[id]);
      StayOk(rqs, hash, lastMerge, nrSorted, id, rqs[id].(mergeable := false));
      rqs := rqs[id := rqs[id].(mergeable := false)];
      if lastMerge == Some(id) { lastMerge := None; }
    }

    /**
      The back merge path of blk_queue_bio; `bioSegments` and `segments` are the segment tests, `next` is what
      elv_latter_request returns.
     */
    method BackMerge(id: nat, bio: Bio, bioSegments: bool, next: Option<nat>, segments: bool) returns (merged: bool)
      requires Valid() && id in rqs && MayTake(rqs[id], bio) && End(rqs[id]) == bio.sector
      requires next.Some? ==> next.value in rqs && next.value != id
      modifies this
      ensures Valid() && merged == (old(rqs)[id].sectors + bio.sectors <= maxSectors && bioSegments)
      ensures merged ==> rqs == BackMerged(maxSectors, old(rqs), id, bio, next, segments) && lastMerge == Some(id)
      ensures !merged ==> rqs == old(rqs)[id := old(rqs)[id].(mergeable := false)]
    {
      hide Bucket, Ok, RqOk;
      if rqs[id].sectors + bio.sectors > maxSectors || !bioSegments {
        RefuseMerge(id);
        return false;
      }
      OkRq(rqs, hash, lastMerge, nrSorted, None, id);
      AppendedOk(rqs[id], bio);
      MoveOk(rqs, hash, lastMerge, nrSorted, None, id, Appended(rqs[id], bio));
      rqs := rqs[id := Appended(rqs[id], bio)];
      var taken := false;
      if next.Some? { taken := AttemptMerge(id, next.value, segments); }
      if !taken {
        RqhashReposition(id);
        OkRq(rqs, hash, lastMerge, nrSorted, None, id);
        lastMerge := Some(id);
      }
      return true;
    }

    /** The front merge path of blk_queue_bio; `prev` is what elv_former_request returns. */
    method FrontMerge(id: nat, bio: Bio, bioSegments: bool, prev: Option<nat>, segments: bool) returns (merged: bool)
      requires Valid() && id in rqs && MayTake(rqs[id], bio) && bio.sector + bio.sectors == rqs[id].pos
      requires prev.Some? ==> prev.value in rqs && prev.value != id
      modifies this
      ensures Valid() && merged == (old(rqs)[id].sectors + bio.sectors <= maxSectors && bioSegments)
      ensures merged ==>
                && rqs == FrontMerged(maxSectors, old(rqs), id, bio, prev, segments)
                && lastMerge == (if id in rqs then Some(id) else prev)
      ensures !merged ==> rqs == old(rqs)[id := old(rqs)[id].(mergeable := false)]
    {
      hide Bucket, Ok, RqOk;
      if rqs[id].sectors + bio.sectors > maxSectors || !bioSegments {
        RefuseMerge(id);
        return false;
      }
      OkRq(rqs, hash, lastMerge, nrSorted, None, id);
      PrependedOk(rqs[id], bio);
      StayOk(rqs, hash, lastMerge, nrSorted, id, Prepended(rqs[id], bio));
      rqs := rqs[id := Prepended(rqs[id], bio)];
      var taken := false;
      if prev.Some? {
        OkRq(rqs, hash, lastMerge, nrSorted, None, prev.value);
        taken := AttemptMerge(prev.value, id, segments);
      }
      if !taken {
        OkRq(rqs, hash, lastMerge, nrSorted, None, id);
        lastMerge := Some(id);
      }
      return true;
    }

    /**
      elv_merge. `allowLast` and `allowFound` are the integrity test and the scheduler's elevator_allow_merge_fn, `hook`
      the answer of its own elevator_merge_fn. The lookup stops at the first mergeable request that ends where the bio
      starts, so no merge means that there is none or that one of another kind is in the way.
     */
    method ElvMerge(bio: Bio, noMerges: bool, noXMerges: bool, allowLast: bool, allowFound: bool, hook: Option<nat>)
      returns (kind: MergeKind)
      requires Valid()
      requires hook.Some? ==>
                 && hook.value in rqs && MayTake(rqs[hook.value], bio)
                 && rqs[hook.value].pos == bio.sector + bio.sectors
      modifies `hash
      ensures Valid()
      ensures kind.Back? ==> kind.id in rqs && MayTake(rqs[kind.id], bio) && End(rqs[kind.id]) == bio.sector
      ensures kind.Front? ==>
                && kind.id in rqs && MayTake(rqs[kind.id], bio)
                && bio.sector + bio.sectors == rqs[kind.id].pos
      ensures noMerges ==> kind == NoMerge
      ensures !noMerges && !noXMerges && allowFound && kind == NoMerge ==>
                || (forall id | id in rqs && rqs[id].mergeable :: End(rqs[id]) != bio.sector)
                || (exists id :: id in rqs && rqs[id].mergeable && End(rqs[id]) == bio.sector && !MayTake(rqs[id], bio))
    {
      hide Bucket, Coherent, RqOk;
      if noMerges { return NoMerge; }
      if lastMerge.Some? && MayTake(rqs[lastMerge.value], bio) && allowLast {
        var r := rqs[lastMerge.value];
        if End(r) == bio.sector { return Back(lastMerge.value); }
        if r.pos == bio.sector + bio.sectors { return Front(lastMerge.value); }
      }
      if noXMerges { return NoMerge; }
      var found := RqhashFind(bio.sector);
      if found.Some? && MayTake(rqs[found.value], bio) && allowFound { return Back(found.value); }
      if hook.Some? { return Front(hook.value); }
      return NoMerge;
    }

    /** elv_attempt_insert_merge for a new request */
    method AttemptInsertMerge(rq: Rq, noMerges: bool, noXMerges: bool, lastSegments: bool, foundSegments: bool)
      returns (merged: bool)
      requires Valid() && RqOk(rq)
      modifies this
      ensures Valid()
      ensures merged ==> exists id ::
              id in old(rqs) && CanJoin(maxSectors, old(rqs)[id], rq, true)
                  && rqs == old(rqs)[id := Joined(old(rqs)[id], rq)] && lastMerge == Some(id)
      ensures !merged ==> rqs == old(rqs) && lastMerge == old(lastMerge)
      ensures !merged && !noMerges && !noXMerges && foundSegments ==>
                || (forall id | id in rqs && rqs[id].mergeable :: End(rqs[id]) != rq.pos)
                || (exists id ::
                      && id in rqs && rqs[id].mergeable && End(rqs[id]) == rq.pos
                      && !CanJoin(maxSectors, rqs[id], rq, true))
    {
      hide Bucket, Coherent, RqOk;
      if noMerges { return false; }
      if lastMerge.Some? {
        merged := AttemptMergeNew(lastMerge.value, rq, lastSegments);
        if merged { return; }
      }
      if noXMerges { return false; }
      var found := RqhashFind(rq.pos);
      if found.Some? {
        merged := AttemptMergeNew(found.value, rq, foundSegments);
        return;
      }
      return false;
    }

    /** The merge part of blk_queue_bio: whether some request took the bio. No other bio comes or goes. */
    method MergeBio(bio: Bio, a: BioAnswers) returns (merged: bool)
      requires Valid() && AnswersOk(rqs, bio, a)
      modifies this
      ensures Valid() && rqs.Keys <= old(rqs).Keys
      ensures merged ==> exists id :: id in rqs && bio in rqs[id].bios
      ensures !merged ==> rqs.Keys == old(rqs).Keys && forall id | id in rqs :: rqs[id].bios == old(rqs)[id].bios
      ensures LiveBios(rqs) == LiveBios(old(rqs)) + (if merged then multiset{bio} else multiset{})
    {
      hide Ok, RqOk, LiveBios;
      var kind := ElvMerge(bio, a.noMerges, a.noXMerges, a.allowLast, a.allowFound, a.hook);
      match kind {
        case NoMerge => merged := false;
        case Back(id) =>
          var next := if a.near != Some(id) then a.near else None;
          merged := BackMerge(id, bio, a.bioSegments, next, a.segments);
          BackMergedBios(maxSectors, old(rqs), id, bio, next, a.segments);
          if merged {
            assert id in rqs && bio in rqs[id].bios by {
              AppendedHas(maxSectors, old(rqs), id, bio, next, a.segments);
            }
          }
        case Front(id) =>
          var prev := if a.near != Some(id) then a.near else None;
          merged := FrontMerge(id, bio, a.bioSegments, prev, a.segments);
          FrontMergedBios(maxSectors, old(rqs), id, bio, prev, a.segments);
          if merged {
            ghost var x := if id in rqs then id else prev.value;
            assert x in rqs && bio in rqs[x].bios by {
              PrependedHas(maxSectors, old(rqs), id, bio, prev, a.segments);
            }
          }
      }
      if !merged { LiveSame(rqs, old(rqs)); }
    }

    /** The ELEVATOR_INSERT_SORT_MERGE case of __elv_add_request */
    method InsertSortMerge(id: nat, rq: Rq, noMerges: bool, noXMerges: bool, lastSegments: bool, foundSegments: bool)
      requires Valid() && id !in rqs && RqOk(rq)
      modifies this
      ensures Valid() && rqs.Keys <= old(rqs).Keys + {id}
      ensures || rqs == old(rqs)[id := rq]
              || exists x :: x in old(rqs) && CanJoin(maxSectors, old(rqs)[x], rq, true)
                  && rqs == old(rqs)[x := Joined(old(rqs)[x], rq)]
      ensures LiveBios(rqs) == LiveBios(old(rqs)) + multiset(rq.bios)
    {
      hide Ok, RqOk, LiveBios;
      var merged := AttemptInsertMerge(rq, noMerges, noXMerges, lastSegments, foundSegments);
      if merged {
        ghost var x :| x in old(rqs) && CanJoin(maxSectors, old(rqs)[x], rq, true)
            && rqs == old(rqs)[x := Joined(old(rqs)[x], rq)];
        BiosConcat(old(rqs)[x].bios, rq.bios);
        LiveGrows(old(rqs), x, Joined(old(rqs)[x], rq), multiset(rq.bios));
      } else {
        LiveUpdate(rqs, id, rq);
        InsertSort(id, rq);
      }
    }

    /**
      One operation: whether it took effect, and the request that left. One that names others than the live is skipped.
     */
    method Try(op: Op) returns (done: bool, ghost left: seq<Rq>)
      requires Valid()
      modifies this
      ensures Valid() && |left| == if op.Dispatch? && done then 1 else 0
      ensures rqs.Keys <= old(rqs).Keys + NewId(op)
      ensures NewId(op) != {} && RqOk(op.rq) && op.id !in old(rqs) ==> done
      ensures LiveBios(rqs) + GoneBios(left) == LiveBios(old(rqs)) + (if done then BiosOf(op) else multiset{})
    {
      hide Ok, RqOk, AnswersOk, LiveBios, GoneBios;
      left := [];
      GoneStep([], []);
      if !Enabled(rqs, op) { return false, []; }
      done := true;
      match op {
        case Insert(id, rq) =>
          LiveUpdate(rqs, id, rq);
          InsertSort(id, rq);
        case InsertMerge(id, rq, noMerges, noXMerges, lastSegments, foundSegments) =>
          InsertSortMerge(id, rq, noMerges, noXMerges, lastSegments, foundSegments);
        case Submit(bio, a) =>
          done := MergeBio(bio, a);
        case Dispatch(id) =>
          left := [rqs[id]];
          GoneStep([], left);
          LiveWithout(rqs, id);
          DispatchAddTail(id);
      }
    }
  }

  // ---- any sequence of operations ----

  /**
    What is decided outside the elevator core while a bio is merged; `near` is the neighbour in the scheduler's order.
   */
  datatype BioAnswers = BioAnswers(
    noMerges: bool, noXMerges: bool, allowLast: bool, allowFound: bool, hook: Option<nat>,
    bioSegments: bool, near: Option<nat>, segments: bool)

  /** The scheduler only names its own requests. */
  predicate AnswersOk(rqs: map<nat, Rq>, bio: Bio, a: BioAnswers) {
    && (a.near.Some? ==> a.near.value in rqs)
    && (a.hook.Some? ==>
          && a.hook.value in rqs && MayTake(rqs[a.hook.value], bio)
          && rqs[a.hook.value].pos == bio.sector + bio.sectors)
  }

  datatype Op =
    | Insert(id: nat, rq: Rq)
    | InsertMerge(id: nat, rq: Rq, noMerges: bool, noXMerges: bool, lastSegments: bool, foundSegments: bool)
    | Submit(bio: Bio, answers: BioAnswers)
    | Dispatch(id: nat)

  predicate Enabled(rqs: map<nat, Rq>, op: Op) {
    match op
    case Insert(id, rq) => id !in rqs && RqOk(rq)
    case InsertMerge(id, rq, _, _, _, _) => id !in rqs && RqOk(rq)
    case Submit(bio, a) => AnswersOk(rqs, bio, a)
    case Dispatch(id) => id in rqs
  }

  /** The bios that the operations marked in `done` brought in. */
  ghost function Brought(ops: seq<Op>, done: seq<bool>): multiset<Bio>
    requires |done| == |ops|
  {
    if ops == [] then multiset{} else
      var n := |ops| - 1;
      Brought(ops[..n], done[..n]) + (if done[n] then BiosOf(ops[n]) else multiset{})
  }

  /** How many of them were dispatches. */
  ghost function Dispatches(ops: seq<Op>, done: seq<bool>): nat
    requires |done| == |ops|
  {
    if ops == [] then 0 else
      var n := |ops| - 1;
      Dispatches(ops[..n], done[..n]) + (if ops[n].Dispatch? && done[n] then 1 else 0)
  }

  ghost function BiosOf(op: Op): multiset<Bio> {
    match op
    case Insert(_, rq) => multiset(rq.bios)
    case InsertMerge(_, rq, _, _, _, _) => multiset(rq.bios)
    case Submit(bio, _) => multiset{bio}
    case Dispatch(_) => multiset{}
  }

  /** The bios of requests that left the elevator. */
  ghost function GoneBios(gone: seq<Rq>): multiset<Bio> {
    if gone == [] then multiset{} else GoneBios(gone[..|gone| - 1]) + multiset(gone[|gone| - 1].bios)
  }

  /** The number under which an operation would add a request. */
  ghost function NewId(op: Op): set<nat> {
    if op.Insert? || op.InsertMerge? then {op.id} else {}
  }

  ghost function NewIds(ops: seq<Op>): set<nat> {
    if ops == [] then {} else NewIds(ops[..|ops| - 1]) + NewId(ops[|ops| - 1])
  }

  /** A well-formed request under a number that no operation before it has used. */
  ghost predicate Fresh(ops: seq<Op>, i: nat)
    requires i < |ops|
  {
    NewId(ops[i]) != {} && RqOk(ops[i].rq) && ops[i].id !in NewIds(ops[..i])
  }

  lemma BroughtStep(ops: seq<Op>, i: nat, done: seq<bool>, d: bool)
    requires i < |ops| && |done| == i
    ensures Brought(ops[..i + 1], done + [d]) == Brought(ops[..i], done) + (if d then BiosOf(ops[i]) else multiset{})
    ensures NewIds(ops[..i + 1]) == NewIds(ops[..i]) + NewId(ops[i])
    ensures Dispatches(ops[..i + 1], done + [d])
            == Dispatches(ops[..i], done) + (if ops[i].Dispatch? && d then 1 else 0)
  {
    assert ops[..i + 1][..i] == ops[..i] && (done + [d])[..i] == done;
  }

  lemma GoneStep(gone: seq<Rq>, left: seq<Rq>)
    requires |left| <= 1
    ensures GoneBios(left) == if left == [] then multiset{} else multiset(left[0].bios)
    ensures GoneBios(gone + left) == GoneBios(gone) + GoneBios(left)
  {
    if left == [] {
      assert gone + left == gone;
    } else {
      assert left[..0] == [] && (gone + left)[..|gone|] == gone;
    }
  }

  lemma Balance(live: multiset<Bio>, live': multiset<Bio>, gone: multiset<Bio>, left: multiset<Bio>,
                brought: multiset<Bio>, more: multiset<Bio>)
    requires live + gone == brought && live' + left == live + more
    ensures live' + (gone + left) == brought + more
  {
    calc {
      live' + (gone + left);
      (live' + left) + gone;
      (live + gone) + more;
    }
  }

  lemma NothingBrought(ops: seq<Op>)
    ensures Brought(ops[..0], []) == GoneBios([]) == LiveBios(map[]) == multiset{} && Dispatches(ops[..0], []) == 0
  {
  }

  /**
    Any run of inserts, merges and dispatches, whatever is decided outside; a step that names requests which are not
    there is skipped. `done` says which operations took effect, and `gone` which requests were dispatched. No bio is
    lost or doubled: the live and the dispatched requests carry exactly those that were brought in.
   */
  method RunOps(maxSectors: nat, ops: seq<Op>) returns (e: Elevator, ghost done: seq<bool>, ghost gone: seq<Rq>)
    ensures fresh(e) && e.Valid() && |done| == |ops|
    ensures LiveBios(e.rqs) + GoneBios(gone) == Brought(ops, done)
    ensures forall i | 0 <= i < |ops| && Fresh(ops, i) :: done[i]
    ensures |gone| == Dispatches(ops, done)
  {
    hide Ok, RqOk, LiveBios, GoneBios, Brought, NewIds, NewId, BiosOf, Dispatches;
    e := new Elevator(maxSectors);
    done, gone := [], [];
    NothingBrought(ops);
    for i := 0 to |ops|
      invariant fresh(e) && e.Valid() && |done| == i
      invariant LiveBios(e.rqs) + GoneBios(gone) == Brought(ops[..i], done)
      invariant e.rqs.Keys <= NewIds(ops[..i])
      invariant forall j | 0 <= j < i && Fresh(ops, j) :: done[j]
      invariant |gone| == Dispatches(ops[..i], done)
    {
      ghost var before := e.rqs;
      var d;
      ghost var left;
      d, left := e.Try(ops[i]);
      GoneStep(gone, left);
      BroughtStep(ops, i, done, d);
      Balance(LiveBios(before), LiveBios(e.rqs), GoneBios(gone), GoneBios(left), Brought(ops[..i], done),
              if d then BiosOf(ops[i]) else multiset{});
      gone := gone + left;
      done := done + [d];
    }
    assert ops[..|ops|] == ops;
  }

  /**
    A lookup after any such run finds a mergeable request ending at the offset if and only if a scan of all live
    requests would.
   */
  method RunAndFind(maxSectors: nat, ops: seq<Op>, offset: nat)
    returns (e: Elevator, found: Option<nat>, ghost done: seq<bool>, ghost gone: seq<Rq>)
    ensures fresh(e) && e.Valid() && |done| == |ops|
    ensures LiveBios(e.rqs) + GoneBios(gone) == Brought(ops, done)
    ensures forall i | 0 <= i < |ops| && Fresh(ops, i) :: done[i]
    ensures |gone| == Dispatches(ops, done)
    ensures found.Some? ==> found.value in e.rqs && e.rqs[found.value].mergeable && End(e.rqs[found.value]) == offset
    ensures found.Some? <==> exists id :: id in e.rqs && e.rqs[id].mergeable && End(e.rqs[id]) == offset
  {
    hide Ok, RqOk, LiveBios, GoneBios, Brought, NewIds, BiosOf, Dispatches;
    e, done, gone := RunOps(maxSectors, ops);
    found := e.RqhashFind(offset);
  }
}
