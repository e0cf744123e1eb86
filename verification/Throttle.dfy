/**
  The token arithmetic of block/blk-throttle.c for one group and one direction: slices that
  are opened, extended, trimmed and renewed, the byte and request limits tested against them,
  and the bound on everything ever charged.

  Time is counted in jiffies, never decreases and does not wrap.
 */
module Throttle {
  import opened Basics

  const UINT_MAX: nat := 0xFFFF_FFFF
  const BPS_UNLIMITED: nat := 0xFFFF_FFFF_FFFF_FFFF
  const IOPS_UNLIMITED: nat := 0xFFFF_FFFF

  /** Jiffies per second and the two rates of one direction. */
  datatype Limits = Limits(hz: nat, bps: nat, iops: nat) {
    /** A rule of zero is never installed, and a slice is at least one jiffy long. */
    ghost predicate Valid() {
      hz >= 10 && bps > 0 && iops > 0
    }

    /** throtl_slice */
    function Window(): (w: nat)
      ensures hz >= 10 ==> w > 0
    {
      hz / 10
    }

    /** tg_no_rule_group */
    predicate NoRule() {
      bps == BPS_UNLIMITED && iops == IOPS_UNLIMITED
    }
  }

  datatype Slice = Slice(bytesDisp: nat, ioDisp: nat, start: nat, end: nat)

  function RoundUp(x: nat, y: nat): nat
    requires y > 0
  {
    (x + (y - 1)) / y * y
  }

  /** What a rate per second allows over `span` jiffies, in whole units. */
  function Quota(rate: nat, span: nat, hz: nat): nat
    requires hz > 0
  {
    rate * span / hz
  }

  // ---- slice operations ----

  function StartNewSlice(lim: Limits, now: nat): Slice {
    Slice(0, 0, now, now + lim.Window())
  }

  function SetSliceEnd(lim: Limits, s: Slice, end: nat): Slice
    requires lim.Valid()
  {
    s.(end := RoundUp(end, lim.Window()))
  }

  predicate SliceUsed(s: Slice, now: nat) {
    !(s.start <= now <= s.end)
  }

  function Drop(disp: nat, trim: nat): nat {
    if disp >= trim then disp - trim else 0
  }

  /** throtl_trim_slice */
  function TrimSlice(lim: Limits, s: Slice, now: nat): Slice
    requires lim.Valid()
  {
    if SliceUsed(s, now) then s else
      var s1 := SetSliceEnd(lim, s, now + lim.Window());
      var nrSlices := (now - s.start) / lim.Window();
      if nrSlices == 0 then s1 else
        var bytesTrim := Quota(lim.bps, lim.Window() * nrSlices, lim.hz);
        var ioTrim := Quota(lim.iops, lim.Window() * nrSlices, lim.hz);
        if bytesTrim == 0 && ioTrim == 0 then s1 else
          Slice(Drop(s.bytesDisp, bytesTrim), Drop(s.ioDisp, ioTrim), s.start + lim.Window() * nrSlices, s1.end)
  }

  function Charge(s: Slice, size: nat): Slice {
    s.(bytesDisp := s.bytesDisp + size, ioDisp := s.ioDisp + 1)
  }

  // ---- limit checks ----

  /** The elapsed time rounded up to whole windows, at least one. */
  function ElapsedRounded(lim: Limits, s: Slice, now: nat): nat
    requires lim.Valid() && s.start <= now
  {
    var elapsed := now - s.start;
    RoundUp(if elapsed == 0 then lim.Window() else elapsed, lim.Window())
  }

  function BytesAllowed(lim: Limits, s: Slice, now: nat): nat
    requires lim.Valid() && s.start <= now
  {
    Quota(lim.bps, ElapsedRounded(lim, s, now), lim.hz)
  }

  function IosAllowed(lim: Limits, s: Slice, now: nat): nat
    requires lim.Valid() && s.start <= now
  {
    Min(Quota(lim.iops, ElapsedRounded(lim, s, now), lim.hz), UINT_MAX)
  }

  /** Outcome of a check: allowed at once, or the jiffies to wait. */
  datatype Verdict = Pass | Wait(jiffies: nat)

  /** The jiffies that the bytes over the allowance take. */
  function ExcessTime(lim: Limits, s: Slice, now: nat, size: nat): nat
    requires lim.Valid() && s.start <= now && s.bytesDisp + size > BytesAllowed(lim, s, now)
  {
    var extra := s.bytesDisp + size - BytesAllowed(lim, s, now);
    extra * lim.hz / lim.bps
  }

  /** tg_with_in_bps_limit */
  function WithinBps(lim: Limits, s: Slice, now: nat, size: nat): Verdict
    requires lim.Valid() && s.start <= now
  {
    if s.bytesDisp + size <= BytesAllowed(lim, s, now) then Pass else
      var wait := Max(ExcessTime(lim, s, now, size), 1);
      assert ElapsedRounded(lim, s, now) >= now - s.start by { RoundUpBounds(now - s.start, lim.Window()); }
      Wait(wait + (ElapsedRounded(lim, s, now) - (now - s.start)))
  }

  /** tg_with_in_iops_limit */
  function WithinIops(lim: Limits, s: Slice, now: nat): Verdict
    requires lim.Valid() && s.start <= now
  {
    if s.ioDisp + 1 <= IosAllowed(lim, s, now) then Pass else
      var total := (s.ioDisp + 1) * lim.hz / lim.iops + 1;
      Wait(if total > now - s.start then total - (now - s.start) else 1)
  }

  /** The slice tg_may_dispatch tests: renewed if used up, otherwise reaching at least one window ahead. */
  function OpenSlice(lim: Limits, s: Slice, now: nat): (r: Slice)
    requires lim.Valid()
    ensures r.start <= now && now + lim.Window() <= r.end
  {
    RoundUpBounds(now + lim.Window(), lim.Window());
    if SliceUsed(s, now) then StartNewSlice(lim, now)
    else if s.end < now + lim.Window() then SetSliceEnd(lim, s, now + lim.Window())
    else s
  }

  /** The two checks in order; the request check is skipped when the byte check fails. */
  function Checks(lim: Limits, s: Slice, now: nat, size: nat): Verdict
    requires lim.Valid() && s.start <= now
  {
    var b := WithinBps(lim, s, now, size);
    if b.Wait? then b else WithinIops(lim, s, now)
  }

  /** tg_may_dispatch: the slice it leaves and its verdict. */
  function MayDispatch(lim: Limits, s: Slice, now: nat, size: nat): (r: (Slice, Verdict))
    requires lim.Valid()
  {
    if lim.NoRule() then (s, Pass) else
      var s1 := OpenSlice(lim, s, now);
      match Checks(lim, s1, now, size)
      case Pass => (s1, Pass)
      case Wait(w) => (if s1.end < now + w then SetSliceEnd(lim, s1, now + w) else s1, Wait(w))
  }

  /** Everything that happens to a slice when a bio is let through: test, charge, trim. */
  function Dispatch(lim: Limits, s: Slice, now: nat, size: nat): Slice
    requires lim.Valid()
  {
    TrimSlice(lim, Charge(MayDispatch(lim, s, now, size).0, size), now)
  }

  // ---- arithmetic ----

  lemma RoundUpBounds(x: nat, y: nat)
    requires y > 0
    ensures x <= RoundUp(x, y) <= x + y - 1
  {
    var q := (x + (y - 1)) / y;
    DivBounds(x + (y - 1), y);
    assert q * y == y * q;
  }

  lemma DivBounds(x: nat, y: nat)
    requires y > 0
    ensures x / y * y <= x < x / y * y + y
  {
    assert x == y * (x / y) + x % y;
  }

  lemma MulMono(a: nat, b: nat, c: nat)
    requires a <= b
    ensures c * a <= c * b
  {
  }

  lemma DivAtLeast(x: nat, y: nat, q: nat)
    requires y > 0 && q * y <= x
    ensures q <= x / y
  {
    DivBounds(x, y);
    if q > x / y {
      MulMono(x / y + 1, q, y);
    }
  }

  lemma ElapsedRoundedBounds(lim: Limits, s: Slice, now: nat)
    requires lim.Valid() && s.start <= now
    ensures now <= s.start + ElapsedRounded(lim, s, now) <= now + lim.Window()
    ensures lim.Window() <= ElapsedRounded(lim, s, now)
  {
    var w, elapsed := lim.Window(), now - s.start;
    if elapsed == 0 {
      RoundUpExact(w);
    } else {
      RoundUpBounds(elapsed, w);
      DivAtLeast(elapsed + (w - 1), w, 1);
      MulMono(1, (elapsed + (w - 1)) / w, w);
    }
  }

  lemma RoundUpExact(w: nat)
    requires w > 0
    ensures RoundUp(w, w) == w
  {
    assert (w + (w - 1)) / w == 1;
  }

  // ---- the rate bound ----

  /** What has been charged to one direction since time `since`. */
  datatype Account = Account(since: nat, bytes: nat, ios: nat)

  /**
    For a rate r: what the slice has forgotten is paid for by the time before the slice started,
    and everything charged is paid for by the time up to the end of the slice.
   */
  ghost predicate Paid(hz: nat, r: nat, disp: nat, total: nat, start: nat, end: nat, since: nat) {
    && disp <= total && since <= start <= end
    && (total - disp) * hz <= r * (start - since)
    && total * hz <= r * (end - since)
  }

  /** No more than the rate over the elapsed time plus one window. */
  ghost predicate Within(hz: nat, r: nat, total: nat, since: nat, now: nat, window: nat) {
    since <= now && total * hz <= r * (now - since + window)
  }

  /** A direction is either untouched since `since`, or both rates are paid for. */
  ghost predicate RateInv(lim: Limits, s: Slice, a: Account, now: nat) {
    && lim.Valid()
    && s.start <= s.end && s.start <= now && a.since <= now
    && Within(lim.hz, lim.bps, a.bytes, a.since, now, lim.Window())
    && Within(lim.hz, lim.iops, a.ios, a.since, now, lim.Window())
    && ((a.bytes == 0 && a.ios == 0 && s.end < a.since)
        || (&& Paid(lim.hz, lim.bps, s.bytesDisp, a.bytes, s.start, s.end, a.since)
            && Paid(lim.hz, lim.iops, s.ioDisp, a.ios, s.start, s.end, a.since)))
  }

  lemma PaidNothing(hz: nat, r: nat, start: nat, end: nat, since: nat)
    requires since <= start <= end
    ensures Paid(hz, r, 0, 0, start, end, since)
  {
  }

  lemma PaidNew(hz: nat, r: nat, disp: nat, total: nat, start: nat, end: nat, since: nat, now: nat, window: nat)
    requires Paid(hz, r, disp, total, start, end, since) && end < now
    ensures Paid(hz, r, 0, total, now, now + window, since)
  {
    MulMono(end - since, now - since, r);
    MulMono(end - since, now + window - since, r);
  }

  lemma PaidExtend(hz: nat, r: nat, disp: nat, total: nat, start: nat, end: nat, since: nat, end': nat)
    requires Paid(hz, r, disp, total, start, end, since) && end <= end'
    ensures Paid(hz, r, disp, total, start, end', since)
  {
    MulMono(end - since, end' - since, r);
  }

  /** Charging within the allowance of a slice that reaches a window ahead. */
  lemma PaidCharge(hz: nat, r: nat, disp: nat, total: nat, start: nat, end: nat, since: nat, x: nat, rounded: nat,
                   now: nat, window: nat)
    requires hz > 0 && disp <= total && since <= start <= end && (total - disp) * hz <= r * (start - since)
    requires disp + x <= Quota(r, rounded, hz)
    requires start <= now && start + rounded <= now + window <= end
    ensures Paid(hz, r, disp + x, total + x, start, end, since)
    ensures Within(hz, r, total + x, since, now, window)
  {
    DivBounds(r * rounded, hz);
    MulMono(disp + x, r * rounded / hz, hz);
    assert (total + x) * hz == (total - disp) * hz + (disp + x) * hz;
    assert r * (start - since) + r * rounded == r * (start + rounded - since);
    MulMono(start + rounded - since, now + window - since, r);
    MulMono(start + rounded - since, end - since, r);
  }

  /** Trimming forgets no more than the trimmed windows allow. */
  lemma PaidTrim(hz: nat, r: nat, disp: nat, total: nat, start: nat, end: nat, since: nat, span: nat, now: nat,
                 window: nat, end': nat)
    requires hz > 0 && Paid(hz, r, disp, total, start, end, since) && Within(hz, r, total, since, now, window)
    requires start + span <= now && now + window <= end'
    ensures Paid(hz, r, Drop(disp, Quota(r, span, hz)), total, start + span, end', since)
  {
    var trim := Quota(r, span, hz);
    DivBounds(r * span, hz);
    var gone := disp - Drop(disp, trim);
    assert gone <= trim;
    MulMono(gone, trim, hz);
    assert (total - Drop(disp, trim)) * hz == (total - disp) * hz + gone * hz;
    assert r * (start - since) + r * span == r * (start + span - since);
    MulMono(now - since + window, end' - since, r);
  }

  lemma WithinLater(hz: nat, r: nat, total: nat, since: nat, now: nat, later: nat, window: nat)
    requires Within(hz, r, total, since, now, window) && now <= later
    ensures Within(hz, r, total, since, later, window)
  {
    MulMono(now - since + window, later - since + window, r);
  }

  /** The invariant survives the passing of time. */
  lemma RateInvLater(lim: Limits, s: Slice, a: Account, now: nat, later: nat)
    requires RateInv(lim, s, a, now) && now <= later
    ensures RateInv(lim, s, a, later)
  {
    WithinLater(lim.hz, lim.bps, a.bytes, a.since, now, later, lim.Window());
    WithinLater(lim.hz, lim.iops, a.ios, a.since, now, later, lim.Window());
  }

  /** Opening a slice keeps the invariant and leaves the untouched state behind. */
  lemma OpenSlicePaid(lim: Limits, s: Slice, a: Account, now: nat)
    requires RateInv(lim, s, a, now)
    ensures var s1 := OpenSlice(lim, s, now);
            && Paid(lim.hz, lim.bps, s1.bytesDisp, a.bytes, s1.start, s1.end, a.since)
            && Paid(lim.hz, lim.iops, s1.ioDisp, a.ios, s1.start, s1.end, a.since)
  {
    hide RoundUp, Paid, Within;
    var w := lim.Window();
    if SliceUsed(s, now) {
      if a.bytes == 0 && a.ios == 0 && s.end < a.since {
        PaidNothing(lim.hz, lim.bps, now, now + w, a.since);
        PaidNothing(lim.hz, lim.iops, now, now + w, a.since);
      } else {
        PaidNew(lim.hz, lim.bps, s.bytesDisp, a.bytes, s.start, s.end, a.since, now, w);
        PaidNew(lim.hz, lim.iops, s.ioDisp, a.ios, s.start, s.end, a.since, now, w);
      }
    } else if s.end < now + w {
      RoundUpBounds(now + w, w);
      PaidExtend(lim.hz, lim.bps, s.bytesDisp, a.bytes, s.start, s.end, a.since, RoundUp(now + w, w));
      PaidExtend(lim.hz, lim.iops, s.ioDisp, a.ios, s.start, s.end, a.since, RoundUp(now + w, w));
    }
  }

  /** A refused bio changes nothing that matters for the rate. */
  lemma RefusalKeepsRate(lim: Limits, s: Slice, a: Account, now: nat, size: nat)
    requires RateInv(lim, s, a, now) && !lim.NoRule()
    ensures RateInv(lim, MayDispatch(lim, s, now, size).0, a, now)
  {
    OpenSlicePaid(lim, s, a, now);
    var s1 := OpenSlice(lim, s, now);
    match Checks(lim, s1, now, size)
    case Pass =>
    case Wait(w) =>
      if s1.end < now + w {
        RoundUpBounds(now + w, lim.Window());
        PaidExtend(lim.hz, lim.bps, s1.bytesDisp, a.bytes, s1.start, s1.end, a.since, RoundUp(now + w, lim.Window()));
        PaidExtend(lim.hz, lim.iops, s1.ioDisp, a.ios, s1.start, s1.end, a.since, RoundUp(now + w, lim.Window()));
      }
  }

  function ChargeAccount(a: Account, size: nat): Account {
    a.(bytes := a.bytes + size, ios := a.ios + 1)
  }

  lemma ChargeKeepsRate(lim: Limits, s: Slice, a: Account, now: nat, size: nat)
    requires RateInv(lim, s, a, now) && !lim.NoRule()
    requires MayDispatch(lim, s, now, size).1 == Pass
    ensures var s1 := Charge(MayDispatch(lim, s, now, size).0, size);
            && RateInv(lim, s1, ChargeAccount(a, size), now) && s1.start <= now && now + lim.Window() <= s1.end
            && Paid(lim.hz, lim.bps, s1.bytesDisp, a.bytes + size, s1.start, s1.end, a.since)
            && Paid(lim.hz, lim.iops, s1.ioDisp, a.ios + 1, s1.start, s1.end, a.since)
  {
    OpenSlicePaid(lim, s, a, now);
    var s1 := OpenSlice(lim, s, now);
    var e := ElapsedRounded(lim, s1, now);
    ElapsedRoundedBounds(lim, s1, now);
    PaidCharge(lim.hz, lim.bps, s1.bytesDisp, a.bytes, s1.start, s1.end, a.since, size, e, now, lim.Window());
    PaidCharge(lim.hz, lim.iops, s1.ioDisp, a.ios, s1.start, s1.end, a.since, 1, e, now, lim.Window());
  }

  lemma QuotaZero(rate: nat, hz: nat)
    requires hz > 0
    ensures Quota(rate, 0, hz) == 0
  {
  }

  lemma TrimSpan(elapsed: nat, w: nat)
    requires w > 0
    ensures 0 <= w * (elapsed / w) <= elapsed
  {
    DivBounds(elapsed, w);
  }

  lemma TrimKeepsRate(lim: Limits, s: Slice, a: Account, now: nat)
    requires RateInv(lim, s, a, now) && s.start <= now && now + lim.Window() <= s.end
    requires Paid(lim.hz, lim.bps, s.bytesDisp, a.bytes, s.start, s.end, a.since)
    requires Paid(lim.hz, lim.iops, s.ioDisp, a.ios, s.start, s.end, a.since)
    ensures RateInv(lim, TrimSlice(lim, s, now), a, now)
  {
    var w := lim.Window();
    hide Quota, Paid, Within, RoundUp;
    var n := (now - s.start) / w;
    var end' := RoundUp(now + w, w);
    RoundUpBounds(now + w, w);
    assert 0 <= w * n <= now - s.start by { TrimSpan(now - s.start, w); }
    PaidTrim(lim.hz, lim.bps, s.bytesDisp, a.bytes, s.start, s.end, a.since, w * n, now, w, end');
    PaidTrim(lim.hz, lim.iops, s.ioDisp, a.ios, s.start, s.end, a.since, w * n, now, w, end');
    PaidTrim(lim.hz, lim.bps, s.bytesDisp, a.bytes, s.start, s.end, a.since, 0, now, w, end');
    PaidTrim(lim.hz, lim.iops, s.ioDisp, a.ios, s.start, s.end, a.since, 0, now, w, end');
    QuotaZero(lim.bps, lim.hz);
    QuotaZero(lim.iops, lim.hz);
  }

  /** Letting one bio through, charging it and trimming keeps both rates paid for. */
  lemma DispatchKeepsRate(lim: Limits, s: Slice, a: Account, now: nat, size: nat)
    requires RateInv(lim, s, a, now) && !lim.NoRule()
    requires MayDispatch(lim, s, now, size).1 == Pass
    ensures RateInv(lim, Dispatch(lim, s, now, size), ChargeAccount(a, size), now)
  {
    ChargeKeepsRate(lim, s, a, now, size);
    TrimKeepsRate(lim, Charge(MayDispatch(lim, s, now, size).0, size), ChargeAccount(a, size), now);
  }

  /** Asking again at the same time changes nothing and gives the same answer. */
  lemma MayDispatchAgain(lim: Limits, s: Slice, now: nat, size: nat)
    requires lim.Valid()
    ensures MayDispatch(lim, MayDispatch(lim, s, now, size).0, now, size) == MayDispatch(lim, s, now, size)
  {
    if !lim.NoRule() {
      hide RoundUp, WithinBps, WithinIops;
      var s1 := OpenSlice(lim, s, now);
      var v := Checks(lim, s1, now, size);
      if v.Wait? {
        RoundUpBounds(now + v.jiffies, lim.Window());
        ChecksIgnoreEnd(lim, s1, now, size, RoundUp(now + v.jiffies, lim.Window()));
      }
    }
  }

  lemma ChecksIgnoreEnd(lim: Limits, s: Slice, now: nat, size: nat, end: nat)
    requires lim.Valid() && s.start <= now
    ensures Checks(lim, s.(end := end), now, size) == Checks(lim, s, now, size)
  {
    hide RoundUp, Quota;
  }

  /** A refusal always asks for at least one jiffy. */
  lemma RefusalWaits(lim: Limits, s: Slice, now: nat, size: nat)
    requires lim.Valid()
    ensures MayDispatch(lim, s, now, size).1.Wait? ==> MayDispatch(lim, s, now, size).1.jiffies >= 1
  {
    hide Quota, ElapsedRounded;
    ElapsedRoundedBounds(lim, OpenSlice(lim, s, now), now);
  }

  // ---- runs of one direction ----

  /** A bio offered at a time; it is charged if the check lets it through, otherwise it stays where it was. */
  datatype Offer = Offer(time: nat, size: nat)

  function Step(lim: Limits, s: Slice, o: Offer): Slice
    requires lim.Valid()
  {
    if MayDispatch(lim, s, o.time, o.size).1.Pass? then Dispatch(lim, s, o.time, o.size)
    else MayDispatch(lim, s, o.time, o.size).0
  }

  function Run(lim: Limits, s: Slice, offers: seq<Offer>): Slice
    requires lim.Valid()
  {
    if offers == [] then s else Step(lim, Run(lim, s, offers[..|offers| - 1]), offers[|offers| - 1])
  }

  /** The bytes and requests let through during a run. */
  function Charged(lim: Limits, s: Slice, offers: seq<Offer>, since: nat): Account
    requires lim.Valid()
  {
    if offers == [] then Account(since, 0, 0) else
      var before := offers[..|offers| - 1];
      var last := offers[|offers| - 1];
      var a := Charged(lim, s, before, since);
      if MayDispatch(lim, Run(lim, s, before), last.time, last.size).1.Pass? then ChargeAccount(a, last.size) else a
  }

  ghost predicate InOrder(offers: seq<Offer>, since: nat) {
    && (forall i | 0 <= i < |offers| :: since <= offers[i].time)
    && (forall i, j | 0 <= i < j < |offers| :: offers[i].time <= offers[j].time)
  }

  lemma StartInv(lim: Limits, s: Slice, since: nat)
    requires lim.Valid() && (s == StartNewSlice(lim, since) || (s.start <= s.end < since))
    ensures RateInv(lim, s, Account(since, 0, 0), since)
  {
  }

  lemma {:induction false} RunInv(lim: Limits, s: Slice, offers: seq<Offer>, since: nat)
    requires lim.Valid() && !lim.NoRule() && InOrder(offers, since)
    requires s == StartNewSlice(lim, since) || (s.start <= s.end < since)
    ensures var now := if offers == [] then since else offers[|offers| - 1].time;
            RateInv(lim, Run(lim, s, offers), Charged(lim, s, offers, since), now)
  {
    hide RateInv, MayDispatch, Dispatch;
    if offers == [] {
      StartInv(lim, s, since);
    } else {
      var before := offers[..|offers| - 1];
      var last := offers[|offers| - 1];
      RunInv(lim, s, before, since);
      var s1, a := Run(lim, s, before), Charged(lim, s, before, since);
      RateInvLater(lim, s1, a, if before == [] then since else before[|before| - 1].time, last.time);
      if MayDispatch(lim, s1, last.time, last.size).1.Pass? {
        DispatchKeepsRate(lim, s1, a, last.time, last.size);
      } else {
        RefusalKeepsRate(lim, s1, a, last.time, last.size);
      }
    }
  }

  lemma RateInvBound(lim: Limits, s: Slice, a: Account, now: nat)
    requires RateInv(lim, s, a, now)
    ensures a.since <= now
    ensures a.bytes * lim.hz <= lim.bps * (now - a.since + lim.Window())
    ensures a.ios * lim.hz <= lim.iops * (now - a.since + lim.Window())
  {
  }

  lemma {:induction false} ChargedSince(lim: Limits, s: Slice, offers: seq<Offer>, since: nat)
    requires lim.Valid()
    ensures Charged(lim, s, offers, since).since == since
  {
    if offers != [] {
      ChargedSince(lim, s, offers[..|offers| - 1], since);
    }
  }

  /**
    The rate bound over every run between limit changes: however trims, extensions and new slices
    interleave, what was let through by the last offer is at most the rate over the time since the
    start plus one window, in bytes and in requests.
   */
  lemma RateBound(lim: Limits, s: Slice, offers: seq<Offer>, since: nat, now: nat)
    requires lim.Valid() && !lim.NoRule() && InOrder(offers, since)
    requires offers != [] && now == offers[|offers| - 1].time
    requires s == StartNewSlice(lim, since) || (s.start <= s.end < since)
    ensures since <= now
    ensures Charged(lim, s, offers, since).bytes * lim.hz <= lim.bps * (now - since + lim.Window())
    ensures Charged(lim, s, offers, since).ios * lim.hz <= lim.iops * (now - since + lim.Window())
  {
    hide Run, Charged, RateInv;
    RunInv(lim, s, offers, since);
    ChargedSince(lim, s, offers, since);
    RateInvBound(lim, Run(lim, s, offers), Charged(lim, s, offers, since), now);
  }

  // ---- any window of a run ----

  /** What the slice that is open at time `t` has allowed until then and has not been used, in jiffies times rate. */
  function Unused(lim: Limits, rate: nat, s: Slice, disp: nat, t: nat): nat {
    if SliceUsed(s, t) || rate * (t - s.start) <= disp * lim.hz then 0 else rate * (t - s.start) - disp * lim.hz
  }

  /** No more than the rate from time `t` on plus one window, and what was unused of the slice that was open at `t`. */
  ghost predicate WithinWindow(lim: Limits, rate: nat, s: Slice, disp: nat, t: nat, now: nat, charged: nat) {
    t <= now && charged * lim.hz <= rate * (now - t + lim.Window()) + Unused(lim, rate, s, disp, t)
  }

  /** No bio has been let through since time `t`, when the slice was `s`: it is still that slice, or a new one. */
  ghost predicate Quiet(s: Slice, t: nat, s': Slice) {
    || s' == s
    || (s'.start == s.start && s'.bytesDisp == s.bytesDisp && s'.ioDisp == s.ioDisp && !SliceUsed(s, t))
    || (s'.bytesDisp == 0 && s'.ioDisp == 0 && t <= s'.start)
  }

  /** Where an account of a window that begins at time `t` can start: with the slice open then, or with a later one. */
  ghost predicate Basis(s: Slice, t: nat, base: Account) {
    || (base == Account(s.start, s.bytesDisp, s.ioDisp) && !SliceUsed(s, t))
    || (t <= base.since && base.bytes == 0 && base.ios == 0)
  }

  lemma QuietOpen(lim: Limits, s: Slice, t: nat, s': Slice, now: nat)
    requires lim.Valid() && Quiet(s, t, s') && s.start <= t <= now
    ensures var s1 := OpenSlice(lim, s', now);
            Quiet(s, t, s1) && Basis(s, t, Account(s1.start, s1.bytesDisp, s1.ioDisp))
  {
    hide RoundUp;
  }

  lemma QuietRefused(lim: Limits, s: Slice, t: nat, s': Slice, now: nat, size: nat)
    requires lim.Valid() && !lim.NoRule() && Quiet(s, t, s') && s.start <= t <= now
    ensures Quiet(s, t, MayDispatch(lim, s', now, size).0)
  {
    hide RoundUp, Checks;
    QuietOpen(lim, s, t, s', now);
  }

  /** The first bio let through opens the account of the window. */
  lemma FirstCharge(lim: Limits, s: Slice, now: nat, size: nat)
    requires lim.Valid() && !lim.NoRule() && MayDispatch(lim, s, now, size).1 == Pass
    ensures var s1 := OpenSlice(lim, s, now);
            RateInv(lim, Dispatch(lim, s, now, size), Account(s1.start, s1.bytesDisp + size, s1.ioDisp + 1), now)
  {
    var s1 := OpenSlice(lim, s, now);
    var e, w := ElapsedRounded(lim, s1, now), lim.Window();
    ElapsedRoundedBounds(lim, s1, now);
    hide Quota, ElapsedRounded, Paid, Within, TrimSlice, OpenSlice;
    PaidCharge(lim.hz, lim.bps, s1.bytesDisp, s1.bytesDisp, s1.start, s1.end, s1.start, size, e, now, w);
    PaidCharge(lim.hz, lim.iops, s1.ioDisp, s1.ioDisp, s1.start, s1.end, s1.start, 1, e, now, w);
    TrimKeepsRate(lim, Charge(s1, size), Account(s1.start, s1.bytesDisp + size, s1.ioDisp + 1), now);
  }

  lemma {:induction false} WindowInv(lim: Limits, s: Slice, offers: seq<Offer>, t: nat) returns (base: Account)
    requires lim.Valid() && !lim.NoRule() && InOrder(offers, t) && s.start <= t
    ensures Charged(lim, s, offers, t).ios == 0
            ==> Quiet(s, t, Run(lim, s, offers)) && Charged(lim, s, offers, t).bytes == 0
    ensures var a := Charged(lim, s, offers, t);
            a.ios > 0 ==>
              && offers != [] && Basis(s, t, base)
              && RateInv(lim, Run(lim, s, offers), Account(base.since, base.bytes + a.bytes, base.ios + a.ios),
                  offers[|offers| - 1].time)
  {
    hide RateInv, MayDispatch, Dispatch, OpenSlice, Quiet, Basis;
    base := Account(t, 0, 0);
    if offers == [] {
      assert Quiet(s, t, s) by { QuietStart(s, t); }
    } else {
      var before, last := offers[..|offers| - 1], offers[|offers| - 1];
      base := WindowInv(lim, s, before, t);
      var s1, a := Run(lim, s, before), Charged(lim, s, before, t);
      var passes := MayDispatch(lim, s1, last.time, last.size).1.Pass?;
      if a.ios == 0 {
        QuietOpen(lim, s, t, s1, last.time);
        if passes {
          var s2 := OpenSlice(lim, s1, last.time);
          FirstCharge(lim, s1, last.time, last.size);
          base := Account(s2.start, s2.bytesDisp, s2.ioDisp);
        } else {
          QuietRefused(lim, s, t, s1, last.time, last.size);
        }
      } else {
        var total := Account(base.since, base.bytes + a.bytes, base.ios + a.ios);
        RateInvLater(lim, s1, total, before[|before| - 1].time, last.time);
        if passes {
          DispatchKeepsRate(lim, s1, total, last.time, last.size);
        } else {
          RefusalKeepsRate(lim, s1, total, last.time, last.size);
        }
      }
    }
  }

  lemma QuietStart(s: Slice, t: nat)
    ensures Quiet(s, t, s)
  {
  }

  /** An account that starts with the open slice, or later, bounds the window. */
  lemma BasisBounds(lim: Limits, rate: nat, s: Slice, disp: nat, t: nat, since: nat, credit: nat, total: nat, now: nat)
    requires lim.Valid() && s.start <= t <= now && total >= credit
    requires (since == s.start && credit == disp && !SliceUsed(s, t)) || (t <= since && credit == 0)
    requires Within(lim.hz, rate, total, since, now, lim.Window())
    ensures WithinWindow(lim, rate, s, disp, t, now, total - credit)
  {
    var w := lim.Window();
    assert (total - credit) * lim.hz == total * lim.hz - credit * lim.hz;
    if t <= since {
      MulMono(now - since + w, now - t + w, rate);
    } else {
      assert rate * (now - since + w) == rate * (now - t + w) + rate * (t - since);
    }
  }

  lemma {:induction false} RunSplit(lim: Limits, s: Slice, before: seq<Offer>, during: seq<Offer>, since: nat, t: nat)
    requires lim.Valid()
    ensures Run(lim, s, before + during) == Run(lim, Run(lim, s, before), during)
    ensures var a, b, c := Charged(lim, s, before, since), Charged(lim, Run(lim, s, before), during, t),
                           Charged(lim, s, before + during, since);
            c.bytes == a.bytes + b.bytes && c.ios == a.ios + b.ios
  {
    hide MayDispatch, Dispatch;
    if during == [] {
      assert before + during == before;
    } else {
      var n := |during| - 1;
      assert (before + during)[..|before + during| - 1] == before + during[..n];
      RunSplit(lim, s, before, during[..n], since, t);
    }
  }

  /** What a run lets through, whatever slice it starts with. */
  lemma WindowCharged(lim: Limits, s: Slice, offers: seq<Offer>, t: nat, now: nat)
    requires lim.Valid() && !lim.NoRule() && InOrder(offers, t) && s.start <= t
    requires offers != [] && now == offers[|offers| - 1].time
    ensures WithinWindow(lim, lim.bps, s, s.bytesDisp, t, now, Charged(lim, s, offers, t).bytes)
    ensures WithinWindow(lim, lim.iops, s, s.ioDisp, t, now, Charged(lim, s, offers, t).ios)
  {
    hide Run, Charged, RateInv, Basis, Quiet, WithinWindow;
    var a := Charged(lim, s, offers, t);
    var base := WindowInv(lim, s, offers, t);
    if a.ios > 0 {
      WindowEnd(lim, s, Run(lim, s, offers), t, base, a.bytes, a.ios, now);
    } else {
      WindowEmpty(lim, lim.bps, s, s.bytesDisp, t, now);
      WindowEmpty(lim, lim.iops, s, s.ioDisp, t, now);
    }
  }

  lemma WindowEmpty(lim: Limits, rate: nat, s: Slice, disp: nat, t: nat, now: nat)
    requires t <= now
    ensures WithinWindow(lim, rate, s, disp, t, now, 0)
  {
  }

  /**
    The rate bound over any window of a run: what is let through from time `t` on, when some offers have been made and
    others follow, is at most the rate over the time since `t` plus one window, plus what the slice open at `t` had
    allowed until then and was not used.
   */
  lemma WindowBound(lim: Limits, s: Slice, before: seq<Offer>, during: seq<Offer>, since: nat, t: nat, now: nat)
    requires lim.Valid() && !lim.NoRule() && InOrder(before, since) && InOrder(during, t)
    requires since <= t && forall i | 0 <= i < |before| :: before[i].time <= t
    requires during != [] && now == during[|during| - 1].time
    requires s == StartNewSlice(lim, since) || (s.start <= s.end < since)
    ensures var s1, a, c := Run(lim, s, before), Charged(lim, s, before, since),
            Charged(lim, s, before + during, since);
            && a.bytes <= c.bytes && WithinWindow(lim, lim.bps, s1, s1.bytesDisp, t, now, c.bytes - a.bytes)
            && a.ios <= c.ios && WithinWindow(lim, lim.iops, s1, s1.ioDisp, t, now, c.ios - a.ios)
  {
    hide Run, Charged, RateInv, WithinWindow;
    var s1 := Run(lim, s, before);
    RunInv(lim, s, before, since);
    RateInvStart(lim, s1, Charged(lim, s, before, since), if before == [] then since else before[|before| - 1].time);
    RunSplit(lim, s, before, during, since, t);
    WindowCharged(lim, s1, during, t, now);
  }

  lemma RateInvStart(lim: Limits, s: Slice, a: Account, now: nat)
    requires RateInv(lim, s, a, now)
    ensures s.start <= now
  {
  }

  lemma WindowEnd(lim: Limits, s: Slice, s': Slice, t: nat, base: Account, bytes: nat, ios: nat, now: nat)
    requires s.start <= t <= now && Basis(s, t, base)
    requires RateInv(lim, s', Account(base.since, base.bytes + bytes, base.ios + ios), now)
    ensures WithinWindow(lim, lim.bps, s, s.bytesDisp, t, now, bytes)
    ensures WithinWindow(lim, lim.iops, s, s.ioDisp, t, now, ios)
  {
    hide WithinWindow, Within, Paid;
    BasisBounds(lim, lim.bps, s, s.bytesDisp, t, base.since, base.bytes, base.bytes + bytes, now);
    BasisBounds(lim, lim.iops, s, s.ioDisp, t, base.since, base.ios, base.ios + ios, now);
  }

  // ---- waits ----

  lemma QuotaAtLeast(rate: nat, span: nat, hz: nat, q: nat)
    requires hz > 0 && q * hz <= rate * span
    ensures q <= Quota(rate, span, hz)
  {
    DivAtLeast(rate * span, hz, q);
  }

  /** Enough time for `need` units, counted in jiffies times rate. */
  lemma TimeFor(need: nat, rate: nat, span: nat)
    requires rate > 0 && need / rate + 1 <= span
    ensures need <= rate * span
  {
    DivBounds(need, rate);
    MulMono(need / rate + 1, span, rate);
  }

  /** The request wait: at the advised time the check passes, and the advice never falls back to one jiffy. */
  lemma IopsWaitSuffices(lim: Limits, s: Slice, now: nat, later: nat)
    requires lim.Valid() && s.start <= now && s.ioDisp < UINT_MAX
    requires WithinIops(lim, s, now).Wait? && now + WithinIops(lim, s, now).jiffies <= later
    ensures (s.ioDisp + 1) * lim.hz / lim.iops + 1 > now - s.start
    ensures WithinIops(lim, s, later).Pass?
  {
    hide Quota, ElapsedRounded;
    var need := (s.ioDisp + 1) * lim.hz;
    ElapsedRoundedBounds(lim, s, now);
    ElapsedRoundedBounds(lim, s, later);
    if need / lim.iops + 1 <= now - s.start {
      TimeFor(need, lim.iops, ElapsedRounded(lim, s, now));
      QuotaAtLeast(lim.iops, ElapsedRounded(lim, s, now), lim.hz, s.ioDisp + 1);
      assert false;
    }
    TimeFor(need, lim.iops, ElapsedRounded(lim, s, later));
    QuotaAtLeast(lim.iops, ElapsedRounded(lim, s, later), lim.hz, s.ioDisp + 1);
  }

  /** The byte wait: from one jiffy after the advised time on, the check passes. */
  lemma BpsWaitSuffices(lim: Limits, s: Slice, now: nat, size: nat, later: nat)
    requires lim.Valid() && s.start <= now
    requires WithinBps(lim, s, now, size).Wait? && now + WithinBps(lim, s, now, size).jiffies < later
    ensures WithinBps(lim, s, later, size).Pass?
  {
    hide ElapsedRounded;
    var e, e' := ElapsedRounded(lim, s, now), ElapsedRounded(lim, s, later);
    var allowed := BytesAllowed(lim, s, now);
    var extra := s.bytesDisp + size - allowed;
    var q := extra * lim.hz / lim.bps;
    ElapsedRoundedBounds(lim, s, now);
    ElapsedRoundedBounds(lim, s, later);
    DivBounds(extra * lim.hz, lim.bps);
    DivBounds(lim.bps * e, lim.hz);
    assert extra * lim.hz <= lim.bps * (q + 1);
    MulMono(e + q + 1, e', lim.bps);
    assert lim.bps * (e + q + 1) == lim.bps * e + lim.bps * (q + 1);
    assert (s.bytesDisp + size) * lim.hz == allowed * lim.hz + extra * lim.hz;
    DivAtLeast(lim.bps * e', lim.hz, s.bytesDisp + size);
  }

  /** The byte check passes exactly when the bytes, counted in jiffies times rate, fit the rounded time. */
  lemma BpsPasses(lim: Limits, s: Slice, now: nat, size: nat)
    requires lim.Valid() && s.start <= now
    ensures WithinBps(lim, s, now, size).Pass?
            <==> (s.bytesDisp + size) * lim.hz <= lim.bps * ElapsedRounded(lim, s, now)
  {
    hide ElapsedRounded;
    var n, e := s.bytesDisp + size, ElapsedRounded(lim, s, now);
    DivBounds(lim.bps * e, lim.hz);
    if n * lim.hz <= lim.bps * e {
      DivAtLeast(lim.bps * e, lim.hz, n);
    } else if n <= lim.bps * e / lim.hz {
      MulMono(n, lim.bps * e / lim.hz, lim.hz);
    }
  }

  lemma Multiple(k: nat, w: nat)
    requires w > 0
    ensures RoundUp(k * w, w) == k * w
  {
    DivBounds(k * w + (w - 1), w);
    var q := (k * w + (w - 1)) / w;
    if q < k { MulMono(q + 1, k, w); }
    if q > k { MulMono(k + 1, q, w); }
  }

  /** Rounding up from `q` past a multiple: to `q` itself exactly when that is a multiple too. */
  lemma RoundUpPast(k: nat, q: nat, w: nat)
    requires w > 0
    ensures q % w == 0 ==> RoundUp(k * w + q, w) == k * w + q
    ensures q % w != 0 ==> RoundUp(k * w + q, w) >= k * w + q + 1
  {
    if q % w == 0 {
      assert q == w * (q / w);
      assert k * w + q == (k + q / w) * w;
      Multiple(k + q / w, w);
    } else {
      RoundUpBounds(k * w + q, w);
      var r := (k * w + q + (w - 1)) / w;
      if r * w == k * w + q {
        assert q == (r - k) * w;
        MultipleRemainder(r - k, w);
      }
    }
  }

  lemma MultipleRemainder(k: int, w: nat)
    requires w > 0
    ensures (k * w) % w == 0
  {
    var x := k * w;
    assert x == w * (x / w) + x % w;
    assert x % w == w * (k - x / w);
    WholeSteps(w, k - x / w);
  }

  lemma WholeSteps(w: int, d: int)
    requires w >= 0
    ensures (d >= 1 ==> w * d >= w) && (d <= -1 ==> w * d <= -w)
  {
  }

  /** The rounded time some jiffies after the end of a rounded time. */
  lemma RoundedLater(lim: Limits, s: Slice, now: nat, ahead: nat)
    requires lim.Valid() && s.start <= now && ahead >= 1
    ensures var e := ElapsedRounded(lim, s, now);
            var e' := ElapsedRounded(lim, s, s.start + e + ahead);
            e' >= e + ahead && (ahead % lim.Window() == 0 ==> e' == e + ahead)
                && (ahead % lim.Window() != 0 ==> e' >= e + ahead + 1)
  {
    var w, elapsed := lim.Window(), now - s.start;
    var k := ((if elapsed == 0 then w else elapsed) + (w - 1)) / w;
    RoundUpPast(k, ahead, w);
    RoundUpBounds(k * w + ahead, w);
  }

  /** One jiffy past the time the excess takes covers it. */
  lemma ExcessCovered(lim: Limits, s: Slice, now: nat, size: nat)
    requires lim.Valid() && s.start <= now && s.bytesDisp + size > BytesAllowed(lim, s, now)
    ensures (s.bytesDisp + size) * lim.hz <= lim.bps * (ElapsedRounded(lim, s, now) + ExcessTime(lim, s, now, size) + 1)
  {
    hide ElapsedRounded;
    var e, allowed := ElapsedRounded(lim, s, now), BytesAllowed(lim, s, now);
    var extra := s.bytesDisp + size - allowed;
    var q := extra * lim.hz / lim.bps;
    DivBounds(extra * lim.hz, lim.bps);
    DivBounds(lim.bps * e, lim.hz);
    assert (s.bytesDisp + size) * lim.hz == allowed * lim.hz + extra * lim.hz;
    assert extra * lim.hz <= lim.bps * (q + 1);
    assert lim.bps * (e + q + 1) == lim.bps * e + lim.bps * (q + 1);
  }

  lemma AdvisedTime(lim: Limits, s: Slice, now: nat, size: nat)
    requires lim.Valid() && s.start <= now && WithinBps(lim, s, now, size).Wait?
    ensures s.bytesDisp + size > BytesAllowed(lim, s, now)
    ensures now + WithinBps(lim, s, now, size).jiffies
            == s.start + ElapsedRounded(lim, s, now) + Max(ExcessTime(lim, s, now, size), 1)
  {
    hide ElapsedRounded, Quota, ExcessTime;
  }

  /**
    The advised time is enough, with e the rounded time of the refusal and q the time the excess bytes take: q is not
    a positive number of whole windows, or the bytes of that time cover everything to the last fraction.
   */
  predicate WaitIsEnough(lim: Limits, s: Slice, now: nat, size: nat)
    requires lim.Valid() && s.start <= now && s.bytesDisp + size > BytesAllowed(lim, s, now)
  {
    var e, q := ElapsedRounded(lim, s, now), ExcessTime(lim, s, now, size);
    q == 0 || q % lim.Window() != 0 || (s.bytesDisp + size) * lim.hz <= lim.bps * (e + q)
  }

  /**
    The byte check passes at the advised time itself exactly when that is so; otherwise the wait is one jiffy short.
   */
  lemma BpsWaitExact(lim: Limits, s: Slice, now: nat, size: nat)
    requires lim.Valid() && s.start <= now && WithinBps(lim, s, now, size).Wait?
    ensures s.bytesDisp + size > BytesAllowed(lim, s, now)
    ensures WithinBps(lim, s, now + WithinBps(lim, s, now, size).jiffies, size).Pass?
            <==> WaitIsEnough(lim, s, now, size)
  {
    AdvisedTime(lim, s, now, size);
    hide ElapsedRounded, WithinBps, BytesAllowed, ExcessTime, WaitIsEnough;
    ElapsedRoundedBounds(lim, s, now);
    EnoughMeans(lim, s, now, size, s.start + ElapsedRounded(lim, s, now) + Max(ExcessTime(lim, s, now, size), 1));
  }

  lemma EnoughMeans(lim: Limits, s: Slice, now: nat, size: nat, later: nat)
    requires lim.Valid() && s.start <= now <= later && s.bytesDisp + size > BytesAllowed(lim, s, now)
    requires later == s.start + ElapsedRounded(lim, s, now) + Max(ExcessTime(lim, s, now, size), 1)
    ensures WithinBps(lim, s, later, size).Pass? <==> WaitIsEnough(lim, s, now, size)
  {
    hide ElapsedRounded, WithinBps, BytesAllowed, ExcessTime;
    var e, q := ElapsedRounded(lim, s, now), ExcessTime(lim, s, now, size);
    ExcessCovered(lim, s, now, size);
    RoundedLater(lim, s, now, Max(q, 1));
    BpsPasses(lim, s, later, size);
    CoveredExactly((s.bytesDisp + size) * lim.hz, lim.bps, e, q, ElapsedRounded(lim, s, later), lim.Window());
  }

  lemma CoveredExactly(need: nat, rate: nat, e: nat, q: nat, later: nat, w: nat)
    requires w > 0 && need <= rate * (e + q + 1)
    requires later >= e + Max(q, 1) && (q > 0 && q % w == 0 ==> later == e + q) && (q % w != 0 ==> later >= e + q + 1)
    ensures need <= rate * later <==> q == 0 || q % w != 0 || need <= rate * (e + q)
  {
    if q == 0 || q % w != 0 { MulMono(e + q + 1, later, rate); }
  }

  /** The extra jiffy can be needed: here the check still fails at the advised time itself. */
  lemma BpsWaitIsOneShort()
    ensures var lim := Limits(100, 1000, IOPS_UNLIMITED);
            var s := Slice(0, 0, 0, 10);
            && WithinBps(lim, s, 0, 201) == Wait(20)
            && WithinBps(lim, s, 20, 201).Wait?
            && WithinBps(lim, s, 21, 201).Pass?
  {
  }

  // ---- offering a refused bio again ----

  /** The slice, the time and the verdict of the n-th offer of a bio that is offered again at each advised time. */
  function Offered(lim: Limits, s: Slice, now: nat, size: nat, n: nat): (Slice, nat, Verdict)
    requires lim.Valid()
  {
    if n == 0 then
      var (s1, v) := MayDispatch(lim, s, now, size);
      (s1, now, v)
    else
      var (s1, t, v) := Offered(lim, s, now, size, n - 1);
      if v.Pass? then (s1, t, v) else
        var (s2, v2) := MayDispatch(lim, s1, t + v.jiffies, size);
        (s2, t + v.jiffies, v2)
  }

  /** What the checks see of a slice. */
  predicate SameUse(a: Slice, b: Slice) { a.start == b.start && a.bytesDisp == b.bytesDisp && a.ioDisp == b.ioDisp }

  lemma ChecksSame(lim: Limits, a: Slice, b: Slice, now: nat, size: nat)
    requires lim.Valid() && a.start <= now && SameUse(a, b)
    ensures Checks(lim, a, now, size) == Checks(lim, b, now, size)
  {
    hide RoundUp, Quota;
  }

  /** An offer on a slice that is still open forgets nothing, and a refusal keeps it open up to the advised time. */
  lemma OfferStep(lim: Limits, s: Slice, use: Slice, now: nat, size: nat)
    requires lim.Valid() && !lim.NoRule() && SameUse(s, use) && s.start <= now <= s.end
    ensures var (s1, v) := MayDispatch(lim, s, now, size);
            SameUse(s1, use) && v == Checks(lim, use, now, size) && (v.Wait? ==> now + v.jiffies <= s1.end)
  {
    hide RoundUp, Checks;
    var s1 := OpenSlice(lim, s, now);
    ChecksSame(lim, s1, use, now, size);
    var v := Checks(lim, s1, now, size);
    if v.Wait? { RoundUpBounds(now + v.jiffies, lim.Window()); }
  }

  /** Every offer is tested against the slice of the first one. */
  lemma {:induction false} OfferedInv(lim: Limits, s: Slice, now: nat, size: nat, n: nat)
    requires lim.Valid() && !lim.NoRule()
    ensures var use := OpenSlice(lim, s, now);
            var (s1, t, v) := Offered(lim, s, now, size, n);
            && now <= t && SameUse(s1, use) && v == Checks(lim, use, t, size)
            && (v.Wait? ==> v.jiffies >= 1 && t + v.jiffies <= s1.end)
  {
    hide Checks, RoundUp, OpenSlice;
    var use := OpenSlice(lim, s, now);
    if n == 0 {
      OpensOnce(lim, s, now, size);
      OfferStep(lim, use, use, now, size);
      RefusalWaits(lim, s, now, size);
    } else {
      OfferedInv(lim, s, now, size, n - 1);
      var (s1, t, v) := Offered(lim, s, now, size, n - 1);
      if v.Wait? {
        OfferStep(lim, s1, use, t + v.jiffies, size);
        RefusalWaits(lim, s1, t + v.jiffies, size);
      }
    }
  }

  lemma OpensOnce(lim: Limits, s: Slice, now: nat, size: nat)
    requires lim.Valid()
    ensures !lim.NoRule() ==> MayDispatch(lim, OpenSlice(lim, s, now), now, size) == MayDispatch(lim, s, now, size)
  {
    hide RoundUp, Checks;
  }

  /** A byte check that passes goes on passing while nothing is charged. */
  lemma BpsLater(lim: Limits, s: Slice, now: nat, later: nat, size: nat)
    requires lim.Valid() && s.start <= now <= later && WithinBps(lim, s, now, size).Pass?
    ensures WithinBps(lim, s, later, size).Pass?
  {
    BpsPasses(lim, s, now, size);
    BpsPasses(lim, s, later, size);
    RoundedMono(lim, s, now, later);
    MulMono(ElapsedRounded(lim, s, now), ElapsedRounded(lim, s, later), lim.bps);
  }

  lemma RoundedMono(lim: Limits, s: Slice, now: nat, later: nat)
    requires lim.Valid() && s.start <= now <= later
    ensures ElapsedRounded(lim, s, now) <= ElapsedRounded(lim, s, later)
  {
    var w := lim.Window();
    if now == s.start {
      RoundUpExact(w);
      ElapsedRoundedBounds(lim, s, later);
    } else {
      var a, b := now - s.start + (w - 1), later - s.start + (w - 1);
      DivBounds(a, w);
      DivAtLeast(b, w, a / w);
      MulMono(a / w, b / w, w);
    }
  }

  /**
    A refused bio, offered again at each advised time with nothing else charged in between, is let through after at
    most three refusals: the slice stays open, the bytes suffice by the second offer after a byte refusal, and the
    requests by the first one after a request refusal.
   */
  lemma ThreeRefusalsAtMost(lim: Limits, s: Slice, now: nat, size: nat)
    requires lim.Valid() && OpenSlice(lim, s, now).ioDisp < UINT_MAX
    ensures Offered(lim, s, now, size, 3).2.Pass?
  {
    if !lim.NoRule() {
      var use := OpenSlice(lim, s, now);
      OfferedInv(lim, s, now, size, 0);
      OfferedInv(lim, s, now, size, 1);
      OfferedInv(lim, s, now, size, 2);
      OfferedInv(lim, s, now, size, 3);
      var t0, t1, t2, t3 := now, Offered(lim, s, now, size, 1).1, Offered(lim, s, now, size, 2).1,
          Offered(lim, s, now, size, 3).1;
      hide MayDispatch, OpenSlice, WithinBps, WithinIops;
      if Offered(lim, s, now, size, 2).2.Wait? {
        if WithinBps(lim, use, t0, size).Wait? {
          BpsWaitSuffices(lim, use, t0, size, t2);
        } else {
          BpsLater(lim, use, t0, t2, size);
        }
        BpsLater(lim, use, t2, t3, size);
        IopsWaitSuffices(lim, use, t2, t3);
      }
    }
  }

  /** And three there can be: twice for the bytes and once for the requests. */
  lemma ThreeRefusals()
    ensures var lim, s := Limits(100, 1000, 1), Slice(0, 0, 0, 10);
            && Offered(lim, s, 5, 201, 0).2 == Wait(15) && Offered(lim, s, 5, 201, 1).2 == Wait(1)
            && Offered(lim, s, 5, 201, 2).2 == Wait(80) && Offered(lim, s, 5, 201, 3).2 == Pass
  {
    hide MayDispatch, Offered;
    var lim := Limits(100, 1000, 1);
    FirstOffer(lim, Slice(0, 0, 0, 10), 5);
    SecondOffer(lim, Slice(0, 0, 0, 20), 20);
    ThirdOffer(lim, Slice(0, 0, 0, 30), 21);
    FourthOffer(lim, Slice(0, 0, 0, 110), 101);
    OfferedChain(lim, Slice(0, 0, 0, 10), 5, 201, Slice(0, 0, 0, 20), 15, Slice(0, 0, 0, 30), 1, Slice(0, 0, 0, 110),
        80);
  }

  lemma OfferedChain(lim: Limits, s: Slice, now: nat, size: nat, s0: Slice, w0: nat, s1: Slice, w1: nat, s2: Slice,
                     w2: nat)
    requires lim.Valid() && MayDispatch(lim, s, now, size) == (s0, Wait(w0))
             && MayDispatch(lim, s0, now + w0, size) == (s1, Wait(w1))
    requires MayDispatch(lim, s1, now + w0 + w1, size) == (s2, Wait(w2))
             && MayDispatch(lim, s2, now + w0 + w1 + w2, size).1 == Pass
    ensures Offered(lim, s, now, size, 0).2 == Wait(w0) && Offered(lim, s, now, size, 1).2 == Wait(w1)
    ensures Offered(lim, s, now, size, 2).2 == Wait(w2) && Offered(lim, s, now, size, 3).2 == Pass
  {
    hide MayDispatch;
    assert Offered(lim, s, now, size, 1) == (s1, now + w0, Wait(w1));
    assert Offered(lim, s, now, size, 2) == (s2, now + w0 + w1, Wait(w2));
  }

  lemma FirstOffer(lim: Limits, s: Slice, now: nat)
    requires lim == Limits(100, 1000, 1) && s == Slice(0, 0, 0, 10) && now == 5
    ensures MayDispatch(lim, s, now, 201) == (Slice(0, 0, 0, 20), Wait(15))
  {
    hide OpenSlice, RoundUp, ElapsedRounded, BytesAllowed, ExcessTime, WithinIops;
    OpenAt(lim, s, now, 20);
    RoundedAt(lim, Slice(0, 0, 0, 20), now, 10);
    ExcessAt(lim, Slice(0, 0, 0, 20), now, 10);
  }

  lemma SecondOffer(lim: Limits, s: Slice, now: nat)
    requires lim == Limits(100, 1000, 1) && s == Slice(0, 0, 0, 20) && now == 20
    ensures MayDispatch(lim, s, now, 201) == (Slice(0, 0, 0, 30), Wait(1))
  {
    hide OpenSlice, RoundUp, ElapsedRounded, BytesAllowed, ExcessTime, WithinIops;
    OpenAt(lim, s, now, 30);
    RoundedAt(lim, Slice(0, 0, 0, 30), now, 20);
    ExcessAt(lim, Slice(0, 0, 0, 30), now, 20);
  }

  lemma ThirdOffer(lim: Limits, s: Slice, now: nat)
    requires lim == Limits(100, 1000, 1) && s == Slice(0, 0, 0, 30) && now == 21
    ensures MayDispatch(lim, s, now, 201) == (Slice(0, 0, 0, 110), Wait(80))
  {
    var s1 := OpenSlice(lim, s, now);
    assert s1 == Slice(0, 0, 0, 40);
    assert RoundUp(101, 10) == 110;
    hide OpenSlice, RoundUp, ElapsedRounded;
    RoundedAt(lim, s1, now, 30);
  }

  lemma FourthOffer(lim: Limits, s: Slice, now: nat)
    requires lim == Limits(100, 1000, 1) && s == Slice(0, 0, 0, 110) && now == 101
    ensures MayDispatch(lim, s, now, 201).1 == Pass
  {
    var s1 := OpenSlice(lim, s, now);
    assert SameUse(s1, s);
    hide OpenSlice, RoundUp, ElapsedRounded;
    RoundedAt(lim, s1, now, 110);
  }

  lemma RunOne(lim: Limits, s: Slice, o: Offer, since: nat)
    requires lim.Valid()
    ensures Run(lim, s, [o]) == Step(lim, s, o)
    ensures Charged(lim, s, [o], since).bytes == if MayDispatch(lim, s, o.time, o.size).1.Pass? then o.size else 0
  {
    hide MayDispatch, Dispatch;
    assert [o][..0] == [];
  }

  /** One more refused offer charges nothing. */
  lemma RunRefused(lim: Limits, s: Slice, before: seq<Offer>, o: Offer)
    requires lim.Valid() && MayDispatch(lim, Run(lim, s, before), o.time, o.size).1.Wait?
    ensures Run(lim, s, before + [o]) == MayDispatch(lim, Run(lim, s, before), o.time, o.size).0
    ensures Charged(lim, s, before + [o], 0).bytes == Charged(lim, s, before, 0).bytes
  {
    hide MayDispatch, Dispatch;
    RunOne(lim, Run(lim, s, before), o, 0);
    hide Run, Charged;
    RunSplit(lim, s, before, [o], 0, 0);
  }

  /**
    The last term of WindowBound is needed: the bio of ThreeRefusals takes at one moment more than twice what the rate
    allows over one window.
   */
  lemma WindowBurst(lim: Limits, size: nat, before: seq<Offer>, during: seq<Offer>)
    requires lim == Limits(100, 1000, 1) && size == 201
    requires before == [Offer(5, size)] + [Offer(20, size)] + [Offer(21, size)] && during == [Offer(101, size)]
    ensures var s := StartNewSlice(lim, 0);
            && lim.Valid() && !lim.NoRule()
            && var bytes := Charged(lim, s, before + during, 0).bytes - Charged(lim, s, before, 0).bytes;
               bytes * lim.hz > 2 * (lim.bps * lim.Window())
  {
    hide MayDispatch, Dispatch;
    var s, o1, o2, o3, o4 := StartNewSlice(lim, 0), Offer(5, size), Offer(20, size), Offer(21, size), Offer(101, size);
    FirstOffer(lim, s, 5);
    SecondOffer(lim, Slice(0, 0, 0, 20), 20);
    ThirdOffer(lim, Slice(0, 0, 0, 30), 21);
    FourthOffer(lim, Slice(0, 0, 0, 110), 101);
    RunOne(lim, s, o1, 0);
    hide Run, Charged;
    RunRefused(lim, s, [o1], o2);
    RunRefused(lim, s, [o1] + [o2], o3);
    RunOne(lim, Run(lim, s, before), o4, 0);
    RunSplit(lim, s, before, during, 0, 0);
  }

  lemma OpenAt(lim: Limits, s: Slice, now: nat, end: nat)
    requires lim.hz == 100 && lim.Valid() && s.start == 0
             && ((now == 5 && s.end == 10 && end == 20) || (now == 20 && s.end == 20 && end == 30))
    ensures OpenSlice(lim, s, now) == s.(end := end)
  {
  }

  lemma RoundedAt(lim: Limits, s: Slice, now: nat, e: nat)
    requires lim.hz == 100 && lim.Valid() && s.start == 0
    requires (now == 5 && e == 10) || (now == 20 && e == 20) || (now == 21 && e == 30) || (now == 101 && e == 110)
    ensures ElapsedRounded(lim, s, now) == e
  {
  }

  lemma ExcessAt(lim: Limits, s: Slice, now: nat, e: nat)
    requires lim == Limits(100, 1000, 1) && s.start == s.bytesDisp == 0 && (e == 10 || e == 20)
             && ElapsedRounded(lim, s, now) == e
    ensures BytesAllowed(lim, s, now) == 10 * e && ExcessTime(lim, s, now, 201) == if e == 10 then 10 else 0
  {
    hide ElapsedRounded;
    assert BytesAllowed(lim, s, now) == 10 * e;
    hide BytesAllowed;
  }
}
