/** The stack algorithm of ptree.c on the records of ProcessTree, and the module's dfs that writes them. */
module ProcessDisplay {
  import opened Basics
  import opened ProcessTree

  // ---- the stack ----

  /** `p` is what is left of the stack `s` after dropping some entries. */
  ghost predicate Within(p: seq<nat>, s: seq<nat>) {
    if p == [] then true
    else if s == [] then false
    else if p[|p| - 1] == s[|s| - 1] then Within(p[..|p| - 1], s[..|s| - 1])
    else Within(p, s[..|s| - 1])
  }

  lemma {:induction false} WithinShorter(p: seq<nat>, s: seq<nat>)
    requires Within(p, s)
    ensures |p| <= |s|
    decreases |s|
  {
    if p != [] {
      if p[|p| - 1] == s[|s| - 1] {
        WithinShorter(p[..|p| - 1], s[..|s| - 1]);
      } else {
        WithinShorter(p, s[..|s| - 1]);
      }
    }
  }

  lemma {:induction false} WithinSelf(p: seq<nat>)
    ensures Within(p, p)
  {
    if p != [] { WithinSelf(p[..|p| - 1]); }
  }

  lemma WithinPush(p: seq<nat>, s: seq<nat>, x: nat)
    requires Within(p, s)
    ensures Within(p + [x], s + [x])
  {
    assert (p + [x])[..|p|] == p && (s + [x])[..|s|] == s;
  }

  /** Dropping the last of `p` only makes it easier to find. */
  lemma {:induction false} WithinInit(p: seq<nat>, s: seq<nat>)
    requires p != [] && Within(p, s)
    ensures Within(p[..|p| - 1], s)
    decreases |s|, 0
  {
    var p', s' := p[..|p| - 1], s[..|s| - 1];
    if p[|p| - 1] == s[|s| - 1] {
      WithinLonger(p', s', s[|s| - 1]);
    } else {
      WithinInit(p, s');
      WithinLonger(p', s', s[|s| - 1]);
    }
    assert s == s' + [s[|s| - 1]];
  }

  lemma {:induction false} WithinLonger(p: seq<nat>, s: seq<nat>, x: nat)
    requires Within(p, s)
    ensures Within(p, s + [x])
    decreases |s|, 1
  {
    assert (s + [x])[..|s|] == s;
    if p != [] && p[|p| - 1] == x { WithinInit(p, s); }
  }

  /** Where entry k of `p` is in the stack, and what is below it. */
  lemma {:induction false} WithinAt(p: seq<nat>, s: seq<nat>, k: nat) returns (r: nat)
    requires Within(p, s) && k < |p|
    ensures k <= r < |s| && s[r] == p[k] && Within(p[..k], s[..r])
    ensures p == s ==> r == k
    decreases |s|
  {
    var p', s' := p[..|p| - 1], s[..|s| - 1];
    if p[|p| - 1] != s[|s| - 1] {
      r := WithinAt(p, s', k);
      assert s[..r] == s'[..r];
    } else if k < |p| - 1 {
      r := WithinAt(p', s', k);
      assert s[..r] == s'[..r] && p[..k] == p'[..k];
    } else {
      r := |s| - 1;
      WithinShorter(p', s');
    }
  }

  lemma {:induction false} WithinUpTo(p: seq<nat>, s: seq<nat>, r: nat, q: nat)
    requires r <= q <= |s| && Within(p, s[..r])
    ensures Within(p, s[..q])
    decreases q - r
  {
    if r < q {
      WithinLonger(p, s[..r], s[r]);
      assert s[..r] + [s[r]] == s[..r + 1];
      WithinUpTo(p, s, r + 1, q);
    }
  }

  const MAXPROCESSNUMBER := 256

  /**
    Before record i: the path of record i - 1 is within the stack and ends at its top, and the entries below the top,
    which all have children, still carry the link they were given. The link of the top was cleared unless it leads on.
   */
  ghost predicate StackOk(recs: seq<Rec>, cur: seq<Rec>, path: seq<nat>, st: seq<nat>, i: nat)
    requires 1 <= i <= |recs|
  {
    && |cur| == |recs| && (forall x | i <= x < |recs| :: cur[x] == recs[x])
    && (forall x | 0 <= x < i :: cur[x] == recs[x].(next := cur[x].next))
    && st != [] && st[|st| - 1] == i - 1 && Within(path, st)
    && (forall j, k | 0 <= j < k < |st| :: st[j] < st[k])
    && (forall k | 0 <= k < |st| - 1 :: cur[st[k]].next == recs[st[k]].next)
    && cur[i - 1].next == Kept(recs, i - 1)
  }

  /**
    The first statement of the loop: a link that does not lead to the next record is cleared, unless a child comes next.
   */
  ghost function Kept(recs: seq<Rec>, i: nat): int
    requires i < |recs|
  {
    if i == |recs| - 1 || (recs[i].next != recs[i + 1].pid && recs[i].first != recs[i + 1].pid) then 0 else recs[i].next
  }

  /** The links of some records have been cleared. */
  ghost predicate Unwound(cur: seq<Rec>, cur': seq<Rec>, popped: seq<nat>) {
    |cur'| == |cur| && forall x | 0 <= x < |cur| :: cur'[x] == if x in popped then cur[x].(next := 0) else cur[x]
  }

  /** The inner loop: entries are popped and their links cleared until the link of the top leads to `pid`. */
  method Unwind(buf: array<Rec>, nr: nat, stack: array<nat>, top: nat, pid: int, ghost r: nat) returns (left: nat)
    requires r < top <= stack.Length && nr <= buf.Length && (forall k | 0 <= k < top :: stack[k] < nr)
    requires forall j, k | 0 <= j < k < top :: stack[j] < stack[k]
    requires buf[stack[r]].next == pid
    modifies buf
    ensures r < left <= top && old(buf[stack[left - 1]].next) == pid
    ensures forall k | left <= k < top :: old(buf[stack[k]].next) != pid
    ensures Unwound(old(buf[..nr]), buf[..nr], stack[left..top])
  {
    left := top;
    assert stack[left..top] == [];
    while pid != buf[stack[left - 1]].next
      invariant r < left <= top
      invariant forall k | left <= k < top :: old(buf[stack[k]].next) != pid
      invariant forall k | 0 <= k < left :: buf[stack[k]] == old(buf[stack[k]])
      invariant forall x | 0 <= x < nr ::
                buf[x] == if x in stack[left..top] then old(buf[x]).(next := 0) else old(buf[x])
      decreases left
    {
      left := left - 1;
      assert stack[left..top] == [stack[left]] + stack[left + 1..top];
      buf[stack[left]] := buf[stack[left]].(next := 0);
    }
  }

  /** Pushing the first child of the record before. */
  lemma PushOk(recs: seq<Rec>, cur: seq<Rec>, cur': seq<Rec>, p: seq<nat>, q: seq<nat>, st: seq<nat>, i: nat)
    requires 1 <= i < |recs| && StackOk(recs, cur, p, st, i) && Follows(recs, p, q, 0, i, 0) && recs[i].pid != 0
    requires cur' == cur[i := recs[i].(next := Kept(recs, i))]
    requires recs[i].pid == recs[i - 1].first
    ensures StackOk(recs, cur', q, st + [i], i + 1) && (p == st ==> q == st + [i])
  {
    hide Within;
    WithinPush(p, st, i);
    assert q == p + [i];
  }

  /** The sibling before record i is on the stack and its link leads to i. */
  lemma SiblingOnStack(recs: seq<Rec>, cur: seq<Rec>, p: seq<nat>, q: seq<nat>, st: seq<nat>, i: nat) returns (r: nat)
    requires 1 <= i < |recs| && StackOk(recs, cur, p, st, i) && Follows(recs, p, q, 0, i, 0) && recs[i].pid != 0
    requires recs[i].pid != recs[i - 1].first
    ensures |q| <= |p| && |q| - 1 <= r < |st| && st[r] == p[|q| - 1] && cur[st[r]].next == recs[i].pid
    ensures Within(p[..|q| - 1], st[..r]) && (p == st ==> r == |q| - 1)
  {
    r := WithinAt(p, st, |q| - 1);
  }

  /** What is left of the stack, and everything else, is as it was. */
  lemma UnwoundBelow(recs: seq<Rec>, cur: seq<Rec>, cur': seq<Rec>, p: seq<nat>, st: seq<nat>, i: nat, left: nat)
    requires 1 <= i < |recs| && StackOk(recs, cur, p, st, i) && left <= |st|
    requires Unwound(cur[i := recs[i].(next := Kept(recs, i))], cur', st[left..])
    ensures |cur'| == |cur| && cur'[i] == recs[i].(next := Kept(recs, i)) && Cleared(cur, cur', st, left, i)
    ensures forall k | 0 <= k < left :: cur'[st[k]] == cur[st[k]]
    ensures forall x | 0 <= x < i :: cur'[x] == recs[x].(next := cur'[x].next)
    ensures forall x | i < x < |recs| :: cur'[x] == recs[x]
  {
    hide Within, Kept;
    assert forall k | left <= k < |st| :: st[k] == st[left..][k - left];
    assert i !in st[left..] && forall k | 0 <= k < left :: st[k] !in st[left..];
  }

  /** Replacing the entry whose link leads to record i. */
  lemma ReplaceOk(recs: seq<Rec>, cur: seq<Rec>, cur': seq<Rec>, p: seq<nat>, q: seq<nat>, st: seq<nat>, i: nat, r: nat,
                  left: nat)
    requires 1 <= i < |recs| && StackOk(recs, cur, p, st, i) && Follows(recs, p, q, 0, i, 0) && |q| <= |p|
    requires r < left <= |st| && Within(p[..|q| - 1], st[..r]) && |q| - 1 <= r
    requires Unwound(cur[i := recs[i].(next := Kept(recs, i))], cur', st[left..])
    ensures StackOk(recs, cur', q, st[..left - 1] + [i], i + 1)
    ensures p == st && left == |q| ==> q == st[..left - 1] + [i]
    ensures Cleared(cur, cur', st, left, i)
  {
    hide Within;
    UnwoundBelow(recs, cur, cur', p, st, i, left);
    hide Unwound, Cleared;
    WithinUpTo(p[..|q| - 1], st, r, left - 1);
    WithinPush(p[..|q| - 1], st[..left - 1], i);
  }

  /** On an exact stack the depth comes out right unless a stray link leads to record i. */
  lemma ExactUnless(recs: seq<Rec>, cur: seq<Rec>, p: seq<nat>, q: seq<nat>, i: nat, left: nat)
    requires 1 <= i < |recs| && StackOk(recs, cur, p, p, i) && Follows(recs, p, q, 0, i, 0) && recs[i].pid != 0
             && |q| <= |p|
    requires |q| <= left <= |p| && cur[p[left - 1]].next == recs[i].pid
    requires forall k | left <= k < |p| :: cur[p[k]].next != recs[i].pid
    ensures left == |q| <==> !Stray(recs, p, q, 0, i)
  {
    forall k | 0 <= k < |p| ensures cur[p[k]].next == recs[i].pid <==> recs[p[k]].next == recs[i].pid {
    }
    if left > |q| {
      assert recs[p[left - 1]].next == recs[i].pid;
    }
  }

  /** Before record i, the first one included. */
  ghost predicate Before(recs: seq<Rec>, cur: seq<Rec>, paths: seq<seq<nat>>, st: seq<nat>, i: nat)
    requires i <= |recs| == |paths|
  {
    if i == 0 then st == [] && cur == recs else StackOk(recs, cur, paths[i - 1], st, i)
  }

  lemma FirstOk(recs: seq<Rec>, cur: seq<Rec>)
    requires recs != [] && cur == recs[0 := recs[0].(next := Kept(recs, 0))]
    ensures StackOk(recs, cur, [0], [0], 1)
  {
    WithinSelf([0]);
  }

  /** Apart from record i, exactly the links of the entries popped off the stack have been cleared. */
  ghost predicate Cleared(cur: seq<Rec>, cur': seq<Rec>, st: seq<nat>, left: nat, i: nat) {
    && |cur'| == |cur|
    && forall x | 0 <= x < |cur| && x != i :: cur'[x].next == if left <= |st| && x in st[left..] then 0 else cur[x].next
  }

  /** The records that are off the stack link to their next sibling, or to 0 if they are the last. */
  ghost predicate LinksRight(cur: seq<Rec>, sib: seq<int>, st: seq<nat>, i: nat)
    requires i <= |cur| == |sib|
  {
    forall x | 0 <= x < i && x !in st :: cur[x].next == sib[x]
  }

  lemma LinksStep(recs: seq<Rec>, cur: seq<Rec>, cur': seq<Rec>, sib: seq<int>, p: seq<nat>, q: seq<nat>, i: nat)
    requires 1 <= i < |recs| == |sib| == |cur| && StackOk(recs, cur, p, p, i) && Follows(recs, p, q, 0, i, 0)
             && |q| >= 1
    requires SiblingAt(recs, sib, p, q, 0, i) && LinksRight(cur, sib, p, i) && Cleared(cur, cur', p, |q|, i)
    ensures LinksRight(cur', sib, q, i + 1)
  {
    hide Within, LinksRight, Cleared;
    assert forall k | 0 <= k < |p| :: p[k] < i;
    LinksMoved(cur, cur', sib, p, q, i);
  }

  lemma LinksMoved(cur: seq<Rec>, cur': seq<Rec>, sib: seq<int>, p: seq<nat>, q: seq<nat>, i: nat)
    requires i < |sib| == |cur| && 1 <= |q| <= |p| + 1 && q == p[..|q| - 1] + [i]
             && (forall k | 0 <= k < |p| :: p[k] < i)
    requires forall j, k | 0 <= j < k < |p| :: p[j] < p[k]
    requires |q| <= |p| ==> cur[p[|q| - 1]].next == sib[p[|q| - 1]]
    requires forall m | |q| <= m < |p| :: sib[p[m]] == 0
    requires LinksRight(cur, sib, p, i) && Cleared(cur, cur', p, |q|, i)
    ensures LinksRight(cur', sib, q, i + 1)
  {
    assert q[|q| - 1] == i && forall k | 0 <= k < |q| - 1 :: p[k] == q[k] && p[k] in q;
    forall x | 0 <= x < i + 1 && x !in q ensures cur'[x].next == sib[x] {
      if m :| 0 <= m < |p| && p[m] == x {
        if m >= |q| { assert p[|q|..][m - |q|] == x; } else { assert |q| <= |p| ==> x !in p[|q|..]; }
      } else {
        assert |q| <= |p| ==> x !in p[|q|..];
      }
    }
  }

  /** At the end the links are all right exactly when those on the way down to the last record read 0. */
  lemma LinksEnd(recs: seq<Rec>, cur: seq<Rec>, sib: seq<int>, path: seq<nat>)
    requires recs != [] && |recs| == |sib| == |cur| && StackOk(recs, cur, path, path, |recs|)
             && LinksRight(cur, sib, path, |recs|)
    requires LastOnes(sib, path, 0, 1) && path != [] && path[0] == 0 && sib[0] == 0 && recs[0].next == 0
    requires forall m | 0 <= m < |path| :: path[m] < |recs|
    ensures (forall x | 0 <= x < |recs| :: cur[x].next == sib[x]) <==> SpineQuiet(recs, path, 0, 1)
  {
    hide Within;
    forall m | 0 <= m < |path|
      ensures sib[path[m]] == 0 && cur[path[m]].next == (if m == |path| - 1 then 0 else recs[path[m]].next)
    {
    }
    if SpineQuiet(recs, path, 0, 1) {
      forall x | 0 <= x < |recs| ensures cur[x].next == sib[x] {
        if x in path { var m :| 0 <= m < |path| && path[m] == x; }
      }
    }
    if forall x | 0 <= x < |recs| :: cur[x].next == sib[x] {
      forall m | 1 <= m < |path| - 1 ensures recs[path[m]].next == 0 {
        assert cur[path[m]].next == sib[path[m]];
      }
    }
  }

  /** Record i takes the place of the entry whose link leads to it. */
  method ReplaceRecord(buf: array<Rec>, nr: nat, stack: array<nat>, top: nat, i: nat, ghost recs: seq<Rec>,
                       ghost cur: seq<Rec>, ghost p: seq<nat>, ghost q: seq<nat>)
    returns (left: nat)
    requires 1 <= top <= i < nr == |recs| <= buf.Length && top <= stack.Length
    requires StackOk(recs, cur, p, stack[..top], i) && Follows(recs, p, q, 0, i, 0) && recs[i].pid != 0
    requires buf[..nr] == cur[i := recs[i].(next := Kept(recs, i))]
    requires recs[i].pid != recs[i - 1].first
    modifies buf, stack
    ensures 1 <= |q| <= left <= top && StackOk(recs, buf[..nr], q, stack[..left], i + 1)
    ensures Cleared(cur, buf[..nr], old(stack[..top]), left, i)
    ensures p == old(stack[..top])
            ==> (left == |q| <==> !Stray(recs, p, q, 0, i)) && (left == |q| ==> stack[..left] == q)
  {
    hide Within, Stray, Follows, Unwound, Cleared, StackOk;
    ghost var st := stack[..top];
    StackBounds(recs, cur, p, st, i);
    ghost var r := SiblingOnStack(recs, cur, p, q, st, i);
    assert 1 <= |q| by { FollowsLength(recs, p, q, i); }
    ghost var kept := buf[..nr];
    assert forall k | 0 <= k < top :: stack[k] == st[k] < i && buf[stack[k]] == kept[st[k]] == cur[st[k]];
    left := Unwind(buf, nr, stack, top, buf[i].pid, r);
    assert stack[left..top] == st[left..];
    assert forall k | 0 <= k < top :: cur[st[k]].next == kept[st[k]].next;
    ReplaceOk(recs, cur, buf[..nr], p, q, st, i, r, left);
    if p == st { ExactUnless(recs, cur, p, q, i, left); }
    stack[left - 1] := i;
    assert stack[..left] == st[..left - 1] + [i];
  }

  lemma StackBounds(recs: seq<Rec>, cur: seq<Rec>, p: seq<nat>, st: seq<nat>, i: nat)
    requires 1 <= i <= |recs| && StackOk(recs, cur, p, st, i)
    ensures |cur| == |recs| && (forall k | 0 <= k < |st| :: st[k] < i)
    ensures forall j, k | 0 <= j < k < |st| :: st[j] < st[k]
  {
    hide Within, Kept;
  }

  lemma FollowsLength(recs: seq<Rec>, p: seq<nat>, q: seq<nat>, i: nat)
    requires 1 <= i < |recs| && Follows(recs, p, q, 0, i, 0)
    ensures 1 <= |q| && (|q| <= |p| <==> recs[i - 1].first == 0)
  {
  }

  /** One round of the loop: record i is pushed, or takes the place of the sibling before it. */
  method PlaceRecord(buf: array<Rec>, nr: nat, stack: array<nat>, top: nat, i: nat, ghost recs: seq<Rec>,
                     ghost paths: seq<seq<nat>>)
    returns (left: nat)
    requires top <= i < nr == |recs| == |paths| <= buf.Length && i < stack.Length
             && Before(recs, buf[..nr], paths, stack[..top], i)
    requires if i == 0 then paths[0] == [0] else recs[i].pid != 0 && Follows(recs, paths[i - 1], paths[i], 0, i, 0)
    modifies buf, stack
    ensures 1 <= |paths[i]| <= left <= top + 1 && left <= stack.Length
            && StackOk(recs, buf[..nr], paths[i], stack[..left], i + 1)
    ensures Cleared(old(buf[..nr]), buf[..nr], old(stack[..top]), left, i)
    ensures i == 0 ==> stack[..left] == paths[0]
    ensures i > 0 && paths[i - 1] == old(stack[..top]) ==>
              (left == |paths[i]| <==> !Stray(recs, paths[i - 1], paths[i], 0, i))
                  && (left == |paths[i]| ==> stack[..left] == paths[i])
  {
    hide Within, Stray, Follows;
    ghost var st, cur := stack[..top], buf[..nr];
    BeforeTop(recs, cur, paths, st, i);
    hide StackOk, Before;
    if i == nr - 1 || (buf[i].next != buf[i + 1].pid && buf[i].first != buf[i + 1].pid) {
      buf[i] := buf[i].(next := 0);
    }
    ghost var kept := buf[..nr];
    assert kept == cur[i := recs[i].(next := Kept(recs, i))];
    if top == 0 || buf[i].pid == buf[stack[top - 1]].first {
      PushAny(recs, cur, kept, paths, st, i);
      stack[top] := i;
      left := top + 1;
      assert stack[..left] == st + [i];
    } else {
      left := ReplaceRecord(buf, nr, stack, top, i, recs, cur, paths[i - 1], paths[i]);
    }
  }

  lemma BeforeTop(recs: seq<Rec>, cur: seq<Rec>, paths: seq<seq<nat>>, st: seq<nat>, i: nat)
    requires i < |recs| == |paths| && Before(recs, cur, paths, st, i)
    ensures |cur| == |recs| && (i == 0 <==> st == []) && (forall x | i <= x < |recs| :: cur[x] == recs[x])
    ensures i > 0 ==>
              && StackOk(recs, cur, paths[i - 1], st, i) && st[|st| - 1] == i - 1
              && cur[i - 1] == recs[i - 1].(next := cur[i - 1].next)
  {
  }

  lemma PushAny(recs: seq<Rec>, cur: seq<Rec>, kept: seq<Rec>, paths: seq<seq<nat>>, st: seq<nat>, i: nat)
    requires i < |recs| == |paths| && Before(recs, cur, paths, st, i)
    requires if i == 0 then paths[0] == [0]
             else recs[i].pid != 0 && Follows(recs, paths[i - 1], paths[i], 0, i, 0) && recs[i].pid == recs[i - 1].first
    requires |cur| == |recs| && kept == cur[i := recs[i].(next := Kept(recs, i))]
    ensures 1 <= |paths[i]| <= |st| + 1 && StackOk(recs, kept, paths[i], st + [i], i + 1)
    ensures i == 0 || paths[i - 1] == st ==> st + [i] == paths[i]
    ensures i > 0 ==> !Stray(recs, paths[i - 1], paths[i], 0, i)
  {
    hide Within;
    if i == 0 {
      FirstOk(recs, kept);
      assert st + [i] == [0];
    } else {
      PushOk(recs, cur, kept, paths[i - 1], paths[i], st, i);
      WithinShorter(paths[i], st + [i]);
    }
  }

  lemma TreeFacts(t: Tree, parent: int)
    requires NonZero(t.kids)
    ensures var recs, paths := Preorder(t, parent, 0), Paths(t, 0, []);
            && paths[0] == [0]
            && (forall i | 1 <= i < |recs| :: recs[i].pid != 0 && Follows(recs, paths[i - 1], paths[i], 0, i, 0))
            && (forall i | 0 <= i < |paths| :: |paths[i]| == Depths(t, 0)[i] + 1)
            && (Clean(t, false, None) <==> NoStray(recs, paths, |recs|))
            && (forall i | 1 <= i < |recs| :: SiblingAt(recs, Siblings(t, 0), paths[i - 1], paths[i], 0, i))
  {
    hide Stray, Follows, PathOk, Clean, Preorder, Paths, Depths, SiblingAt, Siblings, LastOnes;
    TreeLayout(t, parent, 0, 0, []);
    TreeSiblings(t, parent, 0, 0, 0, []);
    TreeQuiet(t, false, None, parent, 0, 0, []);
    forall i | 0 <= i < Size(t) ensures |Paths(t, 0, [])[i]| == Depths(t, 0)[i] + 1 { DepthIsPath(t, 0, [], i); }
  }

  lemma LastFacts(t: Tree, parent: int)
    requires NonZero(t.kids)
    ensures var recs, path := Preorder(t, parent, 0), Paths(t, 0, [])[Size(t) - 1];
            && LastOnes(Siblings(t, 0), path, 0, 1) && path != [] && path[0] == 0 && recs[0].next == 0
            && (forall m | 0 <= m < |path| :: path[m] < |recs|)
            && (SpineQuiet(recs, path, 0, 1) <==> SpineClear(t.kids))
  {
    TreeLayout(t, parent, 0, 0, []);
    TreeSiblings(t, parent, 0, 0, 0, []);
    var recs, path := Preorder(t, parent, 0), Paths(t, 0, [])[Size(t) - 1];
    assert PathOk(path, 0, Size(t) - 1, []);
    if t.kids != [] {
      ForestLayout(t.kids, t.pid, 1, [0]);
      assert [] + [0] == [0];
      ForestSpine(t.kids, t.pid, 1, [0]);
      var rest := Forest(t.kids, t.pid);
      assert path == ForestPaths(t.kids, 1, [0])[|rest| - 1];
      LayoutPath(rest, ForestPaths(t.kids, 1, [0]), 1, [0], |rest| - 1);
      SpineNode(Record(t, parent, 0), rest, path, 0, []);
    }
  }

  ghost predicate NoStray(recs: seq<Rec>, paths: seq<seq<nat>>, n: nat)
    requires n <= |recs| == |paths|
  {
    forall i | 1 <= i < n :: !Stray(recs, paths[i - 1], paths[i], 0, i)
  }

  ghost predicate AllRight(paths: seq<seq<nat>>, tabs: seq<int>, n: nat)
    requires n <= |tabs| == |paths|
  {
    forall j | 0 <= j < n :: tabs[j] == |paths[j]| - 1
  }

  /** What the depths found so far say: never too small, and all right exactly when no stray link was met. */
  ghost predicate Judged(exact: bool, recs: seq<Rec>, paths: seq<seq<nat>>, tabs: seq<int>, i: nat)
    requires |recs| == |paths| == |tabs| && i <= |recs|
  {
    && (exact <==> NoStray(recs, paths, i)) && (exact <==> AllRight(paths, tabs, i))
    && (forall j | 0 <= j < i :: tabs[j] >= |paths[j]| - 1)
  }

  lemma JudgedStart(recs: seq<Rec>, paths: seq<seq<nat>>, tabs: seq<int>)
    requires |recs| == |paths| == |tabs|
    ensures Judged(true, recs, paths, tabs, 0)
  {
  }

  lemma NoStrayStep(recs: seq<Rec>, paths: seq<seq<nat>>, i: nat)
    requires i < |recs| == |paths|
    ensures NoStray(recs, paths, i + 1)
            <==> NoStray(recs, paths, i) && (i == 0 || !Stray(recs, paths[i - 1], paths[i], 0, i))
  {
    hide Stray;
    if NoStray(recs, paths, i) && (i == 0 || !Stray(recs, paths[i - 1], paths[i], 0, i)) {
      forall j | 1 <= j < i + 1 ensures !Stray(recs, paths[j - 1], paths[j], 0, j) {
      }
    }
  }

  lemma AllRightStep(paths: seq<seq<nat>>, tabs: seq<int>, i: nat, tab: int)
    requires i < |tabs| == |paths|
    ensures AllRight(paths, tabs[i := tab], i + 1) <==> AllRight(paths, tabs, i) && tab == |paths[i]| - 1
  {
    var tabs' := tabs[i := tab];
    assert tabs'[i] == tab && forall j | 0 <= j < i :: tabs'[j] == tabs[j];
  }

  lemma JudgedStep(exact: bool, recs: seq<Rec>, paths: seq<seq<nat>>, tabs: seq<int>, i: nat, tab: int)
    requires |recs| == |paths| == |tabs| && i < |recs| && Judged(exact, recs, paths, tabs, i)
    requires tab >= |paths[i]| - 1
    requires exact ==> (tab == |paths[i]| - 1 <==> i == 0 || !Stray(recs, paths[i - 1], paths[i], 0, i))
    ensures Judged(exact && (i == 0 || !Stray(recs, paths[i - 1], paths[i], 0, i)), recs, paths, tabs[i := tab], i + 1)
  {
    hide Stray, NoStray, AllRight;
    NoStrayStep(recs, paths, i);
    AllRightStep(paths, tabs, i, tab);
  }

  lemma JudgedEnd(exact: bool, recs: seq<Rec>, paths: seq<seq<nat>>, tabs: seq<int>, t: Tree)
    requires |recs| == |paths| == |tabs| == Size(t) && Judged(exact, recs, paths, tabs, |recs|)
    requires forall i | 0 <= i < |paths| :: |paths[i]| == Depths(t, 0)[i] + 1
    ensures forall i | 0 <= i < |tabs| :: tabs[i] >= Depths(t, 0)[i]
    ensures (forall i | 0 <= i < |tabs| :: tabs[i] == Depths(t, 0)[i]) <==> NoStray(recs, paths, |recs|)
    ensures exact <==> NoStray(recs, paths, |recs|)
  {
    hide NoStray, Depths;
  }

  /** The preprocessing loop of display. */
  method FindDepths(buf: array<Rec>, nr: nat, stack: array<nat>, tabcnt: array<int>, ghost recs: seq<Rec>,
                    ghost paths: seq<seq<nat>>, ghost sib: seq<int>)
    returns (ghost exact: bool)
    requires nr == |recs| == |paths| == |sib| <= stack.Length && nr <= tabcnt.Length && 1 <= nr <= buf.Length
             && buf[..nr] == recs
    requires paths[0] == [0] && forall i | 1 <= i < nr ::
             recs[i].pid != 0 && Follows(recs, paths[i - 1], paths[i], 0, i, 0)
    requires forall i | 1 <= i < nr :: SiblingAt(recs, sib, paths[i - 1], paths[i], 0, i)
    modifies buf, stack, tabcnt
    ensures Judged(exact, recs, paths, tabcnt[..nr], nr)
    ensures exact ==>
              && StackOk(recs, buf[..nr], paths[nr - 1], paths[nr - 1], nr)
              && LinksRight(buf[..nr], sib, paths[nr - 1], nr)
  {
    hide Stray, Follows, StackOk, Judged, LinksRight, SiblingAt, Cleared;
    var top: nat := 0;
    exact := true;
    JudgedStart(recs, paths, tabcnt[..nr]);
    for i := 0 to nr
      invariant top <= i && Before(recs, buf[..nr], paths, stack[..top], i)
      invariant Judged(exact, recs, paths, tabcnt[..nr], i)
      invariant exact && i > 0 ==> stack[..top] == paths[i - 1] && LinksRight(buf[..nr], sib, paths[i - 1], i)
    {
      ghost var tabs, cur := tabcnt[..nr], buf[..nr];
      top := PlaceRecord(buf, nr, stack, top, i, recs, paths);
      tabcnt[i] := top - 1;
      assert tabcnt[..nr] == tabs[i := top - 1];
      JudgedStep(exact, recs, paths, tabs, i, top - 1);
      exact := exact && (i == 0 || !Stray(recs, paths[i - 1], paths[i], 0, i));
      if exact {
        if i == 0 {
          LinksStart(buf[..nr], sib);
        } else {
          LinksStep(recs, cur, buf[..nr], sib, paths[i - 1], paths[i], i);
        }
      }
    }
  }

  lemma LinksStart(cur: seq<Rec>, sib: seq<int>)
    requires 1 <= |cur| == |sib|
    ensures LinksRight(cur, sib, [0], 1)
  {
  }

  /**
    display on the records of a task tree. Every record gets at least its depth, the stack never runs empty, and all
    depths are right exactly when no last sibling has a stray link. The links it leaves behind are then right
    exactly when those on the way down to the last record were.
   */
  method Display(buf: array<Rec>, nr: nat, ghost t: Tree, ghost parent: int) returns (tabcnt: array<int>)
    requires nr == Size(t) <= MAXPROCESSNUMBER && nr <= buf.Length && buf[..nr] == Preorder(t, parent, 0)
             && NonZero(t.kids)
    modifies buf
    ensures fresh(tabcnt) && tabcnt.Length == MAXPROCESSNUMBER
    ensures forall i | 0 <= i < nr :: tabcnt[i] >= Depths(t, 0)[i]
    ensures (forall i | 0 <= i < nr :: tabcnt[i] == Depths(t, 0)[i]) <==> Clean(t, false, None)
    ensures Clean(t, false, None)
            ==> ((forall i | 0 <= i < nr :: buf[i].next == Siblings(t, 0)[i]) <==> SpineClear(t.kids))
  {
    hide Clean, Preorder, Depths, NonZero, Siblings, SpineClear;
    tabcnt := new int[MAXPROCESSNUMBER](_ => 0);
    var stack := new nat[MAXPROCESSNUMBER];
    Preprocess(buf, nr, stack, tabcnt, t, parent);
    assert forall i | 0 <= i < nr :: tabcnt[..nr][i] == tabcnt[i] && buf[..nr][i] == buf[i];
  }

  method Preprocess(buf: array<Rec>, nr: nat, stack: array<nat>, tabcnt: array<int>, ghost t: Tree, ghost parent: int)
    requires nr == Size(t) <= stack.Length && nr <= tabcnt.Length && nr <= buf.Length
             && buf[..nr] == Preorder(t, parent, 0) && NonZero(t.kids)
    modifies buf, stack, tabcnt
    ensures Shown(buf[..nr], tabcnt[..nr], t)
  {
    ghost var recs, paths, sib := Preorder(t, parent, 0), Paths(t, 0, []), Siblings(t, 0);
    hide Stray, Follows, Clean, Preorder, Paths, Depths, Judged, NonZero, SiblingAt, Siblings, StackOk, LinksRight,
         SpineClear, NoStray, Shown;
    TreeFacts(t, parent);
    ghost var exact := FindDepths(buf, nr, stack, tabcnt, recs, paths, sib);
    DisplayEnd(exact, buf[..nr], tabcnt[..nr], t, parent);
  }

  /** What display makes of the records of a tree. */
  ghost predicate Shown(cur: seq<Rec>, tabs: seq<int>, t: Tree)
    requires |cur| == |tabs| == Size(t)
  {
    && (forall i | 0 <= i < |tabs| :: tabs[i] >= Depths(t, 0)[i])
    && ((forall i | 0 <= i < |tabs| :: tabs[i] == Depths(t, 0)[i]) <==> Clean(t, false, None))
    && (Clean(t, false, None)
        ==> ((forall i | 0 <= i < |cur| :: cur[i].next == Siblings(t, 0)[i]) <==> SpineClear(t.kids)))
  }

  /** What the loop leaves behind, in terms of the tree. */
  lemma DisplayEnd(exact: bool, cur: seq<Rec>, tabs: seq<int>, t: Tree, parent: int)
    requires |cur| == |tabs| == Size(t) && NonZero(t.kids)
    requires Judged(exact, Preorder(t, parent, 0), Paths(t, 0, []), tabs, Size(t))
    requires exact ==> var recs, path := Preorder(t, parent, 0), Paths(t, 0, [])[Size(t) - 1];
                       StackOk(recs, cur, path, path, Size(t)) && LinksRight(cur, Siblings(t, 0), path, Size(t))
    ensures Shown(cur, tabs, t)
  {
    hide Stray, Follows, Clean, Preorder, Paths, Depths, Judged, NonZero, SiblingAt, Siblings, StackOk, LinksRight,
         SpineClear, SpineQuiet, LastOnes, NoStray;
    TreeFacts(t, parent);
    JudgedEnd(exact, Preorder(t, parent, 0), Paths(t, 0, []), tabs, t);
    if exact {
      LastFacts(t, parent);
      LinksEnd(Preorder(t, parent, 0), cur, Siblings(t, 0), Paths(t, 0, [])[Size(t) - 1]);
    }
  }

  /** dfs: the records of a task and of everything below it go behind the first `nr` records. */
  method Dfs(t: Tree, parent: int, link: int, buf: array<Rec>, nr: nat) returns (count: nat)
    requires nr + Size(t) <= buf.Length
    modifies buf
    ensures count == nr + Size(t) && buf[..count] == old(buf[..nr]) + Preorder(t, parent, link)
    decreases t
  {
    ghost var was := buf[..nr];
    assert Preorder(t, parent, link) == [Record(t, parent, link)] + Forest(t.kids, t.pid);
    assert Size(t) == 1 + ForestSize(t.kids);
    hide Preorder, Forest, Size, ForestSize;
    buf[nr] := Record(t, parent, link);
    count := nr + 1;
    assert buf[..count] == was + [Record(t, parent, link)];
    assert t.kids[0..] == t.kids;
    Assoc(was, [Record(t, parent, link)], Forest(t.kids, t.pid));
    for k := 0 to |t.kids|
      invariant count + ForestSize(t.kids[k..]) == nr + Size(t)
      invariant buf[..count] + Forest(t.kids[k..], t.pid) == was + Preorder(t, parent, link)
    {
      var rest := t.kids[k..];
      assert rest[0] == t.kids[k] && rest[1..] == t.kids[k + 1..];
      ForestHead(rest, t.pid);
      ghost var before := buf[..count];
      count := Dfs(t.kids[k], t.pid, if k + 1 < |t.kids| then t.kids[k + 1].pid else t.kids[k].raw, buf, count);
      Assoc(before, Preorder(rest[0], t.pid, Link(rest)), Forest(rest[1..], t.pid));
    }
    assert t.kids[|t.kids|..] == [];
    ForestEmpty(t.pid);
  }

  lemma Assoc(a: seq<Rec>, b: seq<Rec>, c: seq<Rec>)
    ensures (a + b) + c == a + (b + c)
  {
  }

  lemma ForestHead(ts: seq<Tree>, parent: int)
    requires ts != []
    ensures Forest(ts, parent) == Preorder(ts[0], parent, Link(ts)) + Forest(ts[1..], parent)
    ensures ForestSize(ts) == Size(ts[0]) + ForestSize(ts[1..])
  {
  }

  lemma ForestEmpty(parent: int)
    ensures Forest([], parent) == [] && ForestSize([]) == 0
  {
  }

  const MAXBUFFERSIZE := 2048

  /** The system call followed by display: the depths shown for a whole task tree. */
  method ShowTree(t: Tree) returns (tabcnt: array<int>)
    requires Size(t) <= MAXPROCESSNUMBER && NonZero(t.kids)
    ensures fresh(tabcnt) && tabcnt.Length == MAXPROCESSNUMBER
    ensures (forall i | 0 <= i < Size(t) :: tabcnt[i] == Depths(t, 0)[i]) <==> Clean(t, false, None)
  {
    hide Preorder, Depths, Clean, NonZero;
    var buf := new Rec[MAXBUFFERSIZE](_ => Rec(0, 0, 0, 0));
    var nr := Dfs(t, 0, 0, buf, 0);
    assert buf[..0] == [];
    tabcnt := Display(buf, nr, t, 0);
  }

  /**
    A stray link is possible: the only child of process 1 links to process 3 and is taken for its sibling, so by Display
    some depth shown for this tree is wrong.
   */
  lemma StrayExample()
    ensures var t := Node(0, 0, [Node(1, 9, [Node(2, 3, [])]), Node(3, 9, [])]);
            NonZero(t.kids) && Size(t) <= MAXPROCESSNUMBER && !Clean(t, false, None)
  {
    var one, three := Node(1, 9, [Node(2, 3, [])]), Node(3, 9, []);
    assert [one, three][1..] == [three] && [three][1..] == [] && one.kids[1..] == [];
    assert !CleanForest(one.kids, Some(3));
    assert !Clean(one, false, Some(3));
    assert ForestSize(one.kids) == 1;
    assert ForestSize([three]) == 1;
    assert ForestSize([one, three]) == 3;
    assert NonZero(one.kids);
    assert NonZero([three]);
  }

  /** And so is a link that is not repaired: process 1 is the last child and has a child itself. */
  lemma UnrepairedExample()
    ensures var t := Node(0, 0, [Node(1, 7, [Node(2, 8, [])])]);
            NonZero(t.kids) && Size(t) <= MAXPROCESSNUMBER && Clean(t, false, None) && !SpineClear(t.kids)
  {
    var two := Node(2, 8, []);
    var one := Node(1, 7, [two]);
    assert CleanForest(one.kids, None);
    assert Clean(one, true, None);
    assert one.kids[1..] == [] && [one][1..] == [];
    assert ForestSize(one.kids) == 1;
    assert NonZero(one.kids);
  }
}
