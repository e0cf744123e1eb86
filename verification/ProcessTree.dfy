/**
  The process tree of ptreemodule.c and ptree.c: the module writes the tree in preorder with links by pid, the
  program recovers the depth of every record from those links with a stack.
 */
module ProcessTree {
  import opened Basics

  /**
    A task and its children, youngest first. `raw` is what the sibling link of the last child reads: the list runs
    back to the head in the parent, which is not a task, so it can be anything.
   */
  datatype Tree = Node(pid: int, raw: int, kids: seq<Tree>)

  /** The links of a prinfo. */
  datatype Rec = Rec(parent: int, pid: int, first: int, next: int)

  /** convert */
  function Record(t: Tree, parent: int, link: int): Rec {
    Rec(parent, t.pid, if t.kids == [] then 0 else t.kids[0].pid, link)
  }

  /** What convert finds as the next sibling of the first of some siblings. */
  function Link(ts: seq<Tree>): int
    requires ts != []
  {
    if |ts| > 1 then ts[1].pid else ts[0].raw
  }

  function Size(t: Tree): nat { 1 + ForestSize(t.kids) }

  function ForestSize(ts: seq<Tree>): nat { if ts == [] then 0 else Size(ts[0]) + ForestSize(ts[1..]) }

  /** The records that dfs writes for a task, and for the children from some child on. */
  function Preorder(t: Tree, parent: int, link: int): (s: seq<Rec>)
    ensures |s| == Size(t) >= 1 && s[0] == Record(t, parent, link)
  {
    [Record(t, parent, link)] + Forest(t.kids, t.pid)
  }

  function Forest(ts: seq<Tree>, parent: int): (s: seq<Rec>)
    ensures |s| == ForestSize(ts)
    ensures ts != [] ==> s != [] && s[0] == Record(ts[0], parent, Link(ts))
  {
    if ts == [] then [] else Preorder(ts[0], parent, Link(ts)) + Forest(ts[1..], parent)
  }

  /** The record numbers on the way from the root to each record; record numbers start at `base`. */
  ghost function Paths(t: Tree, base: nat, prefix: seq<nat>): (s: seq<seq<nat>>)
    ensures |s| == Size(t) >= 1 && s[0] == prefix + [base]
  {
    [prefix + [base]] + ForestPaths(t.kids, base + 1, prefix + [base])
  }

  ghost function ForestPaths(ts: seq<Tree>, base: nat, prefix: seq<nat>): (s: seq<seq<nat>>)
    ensures |s| == ForestSize(ts)
    ensures ts != [] ==> s != [] && s[0] == prefix + [base]
  {
    if ts == [] then [] else Paths(ts[0], base, prefix) + ForestPaths(ts[1..], base + Size(ts[0]), prefix)
  }

  ghost predicate NonZero(ts: seq<Tree>) {
    forall k | 0 <= k < |ts| :: ts[k].pid != 0 && NonZero(ts[k].kids)
  }

  // ---- how neighbours in preorder are linked ----

  /** A path runs inside the records seen so far and ends in its own record. */
  ghost predicate PathOk(path: seq<nat>, base: nat, i: nat, prefix: seq<nat>) {
    && |path| > |prefix| && path[..|prefix|] == prefix && path[|path| - 1] == base + i
    && forall m | |prefix| <= m < |path| :: base <= path[m] <= base + i
  }

  /** Record i is the first child of the record before it, or the next sibling of a record on that one's path. */
  ghost predicate Follows(recs: seq<Rec>, p: seq<nat>, q: seq<nat>, base: nat, i: nat, depth: nat)
    requires 1 <= i < |recs|
  {
    && depth < |q| <= |p| + 1 && q == p[..|q| - 1] + [base + i]
    && (recs[i - 1].first != 0 <==> |q| == |p| + 1)
    && (|q| == |p| + 1 ==> recs[i - 1].first == recs[i].pid)
    && (|q| <= |p| ==> base <= p[|q| - 1] < base + i && recs[p[|q| - 1] - base].next == recs[i].pid)
  }

  ghost predicate Layout(recs: seq<Rec>, paths: seq<seq<nat>>, base: nat, prefix: seq<nat>) {
    && |recs| == |paths|
    && (forall i | 0 <= i < |paths| :: PathOk(paths[i], base, i, prefix))
    && (forall i | 1 <= i < |recs| :: recs[i].pid != 0 && Follows(recs, paths[i - 1], paths[i], base, i, |prefix|))
    && (recs != [] ==> recs[|recs| - 1].first == 0)
  }

  lemma {:induction false} TreeLayout(t: Tree, parent: int, link: int, base: nat, prefix: seq<nat>)
    requires NonZero(t.kids)
    ensures Layout(Preorder(t, parent, link), Paths(t, base, prefix), base, prefix)
    ensures forall i | 0 <= i < Size(t) ::
            |Paths(t, base, prefix)[i]| > |prefix| && Paths(t, base, prefix)[i][|prefix|] == base
    decreases t
  {
    var rest, restPaths := Forest(t.kids, t.pid), ForestPaths(t.kids, base + 1, prefix + [base]);
    ForestLayout(t.kids, t.pid, base + 1, prefix + [base]);
    LayoutNode(Record(t, parent, link), rest, restPaths, base, prefix);
  }

  /** A record before the forest of its children. */
  lemma LayoutNode(r: Rec, rest: seq<Rec>, restPaths: seq<seq<nat>>, base: nat, prefix: seq<nat>)
    requires Layout(rest, restPaths, base + 1, prefix + [base])
    requires if rest == [] then r.first == 0
             else r.first == rest[0].pid != 0 && restPaths[0] == prefix + [base] + [base + 1]
    ensures Layout([r] + rest, [prefix + [base]] + restPaths, base, prefix)
    ensures forall i | 0 <= i <= |rest| ::
            |([prefix + [base]] + restPaths)[i]| > |prefix| && ([prefix + [base]] + restPaths)[i][|prefix|] == base
  {
    var recs, paths := [r] + rest, [prefix + [base]] + restPaths;
    forall i | 0 <= i < |paths| ensures PathOk(paths[i], base, i, prefix) && paths[i][|prefix|] == base {
      if i > 0 {
        var path := paths[i];
        assert PathOk(restPaths[i - 1], base + 1, i - 1, prefix + [base]);
        assert path[..|prefix|] == path[..|prefix| + 1][..|prefix|] == prefix;
        assert path[|prefix|] == path[..|prefix| + 1][|prefix|] == base;
      }
    }
    forall i | 1 <= i < |recs| ensures recs[i].pid != 0 && Follows(recs, paths[i - 1], paths[i], base, i, |prefix|) {
      if i > 1 {
        assert Follows(rest, restPaths[i - 2], restPaths[i - 1], base + 1, i - 1, |prefix| + 1);
      }
    }
  }

  lemma {:induction false} ForestLayout(ts: seq<Tree>, parent: int, base: nat, prefix: seq<nat>)
    requires NonZero(ts)
    ensures Layout(Forest(ts, parent), ForestPaths(ts, base, prefix), base, prefix)
    decreases ts
  {
    if ts != [] {
      var a, aPaths := Preorder(ts[0], parent, Link(ts)), Paths(ts[0], base, prefix);
      TreeLayout(ts[0], parent, Link(ts), base, prefix);
      var b, bPaths := Forest(ts[1..], parent), ForestPaths(ts[1..], base + Size(ts[0]), prefix);
      ForestLayout(ts[1..], parent, base + Size(ts[0]), prefix);
      LayoutConcat(a, aPaths, b, bPaths, base, prefix);
    }
  }

  /** A tree before the trees of the siblings behind it. */
  lemma LayoutConcat(a: seq<Rec>, aPaths: seq<seq<nat>>, b: seq<Rec>, bPaths: seq<seq<nat>>, base: nat,
                     prefix: seq<nat>)
    requires a != [] && Layout(a, aPaths, base, prefix) && Layout(b, bPaths, base + |a|, prefix)
    requires aPaths[|a| - 1][|prefix|] == base
    requires b != [] ==> b[0].pid != 0 && a[0].next == b[0].pid && bPaths[0] == prefix + [base + |a|]
    ensures Layout(a + b, aPaths + bPaths, base, prefix)
  {
    var recs, paths, n := a + b, aPaths + bPaths, |a|;
    forall i | 0 <= i < |paths| ensures PathOk(paths[i], base, i, prefix) {
      if i < n {
        assert PathOk(aPaths[i], base, i, prefix);
      } else {
        assert PathOk(bPaths[i - n], base + n, i - n, prefix);
      }
    }
    forall i | 1 <= i < |recs| ensures recs[i].pid != 0 && Follows(recs, paths[i - 1], paths[i], base, i, |prefix|) {
      if i < n {
        assert Follows(a, aPaths[i - 1], aPaths[i], base, i, |prefix|);
      } else if i == n {
        assert PathOk(aPaths[n - 1], base, n - 1, prefix);
      } else {
        assert Follows(b, bPaths[i - n - 1], bPaths[i - n], base + n, i - n, |prefix|);
      }
    }
  }

  // ---- stray links ----

  /**
    The last of some siblings does not happen to link to `after`, the pid of the record that follows its whole
    subtree, and neither does any last sibling below.
   */
  ghost predicate Clean(t: Tree, last: bool, after: Option<int>) {
    (last ==> Some(t.raw) != after) && CleanForest(t.kids, after)
  }

  ghost predicate CleanForest(ts: seq<Tree>, after: Option<int>) {
    if ts == [] then true
    else if |ts| == 1 then Clean(ts[0], true, after)
    else Clean(ts[0], false, Some(ts[1].pid)) && CleanForest(ts[1..], after)
  }

  /** A record that ends just before record i, other than its previous sibling, links to it. */
  ghost predicate Stray(recs: seq<Rec>, p: seq<nat>, q: seq<nat>, base: nat, i: nat)
    requires i < |recs|
  {
    exists m :: |q| <= m < |p| && base <= p[m] < base + |recs| && recs[p[m] - base].next == recs[i].pid
  }

  ghost predicate Quiet(recs: seq<Rec>, paths: seq<seq<nat>>, base: nat)
    requires |recs| == |paths|
  {
    forall i | 1 <= i < |recs| :: !Stray(recs, paths[i - 1], paths[i], base, i)
  }

  /** No record on the way down to the last one, from depth `from` on, links to `after`. */
  ghost predicate QuietEnd(recs: seq<Rec>, path: seq<nat>, base: nat, from: nat, after: Option<int>) {
    after.Some? ==> forall m | from <= m < |path| && base <= path[m] < base + |recs| ::
        recs[path[m] - base].next != after.value
  }

  lemma QuietNode(r: Rec, rest: seq<Rec>, restPaths: seq<seq<nat>>, base: nat, prefix: seq<nat>)
    requires Layout(rest, restPaths, base + 1, prefix + [base])
    requires rest != [] ==> restPaths[0] == prefix + [base] + [base + 1]
    ensures Quiet([r] + rest, [prefix + [base]] + restPaths, base) <==> Quiet(rest, restPaths, base + 1)
  {
    var recs, paths := [r] + rest, [prefix + [base]] + restPaths;
    forall i | 2 <= i < |recs|
      ensures Stray(recs, paths[i - 1], paths[i], base, i)
              <==> Stray(rest, restPaths[i - 2], restPaths[i - 1], base + 1, i - 1)
    {
      var p, q := paths[i - 1], paths[i];
      assert PathOk(restPaths[i - 2], base + 1, i - 2, prefix + [base])
          && PathOk(restPaths[i - 1], base + 1, i - 1, prefix + [base]);
      forall m | |q| <= m < |p| ensures p[m] >= base + 1 && recs[p[m] - base] == rest[p[m] - (base + 1)] {
        assert base + 1 <= restPaths[i - 2][m] <= base + 1 + (i - 2);
      }
    }
    if Quiet(rest, restPaths, base + 1) {
      forall i | 1 <= i < |recs| ensures !Stray(recs, paths[i - 1], paths[i], base, i) {
        if i > 1 { assert !Stray(rest, restPaths[i - 2], restPaths[i - 1], base + 1, i - 1); }
      }
    }
    if Quiet(recs, paths, base) {
      forall i | 1 <= i < |rest| ensures !Stray(rest, restPaths[i - 1], restPaths[i], base + 1, i) {
        assert !Stray(recs, paths[i], paths[i + 1], base, i + 1);
      }
    }
  }

  lemma {:induction false} TreeQuiet(t: Tree, last: bool, after: Option<int>, parent: int, link: int, base: nat,
                                     prefix: seq<nat>)
    requires NonZero(t.kids) && (last ==> link == t.raw)
    ensures var recs, paths := Preorder(t, parent, link), Paths(t, base, prefix);
            Clean(t, last, after) <==>
              Quiet(recs, paths, base)
                  && QuietEnd(recs, paths[|paths| - 1], base, if last then |prefix| else |prefix| + 1, after)
    decreases t
  {
    var r, rest, restPaths := Record(t, parent, link), Forest(t.kids, t.pid),
        ForestPaths(t.kids, base + 1, prefix + [base]);
    ForestLayout(t.kids, t.pid, base + 1, prefix + [base]);
    QuietNode(r, rest, restPaths, base, prefix);
    if t.kids == [] {
      EndLeaf(r, base, prefix, after, last);
    } else {
      ForestQuiet(t.kids, after, t.pid, base + 1, prefix + [base]);
      EndNode(r, rest, restPaths[|rest| - 1], base, prefix, after, last);
    }
  }

  lemma EndLeaf(r: Rec, base: nat, prefix: seq<nat>, after: Option<int>, last: bool)
    ensures QuietEnd([r], prefix + [base], base, if last then |prefix| else |prefix| + 1, after)
            <==> (last ==> Some(r.next) != after)
  {
    assert (prefix + [base])[|prefix|] == base;
  }

  lemma LayoutPath(recs: seq<Rec>, paths: seq<seq<nat>>, base: nat, prefix: seq<nat>, i: nat)
    requires Layout(recs, paths, base, prefix) && i < |recs|
    ensures |paths| == |recs| && PathOk(paths[i], base, i, prefix)
  {
  }

  lemma EndNode(r: Rec, rest: seq<Rec>, path: seq<nat>, base: nat, prefix: seq<nat>, after: Option<int>, last: bool)
    requires rest != [] && PathOk(path, base + 1, |rest| - 1, prefix + [base])
    ensures QuietEnd([r] + rest, path, base, if last then |prefix| else |prefix| + 1, after)
       <==> (last ==> Some(r.next) != after) && QuietEnd(rest, path, base + 1, |prefix| + 1, after)
  {
    var recs := [r] + rest;
    assert path[|prefix|] == path[..|prefix| + 1][|prefix|] == base;
    forall m | |prefix| + 1 <= m < |path|
      ensures base + 1 <= path[m] < base + 1 + |rest| && recs[path[m] - base] == rest[path[m] - (base + 1)]
    {
    }
  }

  lemma {:induction false} ForestQuiet(ts: seq<Tree>, after: Option<int>, parent: int, base: nat, prefix: seq<nat>)
    requires ts != [] && NonZero(ts)
    ensures var recs, paths := Forest(ts, parent), ForestPaths(ts, base, prefix);
            CleanForest(ts, after)
            <==> Quiet(recs, paths, base) && QuietEnd(recs, paths[|paths| - 1], base, |prefix|, after)
    decreases ts
  {
    hide Layout, Quiet, QuietEnd, PathOk, Preorder, Paths, Clean, Record, NonZero, Size;
    var a, aPaths := Preorder(ts[0], parent, Link(ts)), Paths(ts[0], base, prefix);
    var b, bPaths := Forest(ts[1..], parent), ForestPaths(ts[1..], base + Size(ts[0]), prefix);
    assert Forest(ts, parent) == a + b && ForestPaths(ts, base, prefix) == aPaths + bPaths;
    assert NonZero(ts[0].kids) && NonZero(ts[1..]) by { NonZeroParts(ts); }
    if |ts| == 1 {
      assert a + b == a && aPaths + bPaths == aPaths;
      hide Forest, ForestPaths;
      TreeQuiet(ts[0], true, after, parent, Link(ts), base, prefix);
    } else {
      hide Forest, ForestPaths;
      TreeQuiet(ts[0], false, Some(ts[1].pid), parent, Link(ts), base, prefix);
      ForestQuiet(ts[1..], after, parent, base + Size(ts[0]), prefix);
      TreeLayout(ts[0], parent, Link(ts), base, prefix);
      ForestLayout(ts[1..], parent, base + Size(ts[0]), prefix);
      assert b[0].pid == ts[1].pid by { RecordPid(ts[1..], parent); }
      QuietBoth(a, aPaths, b, bPaths, base, prefix, after);
    }
  }

  lemma QuietBoth(a: seq<Rec>, aPaths: seq<seq<nat>>, b: seq<Rec>, bPaths: seq<seq<nat>>, base: nat, prefix: seq<nat>,
                  after: Option<int>)
    requires a != [] && Layout(a, aPaths, base, prefix) && b != [] && Layout(b, bPaths, base + |a|, prefix)
    requires |a| == |aPaths| && |b| == |bPaths| && bPaths[0] == prefix + [base + |a|]
    ensures Quiet(a + b, aPaths + bPaths, base)
            && QuietEnd(a + b, (aPaths + bPaths)[|a| + |b| - 1], base, |prefix|, after)
       <==> && Quiet(a, aPaths, base) && QuietEnd(a, aPaths[|a| - 1], base, |prefix| + 1, Some(b[0].pid))
            && Quiet(b, bPaths, base + |a|) && QuietEnd(b, bPaths[|b| - 1], base + |a|, |prefix|, after)
  {
    hide Layout, Quiet, QuietEnd, PathOk;
    LayoutPath(b, bPaths, base + |a|, prefix, |b| - 1);
    QuietConcat(a, aPaths, b, bPaths, base, prefix);
    EndConcat(a, b, bPaths[|b| - 1], base, prefix, after);
  }

  lemma NonZeroParts(ts: seq<Tree>)
    requires ts != [] && NonZero(ts)
    ensures NonZero(ts[0].kids) && NonZero(ts[1..])
  {
  }

  lemma RecordPid(ts: seq<Tree>, parent: int)
    requires ts != []
    ensures Forest(ts, parent) != [] && Forest(ts, parent)[0].pid == ts[0].pid
  {
  }

  lemma EndConcat(a: seq<Rec>, b: seq<Rec>, path: seq<nat>, base: nat, prefix: seq<nat>, after: Option<int>)
    requires b != [] && PathOk(path, base + |a|, |b| - 1, prefix)
    ensures QuietEnd(a + b, path, base, |prefix|, after) <==> QuietEnd(b, path, base + |a|, |prefix|, after)
  {
    forall m | |prefix| <= m < |path|
      ensures base + |a| <= path[m] < base + |a| + |b| && (a + b)[path[m] - base] == b[path[m] - (base + |a|)]
    {
    }
  }

  lemma QuietConcat(a: seq<Rec>, aPaths: seq<seq<nat>>, b: seq<Rec>, bPaths: seq<seq<nat>>, base: nat, prefix: seq<nat>)
    requires a != [] && Layout(a, aPaths, base, prefix) && b != [] && Layout(b, bPaths, base + |a|, prefix)
    requires bPaths[0] == prefix + [base + |a|]
    ensures Quiet(a + b, aPaths + bPaths, base)
       <==> && Quiet(a, aPaths, base) && Quiet(b, bPaths, base + |a|)
            && QuietEnd(a, aPaths[|a| - 1], base, |prefix| + 1, Some(b[0].pid))
  {
    hide Stray, PathOk, Follows, QuietEnd;
    var recs, paths, n := a + b, aPaths + bPaths, |a|;
    forall i | 1 <= i < n
      ensures Stray(recs, paths[i - 1], paths[i], base, i) <==> Stray(a, aPaths[i - 1], aPaths[i], base, i)
    {
      PathLength(aPaths[i], base, i, prefix);
      StrayLeft(a, b, aPaths[i - 1], aPaths[i], base, i, prefix);
    }
    forall i | n < i < |recs|
      ensures Stray(recs, paths[i - 1], paths[i], base, i)
              <==> Stray(b, bPaths[i - n - 1], bPaths[i - n], base + n, i - n)
    {
      PathLength(bPaths[i - n], base + n, i - n, prefix);
      StrayRight(a, b, bPaths[i - n - 1], bPaths[i - n], base, i - n, prefix);
    }
    assert Stray(recs, paths[n - 1], paths[n], base, n)
        <==> !QuietEnd(a, aPaths[n - 1], base, |prefix| + 1, Some(b[0].pid)) by {
      StrayBetween(a, b, aPaths[n - 1], bPaths[0], base, prefix);
    }
    QuietSplit(recs, paths, base, n);
    QuietSame(recs, paths, a, aPaths, base);
    QuietShift(recs, paths, b, bPaths, base, n);
  }

  lemma PathLength(path: seq<nat>, base: nat, i: nat, prefix: seq<nat>)
    requires PathOk(path, base, i, prefix)
    ensures |path| > |prefix|
  {
  }

  lemma QuietSame(recs: seq<Rec>, paths: seq<seq<nat>>, a: seq<Rec>, aPaths: seq<seq<nat>>, base: nat)
    requires |recs| == |paths| && |a| == |aPaths| < |recs|
    requires forall i | 1 <= i < |a| ::
               Stray(recs, paths[i - 1], paths[i], base, i) <==> Stray(a, aPaths[i - 1], aPaths[i], base, i)
    ensures Quiet(a, aPaths, base) <==> forall i | 1 <= i < |a| :: !Stray(recs, paths[i - 1], paths[i], base, i)
  {
    hide Stray;
  }

  lemma QuietSplit(recs: seq<Rec>, paths: seq<seq<nat>>, base: nat, n: nat)
    requires |recs| == |paths| && 1 <= n < |recs|
    ensures Quiet(recs, paths, base) <==>
              && (forall i | 1 <= i < n :: !Stray(recs, paths[i - 1], paths[i], base, i))
              && !Stray(recs, paths[n - 1], paths[n], base, n)
              && (forall i | n < i < |recs| :: !Stray(recs, paths[i - 1], paths[i], base, i))
  {
    hide Stray;
  }

  lemma QuietShift(recs: seq<Rec>, paths: seq<seq<nat>>, b: seq<Rec>, bPaths: seq<seq<nat>>, base: nat, n: nat)
    requires |recs| == |paths| == n + |b| && |b| == |bPaths| && b != [] && n >= 1
    requires forall i | n < i < |recs| ::
               Stray(recs, paths[i - 1], paths[i], base, i)
               <==> Stray(b, bPaths[i - n - 1], bPaths[i - n], base + n, i - n)
    ensures Quiet(b, bPaths, base + n) <==> forall i | n < i < |recs| :: !Stray(recs, paths[i - 1], paths[i], base, i)
  {
    hide Stray;
    if forall i | n < i < |recs| :: !Stray(recs, paths[i - 1], paths[i], base, i) {
      forall j | 1 <= j < |b| ensures !Stray(b, bPaths[j - 1], bPaths[j], base + n, j) {
        var i := j + n;
        assert !Stray(recs, paths[i - 1], paths[i], base, i);
      }
    }
  }

  lemma StrayLeft(a: seq<Rec>, b: seq<Rec>, p: seq<nat>, q: seq<nat>, base: nat, i: nat, prefix: seq<nat>)
    requires 1 <= i < |a| && PathOk(p, base, i - 1, prefix) && |q| > |prefix|
    ensures Stray(a + b, p, q, base, i) <==> Stray(a, p, q, base, i)
  {
    forall m | |q| <= m < |p| ensures base <= p[m] < base + |a| && (a + b)[p[m] - base] == a[p[m] - base] {
    }
  }

  lemma StrayRight(a: seq<Rec>, b: seq<Rec>, p: seq<nat>, q: seq<nat>, base: nat, i: nat, prefix: seq<nat>)
    requires 1 <= i < |b| && PathOk(p, base + |a|, i - 1, prefix) && |q| > |prefix|
    ensures Stray(a + b, p, q, base, i + |a|) <==> Stray(b, p, q, base + |a|, i)
  {
    forall m | |q| <= m < |p|
      ensures base + |a| <= p[m] < base + |a| + |b| && (a + b)[p[m] - base] == b[p[m] - (base + |a|)]
    {
    }
  }

  lemma StrayBetween(a: seq<Rec>, b: seq<Rec>, p: seq<nat>, q: seq<nat>, base: nat, prefix: seq<nat>)
    requires a != [] && b != [] && PathOk(p, base, |a| - 1, prefix) && |q| == |prefix| + 1
    ensures Stray(a + b, p, q, base, |a|) <==> !QuietEnd(a, p, base, |prefix| + 1, Some(b[0].pid))
  {
    forall m | |q| <= m < |p| ensures base <= p[m] < base + |a| && (a + b)[p[m] - base] == a[p[m] - base] {
    }
  }

  // ---- depths ----

  /** The depth of each record, the root being at depth `d`. */
  ghost function Depths(t: Tree, d: nat): (s: seq<nat>)
    ensures |s| == Size(t)
  {
    [d] + ForestDepths(t.kids, d + 1)
  }

  ghost function ForestDepths(ts: seq<Tree>, d: nat): (s: seq<nat>)
    ensures |s| == ForestSize(ts)
  {
    if ts == [] then [] else Depths(ts[0], d) + ForestDepths(ts[1..], d)
  }

  lemma {:induction false} DepthIsPath(t: Tree, base: nat, prefix: seq<nat>, i: nat)
    requires i < Size(t)
    ensures |Paths(t, base, prefix)[i]| == Depths(t, |prefix|)[i] + 1
    decreases t
  {
    if i > 0 { ForestDepthIsPath(t.kids, base + 1, prefix + [base], i - 1); }
  }

  lemma {:induction false} ForestDepthIsPath(ts: seq<Tree>, base: nat, prefix: seq<nat>, i: nat)
    requires i < ForestSize(ts)
    ensures |ForestPaths(ts, base, prefix)[i]| == ForestDepths(ts, |prefix|)[i] + 1
    decreases ts
  {
    if i < Size(ts[0]) {
      DepthIsPath(ts[0], base, prefix, i);
    } else {
      ForestDepthIsPath(ts[1..], base + Size(ts[0]), prefix, i - Size(ts[0]));
    }
  }

  // ---- true sibling links ----

  /** The pid of the next sibling of each record, or 0 for the last one; `link` is that of the root. */
  ghost function Siblings(t: Tree, link: int): (s: seq<int>)
    ensures |s| == Size(t) >= 1 && s[0] == link
  {
    [link] + ForestSiblings(t.kids)
  }

  ghost function ForestSiblings(ts: seq<Tree>): (s: seq<int>)
    ensures |s| == ForestSize(ts)
  {
    if ts == [] then [] else Siblings(ts[0], if |ts| > 1 then ts[1].pid else 0) + ForestSiblings(ts[1..])
  }

  /** Record i is the next sibling of one record on the path before it, and the records below that one have none. */
  ghost predicate SiblingAt(recs: seq<Rec>, sib: seq<int>, p: seq<nat>, q: seq<nat>, base: nat, i: nat)
    requires i < |recs| == |sib|
  {
    1 <= |q| <= |p| ==>
      && (base <= p[|q| - 1] < base + |recs| ==> sib[p[|q| - 1] - base] == recs[i].pid)
      && (forall m | |q| <= m < |p| && base <= p[m] < base + |recs| :: sib[p[m] - base] == 0)
  }

  ghost predicate SiblingsOk(recs: seq<Rec>, sib: seq<int>, paths: seq<seq<nat>>, base: nat) {
    |recs| == |sib| == |paths| && forall i | 1 <= i < |recs| :: SiblingAt(recs, sib, paths[i - 1], paths[i], base, i)
  }

  /** From depth `from` on, the records on the way down to the last one have no next sibling. */
  ghost predicate LastOnes(sib: seq<int>, path: seq<nat>, base: nat, from: nat) {
    forall m | from <= m < |path| && base <= path[m] < base + |sib| :: sib[path[m] - base] == 0
  }

  lemma {:induction false} TreeSiblings(t: Tree, parent: int, link: int, own: int, base: nat, prefix: seq<nat>)
    requires NonZero(t.kids)
    ensures SiblingsOk(Preorder(t, parent, link), Siblings(t, own), Paths(t, base, prefix), base)
    ensures LastOnes(Siblings(t, own), Paths(t, base, prefix)[Size(t) - 1], base, |prefix| + 1)
    decreases t
  {
    hide SiblingsOk, LastOnes, PathOk, Follows;
    var r, rest, restPaths := Record(t, parent, link), Forest(t.kids, t.pid),
        ForestPaths(t.kids, base + 1, prefix + [base]);
    ForestLayout(t.kids, t.pid, base + 1, prefix + [base]);
    ForestSiblingsOk(t.kids, t.pid, base + 1, prefix + [base]);
    SiblingsNode(r, rest, own, ForestSiblings(t.kids), restPaths, base, prefix);
  }

  lemma SiblingsNode(r: Rec, rest: seq<Rec>, own: int, sib: seq<int>, restPaths: seq<seq<nat>>, base: nat,
                     prefix: seq<nat>)
    requires Layout(rest, restPaths, base + 1, prefix + [base]) && SiblingsOk(rest, sib, restPaths, base + 1)
    requires rest != [] ==>
               && restPaths[0] == prefix + [base] + [base + 1]
               && LastOnes(sib, restPaths[|rest| - 1], base + 1, |prefix| + 1)
    ensures SiblingsOk([r] + rest, [own] + sib, [prefix + [base]] + restPaths, base)
    ensures LastOnes([own] + sib, ([prefix + [base]] + restPaths)[|rest|], base, |prefix| + 1)
  {
    var recs, sib', paths := [r] + rest, [own] + sib, [prefix + [base]] + restPaths;
    forall i | 1 <= i < |recs| ensures SiblingAt(recs, sib', paths[i - 1], paths[i], base, i) {
      if i > 1 {
        var p, q := paths[i - 1], paths[i];
        assert SiblingAt(rest, sib, restPaths[i - 2], restPaths[i - 1], base + 1, i - 1);
        assert PathOk(restPaths[i - 2], base + 1, i - 2, prefix + [base])
            && PathOk(restPaths[i - 1], base + 1, i - 1, prefix + [base]);
        assert forall m | |q| - 1 <= m < |p| :: p[m] >= base + 1;
      }
    }
    if rest != [] {
      assert PathOk(restPaths[|rest| - 1], base + 1, |rest| - 1, prefix + [base]);
    }
  }

  lemma {:induction false} ForestSiblingsOk(ts: seq<Tree>, parent: int, base: nat, prefix: seq<nat>)
    requires NonZero(ts)
    ensures SiblingsOk(Forest(ts, parent), ForestSiblings(ts), ForestPaths(ts, base, prefix), base)
    ensures ts != [] ==> LastOnes(ForestSiblings(ts), ForestPaths(ts, base, prefix)[ForestSize(ts) - 1], base, |prefix|)
    decreases ts
  {
    hide Layout, PathOk, LastOnes, SiblingAt;
    if ts != [] {
      var own := if |ts| > 1 then ts[1].pid else 0;
      var a, aSib, aPaths := Preorder(ts[0], parent, Link(ts)), Siblings(ts[0], own), Paths(ts[0], base, prefix);
      var b, bSib, bPaths := Forest(ts[1..], parent), ForestSiblings(ts[1..]),
          ForestPaths(ts[1..], base + Size(ts[0]), prefix);
      TreeSiblings(ts[0], parent, Link(ts), own, base, prefix);
      TreeLayout(ts[0], parent, Link(ts), base, prefix);
      ForestSiblingsOk(ts[1..], parent, base + Size(ts[0]), prefix);
      ForestLayout(ts[1..], parent, base + Size(ts[0]), prefix);
      hide SiblingsOk;
      SiblingsConcat(a, aSib, aPaths, b, bSib, bPaths, base, prefix);
    }
  }

  lemma SiblingsConcat(a: seq<Rec>, aSib: seq<int>, aPaths: seq<seq<nat>>, b: seq<Rec>, bSib: seq<int>,
                       bPaths: seq<seq<nat>>, base: nat, prefix: seq<nat>)
    requires a != [] && Layout(a, aPaths, base, prefix) && SiblingsOk(a, aSib, aPaths, base)
    requires Layout(b, bPaths, base + |a|, prefix) && SiblingsOk(b, bSib, bPaths, base + |a|)
    requires LastOnes(aSib, aPaths[|a| - 1], base, |prefix| + 1) && aPaths[|a| - 1][|prefix|] == base
    requires if b == [] then aSib[0] == 0
             else && aSib[0] == b[0].pid && bPaths[0] == prefix + [base + |a|]
                  && LastOnes(bSib, bPaths[|b| - 1], base + |a|, |prefix|)
    ensures SiblingsOk(a + b, aSib + bSib, aPaths + bPaths, base)
    ensures LastOnes(aSib + bSib, (aPaths + bPaths)[|a| + |b| - 1], base, |prefix|)
  {
    var recs, sib, paths, n := a + b, aSib + bSib, aPaths + bPaths, |a|;
    forall i | 1 <= i < |recs| ensures SiblingAt(recs, sib, paths[i - 1], paths[i], base, i) {
      if i <= n {
        assert PathOk(aPaths[i - 1], base, i - 1, prefix);
        if i < n {
          assert SiblingAt(a, aSib, aPaths[i - 1], aPaths[i], base, i);
          assert PathOk(aPaths[i], base, i, prefix);
        }
      } else {
        assert SiblingAt(b, bSib, bPaths[i - n - 1], bPaths[i - n], base + n, i - n);
        assert PathOk(bPaths[i - n - 1], base + n, i - n - 1, prefix) && PathOk(bPaths[i - n], base + n, i - n, prefix);
      }
    }
    if b == [] {
      assert PathOk(aPaths[n - 1], base, n - 1, prefix);
    } else {
      assert PathOk(bPaths[|b| - 1], base + n, |b| - 1, prefix);
    }
  }

  // ---- the way down to the last record ----

  /** Below the root, every last child that has children of its own, down to the last record, reads the link 0. */
  ghost predicate SpineClear(ts: seq<Tree>) {
    if ts == [] then true
    else if |ts| > 1 then SpineClear(ts[1..])
    else (ts[0].kids != [] ==> ts[0].raw == 0) && SpineClear(ts[0].kids)
  }

  /** The same in terms of the records on that way. */
  ghost predicate SpineQuiet(recs: seq<Rec>, path: seq<nat>, base: nat, from: nat) {
    forall m | from <= m < |path| - 1 && base <= path[m] < base + |recs| :: recs[path[m] - base].next == 0
  }

  lemma {:induction false} ForestSpine(ts: seq<Tree>, parent: int, base: nat, prefix: seq<nat>)
    requires ts != [] && NonZero(ts)
    ensures SpineClear(ts)
            <==> SpineQuiet(Forest(ts, parent), ForestPaths(ts, base, prefix)[ForestSize(ts) - 1], base, |prefix|)
    decreases ts
  {
    hide SpineQuiet, Layout, PathOk;
    var a, aPaths := Preorder(ts[0], parent, Link(ts)), Paths(ts[0], base, prefix);
    var b, bPaths := Forest(ts[1..], parent), ForestPaths(ts[1..], base + Size(ts[0]), prefix);
    if |ts| == 1 {
      assert a + b == a && aPaths + bPaths == aPaths;
      var kids := ts[0].kids;
      var rest, restPaths := Forest(kids, ts[0].pid), ForestPaths(kids, base + 1, prefix + [base]);
      if kids != [] {
        ForestSpine(kids, ts[0].pid, base + 1, prefix + [base]);
        ForestLayout(kids, ts[0].pid, base + 1, prefix + [base]);
        hide Forest, ForestPaths;
        LayoutPath(rest, restPaths, base + 1, prefix + [base], |rest| - 1);
        SpineNode(Record(ts[0], parent, Link(ts)), rest, restPaths[|rest| - 1], base, prefix);
      } else {
        SpineLeaf(a, base, prefix);
      }
    } else {
      ForestSpine(ts[1..], parent, base + Size(ts[0]), prefix);
      ForestLayout(ts[1..], parent, base + Size(ts[0]), prefix);
      hide Forest, ForestPaths;
      LayoutPath(b, bPaths, base + Size(ts[0]), prefix, |b| - 1);
      SpineConcat(a, b, bPaths[|b| - 1], base, prefix);
    }
  }

  lemma SpineLeaf(recs: seq<Rec>, base: nat, prefix: seq<nat>)
    ensures SpineQuiet(recs, prefix + [base], base, |prefix|)
  {
  }

  lemma SpineNode(r: Rec, rest: seq<Rec>, path: seq<nat>, base: nat, prefix: seq<nat>)
    requires rest != [] && PathOk(path, base + 1, |rest| - 1, prefix + [base])
    ensures SpineQuiet([r] + rest, path, base, |prefix|)
            <==> r.next == 0 && SpineQuiet(rest, path, base + 1, |prefix| + 1)
  {
    assert path[|prefix|] == path[..|prefix| + 1][|prefix|] == base;
    forall m | |prefix| + 1 <= m < |path| ensures ([r] + rest)[path[m] - base] == rest[path[m] - (base + 1)] {
    }
  }

  lemma SpineConcat(a: seq<Rec>, b: seq<Rec>, path: seq<nat>, base: nat, prefix: seq<nat>)
    requires b != [] && PathOk(path, base + |a|, |b| - 1, prefix)
    ensures SpineQuiet(a + b, path, base, |prefix|) <==> SpineQuiet(b, path, base + |a|, |prefix|)
  {
    forall m | |prefix| <= m < |path| ensures (a + b)[path[m] - base] == b[path[m] - (base + |a|)] {
    }
  }
}
