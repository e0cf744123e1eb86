/** Lists of requests ordered by a key: the sector in the sort lists, the expiry time in the fifos. */
module KeyedLists {

  import opened Basics

  datatype Entry = Entry(id: nat, key: nat)

  function Ids(s: seq<Entry>): set<nat> {
    if s == [] then {} else {s[0].id} + Ids(s[1..])
  }

  ghost predicate Unique(s: seq<Entry>) {
    s == [] || (s[0].id !in Ids(s[1..]) && Unique(s[1..]))
  }

  ghost predicate Ordered(s: seq<Entry>) {
    s == [] || (AllAtLeast(s[1..], s[0].key) && Ordered(s[1..]))
  }

  ghost predicate AllAtLeast(s: seq<Entry>, k: nat) {
    forall i | 0 <= i < |s| :: s[i].key >= k
  }

  ghost predicate AllAtMost(s: seq<Entry>, k: nat) {
    forall i | 0 <= i < |s| :: s[i].key <= k
  }

  /** elv_rb_add, on the in-order sequence of the tree: behind every entry with the same or a smaller key. */
  function Place(s: seq<Entry>, e: Entry): seq<Entry> {
    if s == [] || e.key < s[0].key then [e] + s else [s[0]] + Place(s[1..], e)
  }

  function Remove(s: seq<Entry>, id: nat): seq<Entry> {
    if s == [] then [] else if s[0].id == id then s[1..] else [s[0]] + Remove(s[1..], id)
  }

  /** deadline_latter_request */
  function Latter(s: seq<Entry>, id: nat): Option<nat> {
    if s == [] then None else if s[0].id != id then Latter(s[1..], id) else if |s| == 1 then None else Some(s[1].id)
  }

  function Key(s: seq<Entry>, id: nat): nat
    requires id in Ids(s)
  {
    if s[0].id == id then s[0].key else Key(s[1..], id)
  }

  /** list_move to the place behind `id` */
  function InsertAfter(s: seq<Entry>, id: nat, e: Entry): seq<Entry> {
    if s == [] then [e] else if s[0].id == id then [s[0], e] + s[1..] else [s[0]] + InsertAfter(s[1..], id, e)
  }

  lemma {:induction false} IdsMean(s: seq<Entry>, id: nat)
    ensures id in Ids(s) <==> exists i :: 0 <= i < |s| && s[i].id == id
  {
    if s != [] {
      IdsMean(s[1..], id);
      if id in Ids(s[1..]) {
        var i :| 0 <= i < |s[1..]| && s[1..][i].id == id;
        assert s[i + 1].id == id;
      }
      if i :| 0 <= i < |s| && s[i].id == id {
        if i > 0 { assert s[1..][i - 1].id == id; }
      }
    }
  }

  lemma ConsList(e: Entry, s: seq<Entry>)
    ensures ([e] + s)[0] == e && ([e] + s)[1..] == s && Ids([e] + s) == {e.id} + Ids(s)
  {
    assert ([e] + s)[1..] == s;
  }

  lemma {:induction false} PlaceOk(s: seq<Entry>, e: Entry)
    ensures Ids(Place(s, e)) == Ids(s) + {e.id}
    ensures Unique(s) && e.id !in Ids(s) ==> Unique(Place(s, e))
    ensures Ordered(s) ==> Ordered(Place(s, e))
    ensures forall k: nat :: AllAtLeast(s, k) && k <= e.key ==> AllAtLeast(Place(s, e), k)
  {
    if s == [] || e.key < s[0].key {
      ConsList(e, s);
      if s != [] && Ordered(s) { assert AllAtLeast(s, e.key) by { OrderedHead(s); } }
    } else {
      PlaceOk(s[1..], e);
      ConsList(s[0], Place(s[1..], e));
      forall k: nat | AllAtLeast(s, k) && k <= e.key ensures AllAtLeast(Place(s, e), k) {
        assert AllAtLeast(s[1..], k);
      }
    }
  }

  lemma OrderedHead(s: seq<Entry>)
    requires s != [] && Ordered(s)
    ensures AllAtLeast(s, s[0].key)
  {
    forall i | 0 <= i < |s| ensures s[i].key >= s[0].key {
      if i > 0 { assert s[1..][i - 1] == s[i]; }
    }
  }

  lemma {:induction false} RemoveOk(s: seq<Entry>, id: nat)
    requires Unique(s)
    ensures Ids(Remove(s, id)) == Ids(s) - {id} && Unique(Remove(s, id))
    ensures Ordered(s) ==> Ordered(Remove(s, id))
    ensures forall k: nat :: AllAtLeast(s, k) ==> AllAtLeast(Remove(s, id), k)
    ensures forall k: nat :: AllAtMost(s, k) ==> AllAtMost(Remove(s, id), k)
  {
    if s != [] && s[0].id != id {
      RemoveOk(s[1..], id);
      ConsList(s[0], Remove(s[1..], id));
      forall k: nat | AllAtLeast(s, k) ensures AllAtLeast(Remove(s, id), k) { assert AllAtLeast(s[1..], k); }
      forall k: nat | AllAtMost(s, k) ensures AllAtMost(Remove(s, id), k) { assert AllAtMost(s[1..], k); }
    }
  }

  lemma {:induction false} RemoveKeepsKey(s: seq<Entry>, id: nat, other: nat)
    requires Unique(s) && other in Ids(s) && other != id
    ensures other in Ids(Remove(s, id)) && Key(Remove(s, id), other) == Key(s, other)
  {
    if s[0].id != id {
      ConsList(s[0], Remove(s[1..], id));
      if s[0].id != other { RemoveKeepsKey(s[1..], id, other); }
    }
  }

  lemma {:induction false} AppendOk(s: seq<Entry>, e: Entry)
    requires Unique(s) && e.id !in Ids(s)
    ensures Ids(s + [e]) == Ids(s) + {e.id} && Unique(s + [e])
    ensures Ordered(s) && AllAtMost(s, e.key) ==> Ordered(s + [e])
  {
    if s == [] {
      assert s + [e] == [e];
      ConsList(e, []);
    } else {
      AppendOk(s[1..], e);
      assert s + [e] == [s[0]] + (s[1..] + [e]);
      ConsList(s[0], s[1..] + [e]);
      if Ordered(s) && AllAtMost(s, e.key) { assert AllAtMost(s[1..], e.key); }
    }
  }

  lemma {:induction false} InsertAfterOk(s: seq<Entry>, id: nat, e: Entry)
    requires Unique(s) && id in Ids(s) && e.id !in Ids(s) && e.key == Key(s, id)
    ensures Ids(InsertAfter(s, id, e)) == Ids(s) + {e.id} && Unique(InsertAfter(s, id, e))
    ensures Ordered(s) ==> Ordered(InsertAfter(s, id, e))
    ensures forall k: nat :: AllAtLeast(s, k) ==> AllAtLeast(InsertAfter(s, id, e), k)
    ensures forall k: nat :: AllAtMost(s, k) ==> AllAtMost(InsertAfter(s, id, e), k)
  {
    var rest := s[1..];
    if s[0].id == id {
      assert InsertAfter(s, id, e) == [s[0]] + ([e] + rest);
      ConsList(e, rest);
      ConsList(s[0], [e] + rest);
    } else {
      InsertAfterOk(rest, id, e);
      ConsList(s[0], InsertAfter(rest, id, e));
      forall k: nat | AllAtLeast(s, k) ensures AllAtLeast(InsertAfter(s, id, e), k) { assert AllAtLeast(rest, k); }
      forall k: nat | AllAtMost(s, k) ensures AllAtMost(InsertAfter(s, id, e), k) { assert AllAtMost(rest, k); }
    }
  }

  lemma HeadOnce(s: seq<Entry>)
    requires s != [] && Unique(s)
    ensures forall i | 1 <= i < |s| :: s[i].id != s[0].id
  {
    IdsMean(s[1..], s[0].id);
    forall i | 1 <= i < |s| ensures s[i].id != s[0].id {
      assert s[1..][i - 1] == s[i];
    }
  }

  lemma {:induction false} LatterOk(s: seq<Entry>, id: nat)
    requires Unique(s)
    ensures Latter(s, id).Some? ==> Latter(s, id).value in Ids(Remove(s, id))
  {
    if s != [] {
      if s[0].id == id {
        if |s| > 1 { assert s[1..][0] == s[1]; }
      } else {
        LatterOk(s[1..], id);
        ConsList(s[0], Remove(s[1..], id));
      }
    }
  }

  /** It is the entry behind the one with that id. */
  lemma {:induction false} LatterFollows(s: seq<Entry>, i: nat)
    requires Unique(s) && i < |s|
    ensures Latter(s, s[i].id) == if i + 1 < |s| then Some(s[i + 1].id) else None
  {
    HeadOnce(s);
    if i > 0 {
      LatterFollows(s[1..], i - 1);
      assert s[1..][i - 1] == s[i];
      if i + 1 < |s| { assert s[1..][i] == s[i + 1]; }
    }
  }
}
