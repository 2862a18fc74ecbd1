/** The list handlers' shared shape: `Model.find({ user: caller })` returns
    every record the caller owns, each once, in an order the database picks;
    the transaction list is additionally sorted newest first. */
module Listing {
  import opened Ledger
  import Views

  /** The ids of a list of `(id, record)` pairs, in order. */
  function KeysOf<R>(r: seq<(Id, R)>): seq<Id>
    decreases |r|
  {
    if |r| == 0 then [] else KeysOf(r[..|r| - 1]) + [r[|r| - 1].0]
  }

  /** The ids of owned records. */
  ghost function OwnedKeys<R>(m: map<Id, R>, ownerOf: R -> Id, caller: Id): set<Id> {
    set k | k in m && ownerOf(m[k]) == caller
  }

  /** `find({ user: caller })`: every record whose owner is `caller`, each
      exactly once, and nothing else. */
  method CollectOwned<R>(m: map<Id, R>, ownerOf: R -> Id, caller: Id) returns (r: seq<(Id, R)>)
    ensures forall e :: e in r ==> e.0 in m && m[e.0] == e.1 && ownerOf(e.1) == caller
    ensures multiset(KeysOf(r)) == multiset(OwnedKeys(m, ownerOf, caller))
  {
    var rest := m.Keys;
    ghost var owned: set<Id> := {};
    r := [];
    while rest != {}
      invariant rest <= m.Keys
      invariant forall e :: e in r ==> e.0 in m && m[e.0] == e.1 && ownerOf(e.1) == caller
      invariant forall k :: k in owned <==> k in m && k !in rest && ownerOf(m[k]) == caller
      invariant multiset(KeysOf(r)) == multiset(owned)
      decreases rest
    {
      var k :| k in rest;
      rest := rest - {k};
      if ownerOf(m[k]) == caller {
        assert k !in owned;
        assert multiset(owned + {k}) == multiset(owned) + multiset{k};
        owned := owned + {k};
        ghost var prev := r;
        r := r + [(k, m[k])];
        assert r[..|r| - 1] == prev;
      }
    }
    assert owned == OwnedKeys(m, ownerOf, caller);
  }

  /** The ids of a list of transaction views, in order. */
  function ViewIds(vs: seq<Views.TxView>): seq<Id>
    decreases |vs|
  {
    if |vs| == 0 then [] else ViewIds(vs[..|vs| - 1]) + [vs[|vs| - 1].id]
  }

  predicate NewestFirst(vs: seq<Views.TxView>) {
    forall i, j :: 0 <= i < j < |vs| ==> vs[i].date >= vs[j].date
  }

  lemma {:induction false} ViewIdsAppend(a: seq<Views.TxView>, b: seq<Views.TxView>)
    ensures ViewIds(a + b) == ViewIds(a) + ViewIds(b)
    decreases |b|
  {
    if |b| == 0 {
      assert a + b == a;
    } else {
      assert (a + b)[..|a + b| - 1] == a + b[..|b| - 1];
      ViewIdsAppend(a, b[..|b| - 1]);
    }
  }

  /** Where `x` goes in a newest-first list: after every entry at least as
      new, before the first strictly older one. */
  function InsertPos(vs: seq<Views.TxView>, x: Views.TxView): (p: nat)
    ensures p <= |vs|
    ensures forall i :: 0 <= i < p ==> vs[i].date >= x.date
    ensures p < |vs| ==> vs[p].date < x.date
    decreases |vs|
  {
    if |vs| == 0 || vs[0].date < x.date then 0 else 1 + InsertPos(vs[1..], x)
  }

  /** Where each element of `vs` lands once `x` is spliced in at `p`. */
  lemma SpliceIndex(vs: seq<Views.TxView>, x: Views.TxView, p: nat)
    requires p <= |vs|
    ensures var r := vs[..p] + [x] + vs[p..];
            && |r| == |vs| + 1 && r[p] == x
            && (forall k :: 0 <= k < p ==> r[k] == vs[k])
            && (forall k :: p < k < |r| ==> r[k] == vs[k - 1])
  {
  }

  lemma InsertKeepsOrder(vs: seq<Views.TxView>, x: Views.TxView)
    ensures var p := InsertPos(vs, x);
            NewestFirst(vs) ==> NewestFirst(vs[..p] + [x] + vs[p..])
  {
    var p := InsertPos(vs, x);
    var r := vs[..p] + [x] + vs[p..];
    if NewestFirst(vs) {
      SpliceIndex(vs, x, p);
      forall i, j | 0 <= i < j < |r| ensures r[i].date >= r[j].date {
        if i == p {
          assert vs[p].date >= vs[j - 1].date;
        } else if p < i {
          assert vs[i - 1].date >= vs[j - 1].date;
        } else if j != p {
          assert r[j] == if j < p then vs[j] else vs[j - 1];
        }
      }
    }
  }

  lemma InsertContents(vs: seq<Views.TxView>, x: Views.TxView)
    ensures var p := InsertPos(vs, x);
            && multiset(vs[..p] + [x] + vs[p..]) == multiset(vs) + multiset{x}
            && multiset(ViewIds(vs[..p] + [x] + vs[p..])) == multiset(ViewIds(vs)) + multiset{x.id}
  {
    var p := InsertPos(vs, x);
    var a, b := vs[..p], vs[p..];
    assert vs == a + b;
    SplicedMultiset(a, [x], b);
    SplicedIds(a, x, b);
  }

  /** Inserting a block between two halves adds its elements to theirs. */
  lemma SplicedMultiset<T>(a: seq<T>, m: seq<T>, b: seq<T>)
    ensures multiset(a + m + b) == multiset(a + b) + multiset(m)
  {
    assert a + m + b == (a + m) + b;
    assert multiset(a + m + b) == multiset(a) + multiset(m) + multiset(b);
    assert multiset(a + b) == multiset(a) + multiset(b);
  }

  /** Inserting `x` between two halves adds its id to the ids of both. */
  lemma SplicedIds(a: seq<Views.TxView>, x: Views.TxView, b: seq<Views.TxView>)
    ensures multiset(ViewIds(a + [x] + b)) == multiset(ViewIds(a + b)) + multiset{x.id}
  {
    ViewIdsAppend(a + [x], b);
    ViewIdsAppend(a, [x]);
    ViewIdsAppend(a, b);
    assert ViewIds([x]) == [x.id];
    var ia, ib := ViewIds(a), ViewIds(b);
    assert ViewIds(a + [x] + b) == ia + [x.id] + ib;
    SplicedMultiset(ia, [x.id], ib);
  }

  /** Insertion into a newest-first list: the result holds exactly the old
      elements plus `x`, and stays newest first. */
  function InsertByDate(vs: seq<Views.TxView>, x: Views.TxView): (r: seq<Views.TxView>)
    ensures multiset(r) == multiset(vs) + multiset{x}
    ensures multiset(ViewIds(r)) == multiset(ViewIds(vs)) + multiset{x.id}
    ensures NewestFirst(vs) ==> NewestFirst(r)
  {
    var p := InsertPos(vs, x);
    InsertContents(vs, x);
    InsertKeepsOrder(vs, x);
    vs[..p] + [x] + vs[p..]
  }

  /** Growing a prefix by one element adds that element and its id. */
  lemma PrefixStep(vs: seq<Views.TxView>, i: nat)
    requires i < |vs|
    ensures multiset(vs[..i + 1]) == multiset(vs[..i]) + multiset{vs[i]}
    ensures multiset(ViewIds(vs[..i + 1])) == multiset(ViewIds(vs[..i])) + multiset{vs[i].id}
  {
    var next := vs[..i + 1];
    assert next[..i] == vs[..i] && next[i] == vs[i];
    assert next == vs[..i] + [vs[i]];
  }

  /** Sorting newest first by repeated insertion: a permutation of the
      input that is ordered by date, newest first. */
  method SortNewestFirst(vs: seq<Views.TxView>) returns (r: seq<Views.TxView>)
    ensures multiset(r) == multiset(vs)
    ensures multiset(ViewIds(r)) == multiset(ViewIds(vs))
    ensures NewestFirst(r)
  {
    r := [];
    var i := 0;
    while i < |vs|
      invariant 0 <= i <= |vs|
      invariant NewestFirst(r)
      invariant multiset(r) == multiset(vs[..i])
      invariant multiset(ViewIds(r)) == multiset(ViewIds(vs[..i]))
    {
      PrefixStep(vs, i);
      r := InsertByDate(r, vs[i]);
      i := i + 1;
    }
    assert vs[..|vs|] == vs;
  }
}
