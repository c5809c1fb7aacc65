/**
 * The neuron node (synapse/neuron.py): the peer records it has heard of, the
 * directed links those records declare, the three link indices, the route cache
 * and the decisions taken on an incoming message; and the Dendrite service
 * registry.
 *
 * Link info dicts are shared by reference in the source between `links`, the
 * by-source and by-destination lists and cached routes. Here the indices and routes
 * hold link keys and the info lives once, in `links`, which gives the same view of
 * an in-place merge.
 */
module Neuron {
  import opened Wrappers
  import opened NeuronGraph

  // ---------------------------------------------------------------------------
  // Node records

  /** A node record: its iden, its tick (absent on the local record) and its declared
      neighbours with link info, in the order of the record's `links` dict. */
  datatype NodeDef = NodeDef(iden: Iden, tick: Option<int>, links: seq<(Iden, Info)>)

  /** A dict has distinct keys: the declared neighbours of a record are distinct. */
  predicate DistinctDests(decl: seq<(Iden, Info)>)
  {
    forall i, j :: 0 <= i < j < |decl| ==> decl[i].0 != decl[j].0
  }

  function Dests(decl: seq<(Iden, Info)>): set<Iden>
  {
    set i | 0 <= i < |decl| :: decl[i].0
  }

  /** The links of `m` that survive the pruning for a record of `iden` declaring `ds`:
      every link not leaving `iden`, and the links from `iden` to a declared neighbour. */
  function Kept(m: map<LinkKey, Info>, iden: Iden, ds: set<Iden>): (r: map<LinkKey, Info>)
    ensures forall k :: k in r <==> k in m && (k.src != iden || k.dst in ds)
    ensures forall k :: k in r ==> r[k] == m[k]
  {
    map k | k in m && (k.src != iden || k.dst in ds) :: m[k]
  }

  /** The links of `m` after the declared neighbours of a record of `iden` are added
      (new link) or merged into the existing info with dict-update semantics, one
      declaration after the other. */
  function MergeDecl(m: map<LinkKey, Info>, iden: Iden, decl: seq<(Iden, Info)>): map<LinkKey, Info>
    decreases |decl|
  {
    if |decl| == 0 then m
    else
      var prev := MergeDecl(m, iden, decl[..|decl| - 1]);
      var key := LinkKey(iden, decl[|decl| - 1].0);
      var info := decl[|decl| - 1].1;
      if key in prev then prev[key := prev[key] + info] else prev[key := info]
  }

  /** The info a merge leaves on the link to declared neighbour i. */
  function MergedInfo(m: map<LinkKey, Info>, key: LinkKey, info: Info): Info
  {
    if key in m then m[key] + info else info
  }

  /** The declared neighbours of a record split into those of all but its last
      declaration and the last one, which is new. */
  lemma DestsSnoc(decl: seq<(Iden, Info)>)
    requires |decl| > 0 && DistinctDests(decl)
    ensures DistinctDests(decl[..|decl| - 1])
    ensures Dests(decl) == Dests(decl[..|decl| - 1]) + {decl[|decl| - 1].0}
    ensures decl[|decl| - 1].0 !in Dests(decl[..|decl| - 1])
  {
    var init := decl[..|decl| - 1];
    var last := decl[|decl| - 1];
    forall n | n in Dests(decl) ensures n in Dests(init) + {last.0} {
      var i :| 0 <= i < |decl| && decl[i].0 == n;
      if i < |decl| - 1 {
        assert init[i] == decl[i];
      }
    }
    forall n | n in Dests(init) ensures n in Dests(decl) {
      var i :| 0 <= i < |init| && init[i].0 == n;
      assert decl[i] == init[i];
    }
    assert decl[|decl| - 1].0 in Dests(decl);
    forall i | 0 <= i < |init| ensures init[i].0 != last.0 {
      assert init[i] == decl[i];
    }
  }

  /** What the merge does, key by key: it adds exactly the declared links, merges the
      info of each declared link into any old info, and leaves every other link as it was. */
  lemma {:induction false} MergeDeclSpec(m: map<LinkKey, Info>, iden: Iden, decl: seq<(Iden, Info)>)
    requires DistinctDests(decl)
    ensures forall k :: k in MergeDecl(m, iden, decl) <==> k in m || (k.src == iden && k.dst in Dests(decl))
    ensures forall k :: k in m && !(k.src == iden && k.dst in Dests(decl)) ==> MergeDecl(m, iden, decl)[k] == m[k]
    ensures forall i :: 0 <= i < |decl| ==>
              && LinkKey(iden, decl[i].0) in MergeDecl(m, iden, decl)
              && MergeDecl(m, iden, decl)[LinkKey(iden, decl[i].0)] == MergedInfo(m, LinkKey(iden, decl[i].0), decl[i].1)
    decreases |decl|
  {
    if |decl| > 0 {
      var init := decl[..|decl| - 1];
      var last := decl[|decl| - 1];
      DestsSnoc(decl);
      MergeDeclSpec(m, iden, init);
      var r := MergeDecl(m, iden, decl);
      forall i | 0 <= i < |decl|
        ensures LinkKey(iden, decl[i].0) in r
      ensures r[LinkKey(iden, decl[i].0)] == MergedInfo(m, LinkKey(iden, decl[i].0), decl[i].1)
      {
        if i < |decl| - 1 {
          assert init[i] == decl[i];
          assert decl[i].0 != last.0;
        }
      }
    }
  }

  /** The links after an accepted record of `iden` declaring `decl`: a link from `iden`
      exists exactly when its destination is declared, declared links carry the merged
      info, and links from other nodes are untouched. */
  lemma AcceptedLinks(m: map<LinkKey, Info>, iden: Iden, decl: seq<(Iden, Info)>)
    requires DistinctDests(decl)
    ensures forall k: LinkKey :: k.src == iden ==> (k in MergeDecl(Kept(m, iden, Dests(decl)), iden, decl) <==> k.dst in Dests(decl))
    ensures forall k: LinkKey :: k.src != iden ==>
              (k in MergeDecl(Kept(m, iden, Dests(decl)), iden, decl) <==> k in m)
    ensures forall k: LinkKey :: k.src != iden && k in m ==> MergeDecl(Kept(m, iden, Dests(decl)), iden, decl)[k] == m[k]
    ensures forall i :: 0 <= i < |decl| ==>
              && LinkKey(iden, decl[i].0) in MergeDecl(Kept(m, iden, Dests(decl)), iden, decl)
              && MergeDecl(Kept(m, iden, Dests(decl)), iden, decl)[LinkKey(iden, decl[i].0)]
                   == MergedInfo(m, LinkKey(iden, decl[i].0), decl[i].1)
  {
    var kept := Kept(m, iden, Dests(decl));
    MergeDeclSpec(kept, iden, decl);
    forall i | 0 <= i < |decl|
      ensures MergedInfo(kept, LinkKey(iden, decl[i].0), decl[i].1) == MergedInfo(m, LinkKey(iden, decl[i].0), decl[i].1)
    {
      assert decl[i].0 in Dests(decl);
    }
  }

  // ---------------------------------------------------------------------------
  // The pruning loop as written

  /**
   * The by-source list after the pruning loop as the source writes it: a Python
   * `for` over a list steps an index through the list while `delNodeLink` removes
   * the current element from that same list, so the element after each removed one
   * moves into the slot already visited and is never examined.
   */
  function PruneAsWritten(lst: seq<LinkKey>, ds: set<Iden>, i: nat): seq<LinkKey>
    decreases |lst| - i
  {
    if i >= |lst| then lst
    else if lst[i].dst !in ds then PruneAsWritten(lst[..i] + lst[i + 1..], ds, i + 1)
    else PruneAsWritten(lst, ds, i + 1)
  }

  /** Two outbound links, neither declared by the new record: the loop as written keeps
      the second one, a link the record no longer declares. */
  lemma PruneAsWrittenSkips()
    ensures PruneAsWritten([LinkKey("a", "b"), LinkKey("a", "c")], {}, 0) == [LinkKey("a", "c")]
  {
    var l := [LinkKey("a", "b"), LinkKey("a", "c")];
    assert l[..0] + l[1..] == [LinkKey("a", "c")];
  }

  /** The pruning over a snapshot of the by-source list `outs`: the links in `outs`
      whose destination is undeclared are removed. */
  function Pruned(m: map<LinkKey, Info>, outs: seq<LinkKey>, ds: set<Iden>): (r: map<LinkKey, Info>)
    ensures forall k :: k in r <==> k in m && !(k in outs && k.dst !in ds)
  {
    map k | k in m && !(k in outs && k.dst !in ds) :: m[k]
  }

  /** Over the complete by-source list of `iden`, the snapshot pruning keeps exactly
      the links Kept describes. */
  lemma PrunedIsKept(links: map<LinkKey, Info>, bySrc: map<Iden, seq<LinkKey>>, iden: Iden, ds: set<Iden>)
    requires OutListsLinks(links, bySrc, iden)
    ensures Pruned(links, Out(bySrc, iden), ds) == Kept(links, iden, ds)
  {
  }

  // ---------------------------------------------------------------------------
  // Index and cache invariants

  predicate NoDup<T(==)>(s: seq<T>)
  {
    forall i, j :: 0 <= i < j < |s| ==> s[i] != s[j]
  }

  /** Python's `list.remove`: drops the first element equal to `x`. */
  function RemoveFirst<T(==)>(s: seq<T>, x: T): (r: seq<T>)
    ensures x !in s ==> r == s
    ensures x in s ==> |r| == |s| - 1
    ensures forall y :: y in r ==> y in s
    ensures forall y :: y in s && y != x ==> y in r
    ensures NoDup(s) ==> NoDup(r) && x !in r
  {
    if |s| == 0 then []
    else if s[0] == x then s[1..]
    else
      var rest := RemoveFirst(s[1..], x);
      NoDupTail(s);
      NoDupCons(s[0], rest);
      [s[0]] + rest
  }

  lemma NoDupTail<T>(s: seq<T>)
    ensures |s| > 0 && NoDup(s) ==> NoDup(s[1..]) && s[0] !in s[1..]
  {
    if |s| > 0 && NoDup(s) {
      forall i | 0 <= i < |s| - 1 ensures s[1..][i] != s[0] {
        assert s[1..][i] == s[i + 1];
      }
    }
  }

  lemma NoDupCons<T>(a: T, t: seq<T>)
    ensures NoDup(t) && a !in t ==> NoDup([a] + t)
  {
    if NoDup(t) && a !in t {
      forall i, j | 0 <= i < j < |[a] + t| ensures ([a] + t)[i] != ([a] + t)[j] {
        assert ([a] + t)[j] == t[j - 1];
        if i > 0 {
          assert ([a] + t)[i] == t[i - 1];
        }
      }
    }
  }

  /** The by-destination index lists exactly the links of the graph, each under its destination. */
  ghost predicate DstIndexed(links: map<LinkKey, Info>, byDst: map<Iden, seq<LinkKey>>)
  {
    && (forall k :: k in links ==> k.dst in byDst && k in byDst[k.dst])
    && (forall n, i :: n in byDst && 0 <= i < |byDst[n]| ==> byDst[n][i].dst == n && byDst[n][i] in links)
  }

  predicate ListsNoDup(idx: map<Iden, seq<LinkKey>>)
  {
    forall n :: n in idx ==> NoDup(idx[n])
  }

  ghost predicate IndexInv(links: map<LinkKey, Info>, bySrc: map<Iden, seq<LinkKey>>, byDst: map<Iden, seq<LinkKey>>)
  {
    SrcIndexed(links, bySrc) && DstIndexed(links, byDst) && ListsNoDup(bySrc) && ListsNoDup(byDst)
  }

  /** The key of a cached route: (local iden, target iden). */
  datatype RouteKey = RouteKey(from: Iden, to: Iden)

  /** The route keys registered under a link; a missing entry of the defaultdict is empty. */
  function Bucket(rbl: map<LinkKey, set<RouteKey>>, k: LinkKey): set<RouteKey>
  {
    if k in rbl then rbl[k] else {}
  }

  /** The route keys registered under any of the links `keys`: what deleting those
      links purges from the cache. */
  ghost function Purged(rbl: map<LinkKey, set<RouteKey>>, keys: set<LinkKey>): set<RouteKey>
  {
    set k, rk | k in keys && rk in Bucket(rbl, k) :: rk
  }

  /** Deleting one more link purges its bucket as well. */
  lemma PurgedAdd(rbl: map<LinkKey, set<RouteKey>>, keys: set<LinkKey>, k: LinkKey)
    ensures Purged(rbl, keys + {k}) == Purged(rbl, keys) + Bucket(rbl, k)
  {
    forall rk | rk in Bucket(rbl, k) ensures rk in Purged(rbl, keys + {k}) {
      assert k in keys + {k};
    }
  }

  /** `rbl` is `rbl0` with the key `rk` added to the bucket of each link of `r`, and to no other. */
  ghost predicate Registers(rbl0: map<LinkKey, set<RouteKey>>, rbl: map<LinkKey, set<RouteKey>>, rk: RouteKey, r: Route)
  {
    && (forall l :: Bucket(rbl, l) == Bucket(rbl0, l) + (if l in r then {rk} else {}))
    && (forall l :: l in rbl <==> l in rbl0 || l in r)
  }

  /** Every link of route `r` has the route key `rk` registered under it. */
  predicate Registered(r: Route, rk: RouteKey, rbl: map<LinkKey, set<RouteKey>>)
  {
    forall i :: 0 <= i < |r| ==> rk in Bucket(rbl, r[i])
  }

  /** Every cached route is a chain of current links from the local node to its
      target, registered under each of its links. */
  ghost predicate CacheInv(iden: Iden, links: map<LinkKey, Info>, routes: map<RouteKey, Route>,
                           rbl: map<LinkKey, set<RouteKey>>)
  {
    forall rk :: rk in routes ==>
      rk.from == iden && IsChain(links, routes[rk], iden, rk.to) && Registered(routes[rk], rk, rbl)
  }

  /** The consistency a node keeps between its graph, its two indices and its route cache. */
  ghost predicate NodeInv(iden: Iden, links: map<LinkKey, Info>, bySrc: map<Iden, seq<LinkKey>>,
                          byDst: map<Iden, seq<LinkKey>>, routes: map<RouteKey, Route>, rbl: map<LinkKey, set<RouteKey>>)
  {
    IndexInv(links, bySrc, byDst) && CacheInv(iden, links, routes, rbl)
  }

  lemma LinkAdded(iden: Iden, links: map<LinkKey, Info>, bySrc: map<Iden, seq<LinkKey>>,
                  byDst: map<Iden, seq<LinkKey>>, routes: map<RouteKey, Route>, rbl: map<LinkKey, set<RouteKey>>,
                  key: LinkKey, info: Info)
    requires NodeInv(iden, links, bySrc, byDst, routes, rbl) && key !in links
    ensures NodeInv(iden, links[key := info], bySrc[key.src := Out(bySrc, key.src) + [key]],
                    byDst[key.dst := Out(byDst, key.dst) + [key]], routes, rbl)
  {
    SrcIndexAdd(links, bySrc, key, info);
    DstIndexAdd(links, byDst, key, info);
    CacheLinksGrow(iden, links, links[key := info], routes, rbl);
  }

  lemma SrcIndexAdd(links: map<LinkKey, Info>, idx: map<Iden, seq<LinkKey>>, key: LinkKey, info: Info)
    requires SrcIndexed(links, idx) && ListsNoDup(idx) && key !in links
    ensures SrcIndexed(links[key := info], idx[key.src := Out(idx, key.src) + [key]])
    ensures ListsNoDup(idx[key.src := Out(idx, key.src) + [key]])
  {
    var o := Out(idx, key.src);
    assert key !in o;
    var idx' := idx[key.src := o + [key]];
    forall n | n in idx' ensures NoDup(idx'[n]) {
      if n == key.src {
        forall i, j | 0 <= i < j < |o + [key]| ensures (o + [key])[i] != (o + [key])[j] {
          if j == |o| {
            assert (o + [key])[i] == o[i] && o[i] in o;
          } else {
            assert (o + [key])[i] == o[i] && (o + [key])[j] == o[j];
          }
        }
      }
    }
  }

  lemma DstIndexAdd(links: map<LinkKey, Info>, idx: map<Iden, seq<LinkKey>>, key: LinkKey, info: Info)
    requires DstIndexed(links, idx) && ListsNoDup(idx) && key !in links
    ensures DstIndexed(links[key := info], idx[key.dst := Out(idx, key.dst) + [key]])
    ensures ListsNoDup(idx[key.dst := Out(idx, key.dst) + [key]])
  {
    var o := Out(idx, key.dst);
    assert key !in o;
    var idx' := idx[key.dst := o + [key]];
    forall n | n in idx' ensures NoDup(idx'[n]) {
      if n == key.dst {
        forall i, j | 0 <= i < j < |o + [key]| ensures (o + [key])[i] != (o + [key])[j] {
          if j == |o| {
            assert (o + [key])[i] == o[i] && o[i] in o;
          } else {
            assert (o + [key])[i] == o[i] && (o + [key])[j] == o[j];
          }
        }
      }
    }
  }

  lemma SrcIndexDel(links: map<LinkKey, Info>, idx: map<Iden, seq<LinkKey>>, key: LinkKey,
                       idx': map<Iden, seq<LinkKey>>)
    requires SrcIndexed(links, idx) && ListsNoDup(idx) && key in links
    requires key.src in idx && idx' == idx[key.src := RemoveFirst(idx[key.src], key)]
    ensures SrcIndexed(links - {key}, idx') && ListsNoDup(idx')
  {
    SrcDelKeepsLinks(links, idx, key);
    SrcDelKeepsEntries(links, idx, key, idx');
    DelKeepsNoDup(idx, key.src, key);
  }

  /** After the deletion every remaining link is still listed under its source. */
  lemma SrcDelKeepsLinks(links: map<LinkKey, Info>, idx: map<Iden, seq<LinkKey>>, key: LinkKey)
    requires forall k :: k in links ==> k.src in idx && k in idx[k.src]
    requires key in links
    ensures key.src in idx
    ensures forall k :: k in links - {key} ==>
              k.src in idx[key.src := RemoveFirst(idx[key.src], key)]
              && k in idx[key.src := RemoveFirst(idx[key.src], key)][k.src]
  {
    var idx': map<Iden, seq<LinkKey>> := idx[key.src := RemoveFirst(idx[key.src], key)];
    forall k | k in links - {key} ensures k.src in idx' && k in idx'[k.src] {
      assert k in links;
    }
  }

  /** After the deletion every listed link is still a link, under its own source. */
  lemma SrcDelKeepsEntries(links: map<LinkKey, Info>, idx: map<Iden, seq<LinkKey>>, key: LinkKey,
                              idx': map<Iden, seq<LinkKey>>)
    requires forall n, i :: n in idx && 0 <= i < |idx[n]| ==> idx[n][i].src == n && idx[n][i] in links
    requires ListsNoDup(idx) && key.src in idx && idx' == idx[key.src := RemoveFirst(idx[key.src], key)]
    ensures forall n, i :: n in idx' && 0 <= i < |idx'[n]| ==> idx'[n][i].src == n && idx'[n][i] in links - {key}
  {
    var s := idx[key.src];
    var s' := idx'[key.src];
    assert NoDup(s);
    forall n: Iden, i: int | n in idx' && 0 <= i < |idx'[n]| ensures idx'[n][i].src == n && idx'[n][i] in links - {key} {
      if n == key.src {
        var x := s'[i];
        assert x in s' && x in s && x != key;
        var j :| 0 <= j < |s| && s[j] == x;
      }
    }
  }

  lemma DstIndexDel(links: map<LinkKey, Info>, idx: map<Iden, seq<LinkKey>>, key: LinkKey,
                       idx': map<Iden, seq<LinkKey>>)
    requires DstIndexed(links, idx) && ListsNoDup(idx) && key in links
    requires key.dst in idx && idx' == idx[key.dst := RemoveFirst(idx[key.dst], key)]
    ensures DstIndexed(links - {key}, idx') && ListsNoDup(idx')
  {
    DstDelKeepsLinks(links, idx, key);
    DstDelKeepsEntries(links, idx, key, idx');
    DelKeepsNoDup(idx, key.dst, key);
  }

  /** After the deletion every remaining link is still listed under its destination. */
  lemma DstDelKeepsLinks(links: map<LinkKey, Info>, idx: map<Iden, seq<LinkKey>>, key: LinkKey)
    requires forall k :: k in links ==> k.dst in idx && k in idx[k.dst]
    requires key in links
    ensures key.dst in idx
    ensures forall k :: k in links - {key} ==>
              k.dst in idx[key.dst := RemoveFirst(idx[key.dst], key)]
              && k in idx[key.dst := RemoveFirst(idx[key.dst], key)][k.dst]
  {
    var idx': map<Iden, seq<LinkKey>> := idx[key.dst := RemoveFirst(idx[key.dst], key)];
    forall k | k in links - {key} ensures k.dst in idx' && k in idx'[k.dst] {
      assert k in links;
    }
  }

  /** After the deletion every listed link is still a link, under its own destination. */
  lemma DstDelKeepsEntries(links: map<LinkKey, Info>, idx: map<Iden, seq<LinkKey>>, key: LinkKey,
                              idx': map<Iden, seq<LinkKey>>)
    requires forall n, i :: n in idx && 0 <= i < |idx[n]| ==> idx[n][i].dst == n && idx[n][i] in links
    requires ListsNoDup(idx) && key.dst in idx && idx' == idx[key.dst := RemoveFirst(idx[key.dst], key)]
    ensures forall n, i :: n in idx' && 0 <= i < |idx'[n]| ==> idx'[n][i].dst == n && idx'[n][i] in links - {key}
  {
    var s := idx[key.dst];
    var s' := idx'[key.dst];
    assert NoDup(s);
    forall n: Iden, i: int | n in idx' && 0 <= i < |idx'[n]| ensures idx'[n][i].dst == n && idx'[n][i] in links - {key} {
      if n == key.dst {
        var x := s'[i];
        assert x in s' && x in s && x != key;
        var j :| 0 <= j < |s| && s[j] == x;
      }
    }
  }

  /** Removing a key from one list keeps every list free of duplicates. */
  lemma DelKeepsNoDup(idx: map<Iden, seq<LinkKey>>, n: Iden, key: LinkKey)
    requires ListsNoDup(idx) && n in idx
    ensures ListsNoDup(idx[n := RemoveFirst(idx[n], key)])
  {
    assert NoDup(idx[n]);
  }

  /** Every entry of `a` is an entry of `b`. */
  ghost predicate SubMap<K, V>(a: map<K, V>, b: map<K, V>)
  {
    forall k :: k in a ==> k in b && a[k] == b[k]
  }

  /** Deleting one more present link `key` extends the purge of the cache by its bucket. */
  lemma PurgeStep(links0: map<LinkKey, Info>, links: map<LinkKey, Info>,
                  routes0: map<RouteKey, Route>, rbl0: map<LinkKey, set<RouteKey>>,
                  routes: map<RouteKey, Route>, rbl: map<LinkKey, set<RouteKey>>, key: LinkKey)
    requires links.Keys <= links0.Keys && key in links
    requires routes == routes0 - Purged(rbl0, links0.Keys - links.Keys)
    requires rbl == rbl0 - (links0.Keys - links.Keys)
    ensures routes - Bucket(rbl, key) == routes0 - Purged(rbl0, links0.Keys - (links - {key}).Keys)
    ensures rbl - {key} == rbl0 - (links0.Keys - (links - {key}).Keys)
  {
    var gone := links0.Keys - links.Keys;
    assert gone + {key} == links0.Keys - (links - {key}).Keys;
    assert Bucket(rbl, key) == Bucket(rbl0, key);
    PurgedAdd(rbl0, gone, key);
  }

  /** The links of `m` that the pruning for a record of `iden` declaring `ds` removes. */
  function Omitted(m: map<LinkKey, Info>, iden: Iden, ds: set<Iden>): (r: set<LinkKey>)
    ensures r == m.Keys - Kept(m, iden, ds).Keys
  {
    set k | k in m && k.src == iden && k.dst !in ds
  }

  /** One more link of the snapshot examined by the pruning loop. */
  lemma PrunedStep(m: map<LinkKey, Info>, outs: seq<LinkKey>, i: nat, ds: set<Iden>, cur: map<LinkKey, Info>)
    requires i < |outs| && cur == Pruned(m, outs[..i], ds)
    ensures outs[i].dst !in ds ==> Pruned(m, outs[..i + 1], ds) == cur - {outs[i]}
    ensures outs[i].dst in ds ==> Pruned(m, outs[..i + 1], ds) == cur
  {
    assert outs[..i + 1] == outs[..i] + [outs[i]];
  }

  /** Changing the info of an existing link keeps the indices consistent. */
  lemma IndexInfoChange(links: map<LinkKey, Info>, bySrc: map<Iden, seq<LinkKey>>, byDst: map<Iden, seq<LinkKey>>,
                        key: LinkKey, v: Info)
    requires IndexInv(links, bySrc, byDst) && key in links
    ensures IndexInv(links[key := v], bySrc, byDst)
  {
  }

  /** Deleting a link from the graph, both indices and the cache keeps them consistent. */
  lemma GraphDel(iden: Iden, links: map<LinkKey, Info>, bySrc: map<Iden, seq<LinkKey>>, byDst: map<Iden, seq<LinkKey>>,
                 routes: map<RouteKey, Route>, rbl: map<LinkKey, set<RouteKey>>, key: LinkKey)
    requires NodeInv(iden, links, bySrc, byDst, routes, rbl) && key in links
    ensures key.src in bySrc && key.dst in byDst
    ensures NodeInv(iden, links - {key}, bySrc[key.src := RemoveFirst(bySrc[key.src], key)],
                    byDst[key.dst := RemoveFirst(byDst[key.dst], key)], routes - Bucket(rbl, key), rbl - {key})
  {
    assert key.src in bySrc && key.dst in byDst;
    SrcIndexDel(links, bySrc, key, bySrc[key.src := RemoveFirst(bySrc[key.src], key)]);
    DstIndexDel(links, byDst, key, byDst[key.dst := RemoveFirst(byDst[key.dst], key)]);
    CacheDel(iden, links, routes, rbl, key);
  }

  /** Adding links, or changing their info, keeps every cached route a chain. */
  lemma CacheLinksGrow(iden: Iden, links: map<LinkKey, Info>, links': map<LinkKey, Info>,
                       routes: map<RouteKey, Route>, rbl: map<LinkKey, set<RouteKey>>)
    requires CacheInv(iden, links, routes, rbl) && links.Keys <= links'.Keys
    ensures CacheInv(iden, links', routes, rbl)
  {
  }

  /** Dropping a link together with the routes registered under it keeps the cache sound. */
  lemma CacheDel(iden: Iden, links: map<LinkKey, Info>, routes: map<RouteKey, Route>,
                 rbl: map<LinkKey, set<RouteKey>>, key: LinkKey)
    requires CacheInv(iden, links, routes, rbl)
    ensures CacheInv(iden, links - {key}, routes - Bucket(rbl, key), rbl - {key})
  {
    var routes' := routes - Bucket(rbl, key);
    forall rk | rk in routes'
      ensures rk.from == iden && IsChain(links - {key}, routes'[rk], iden, rk.to)
      ensures Registered(routes'[rk], rk, rbl - {key})
    {
      var r := routes[rk];
      forall i | 0 <= i < |r| ensures r[i] != key {
        assert rk in Bucket(rbl, r[i]);
      }
      forall i | 0 <= i < |r| ensures rk in Bucket(rbl - {key}, r[i]) {
        assert rk in Bucket(rbl, r[i]);
      }
    }
  }

  /** Caching a chain under `rk` and registering it under its links keeps the cache sound. */
  lemma CacheAdd(iden: Iden, links: map<LinkKey, Info>, routes: map<RouteKey, Route>,
                 rbl: map<LinkKey, set<RouteKey>>, rbl': map<LinkKey, set<RouteKey>>, rk: RouteKey, r: Route)
    requires CacheInv(iden, links, routes, rbl)
    requires rk.from == iden && IsChain(links, r, iden, rk.to)
    requires forall l :: Bucket(rbl', l) == Bucket(rbl, l) + (if l in r then {rk} else {})
    ensures CacheInv(iden, links, routes[rk := r], rbl')
  {
    var routes' := routes[rk := r];
    forall rk' | rk' in routes'
      ensures Registered(routes'[rk'], rk', rbl')
    {
      var p := routes'[rk'];
      forall i | 0 <= i < |p| ensures rk' in Bucket(rbl', p[i]) {
        if rk' == rk {
          assert p[i] in r;
        } else {
          assert rk' in Bucket(rbl, p[i]);
        }
      }
    }
  }

  /** Adds `rk` to the bucket of each link of `r`, creating missing buckets. */
  method RegisterRoute(rbl0: map<LinkKey, set<RouteKey>>, rk: RouteKey, r: Route)
    returns (rbl: map<LinkKey, set<RouteKey>>)
    ensures forall l :: Bucket(rbl, l) == Bucket(rbl0, l) + (if l in r then {rk} else {})
    ensures forall l :: l in rbl <==> l in rbl0 || l in r
  {
    rbl := rbl0;
    for i := 0 to |r|
      invariant forall l :: l in rbl <==> l in rbl0 || l in r[..i]
      invariant forall l :: Bucket(rbl, l) == Bucket(rbl0, l) + (if l in r[..i] then {rk} else {})
    {
      assert r[..i + 1] == r[..i] + [r[i]];
      rbl := rbl[r[i] := Bucket(rbl, r[i]) + {rk}];
    }
    assert r[..|r|] == r;
  }

  /** Pops every key of `rkeys` from the route cache, one at a time. */
  method PurgeRoutes(routes: map<RouteKey, Route>, rkeys: set<RouteKey>) returns (rs: map<RouteKey, Route>)
    ensures rs == routes - rkeys
  {
    rs := routes;
    var pending := rkeys;
    while pending != {}
      invariant pending <= rkeys
      invariant rs == routes - (rkeys - pending)
      decreases pending
    {
      var rk :| rk in pending;
      rs := rs - {rk};
      pending := pending - {rk};
    }
  }

  // ---------------------------------------------------------------------------
  // Messages

  /** A message: its kind, time-to-live, destination, and the origin and user that a
      session socket stamps on it. */
  datatype Mesg = Mesg(kind: string, ttl: int, dest: Iden, orig: Option<Iden>, user: Option<string>)

  /** The socket properties the handlers consult: `neur:link`, `neur:sess` and `syn:user`. */
  datatype Sock = Sock(link: Option<Iden>, sess: Option<Iden>, user: Option<string>)

  /** The handlers registered by message kind; only `link` is registered (its handler
      is an empty stub), the `xmit` entry being disabled. */
  datatype Handler = HandLink

  function MesgFuncs(): map<string, Handler>
  {
    map["link" := HandLink]
  }

  /** The handler a socket message is dispatched to; a kind with no entry is dropped. */
  function HandSockMesg(mesg: Mesg): (h: Option<Handler>)
    ensures h.Some? <==> mesg.kind == "link"
    ensures h.Some? ==> h == Some(MesgFuncs()[mesg.kind])
  {
    if mesg.kind in MesgFuncs() then Some(MesgFuncs()[mesg.kind]) else None
  }

  /**
   * The admission step of an xmit message received on `sock` by node `iden`: the
   * time-to-live is decremented, the message is dropped when it falls below zero or
   * when the socket is neither a neuron link nor a session, and a message from a
   * session is stamped with this node as origin and with the socket's user.
   */
  function Admit(iden: Iden, sock: Sock, mesg: Mesg): (r: Option<Mesg>)
    ensures r.Some? <==> mesg.ttl >= 1 && (sock.link.Some? || sock.sess.Some?)
    ensures r.Some? ==> r.value.ttl == mesg.ttl - 1 && r.value.dest == mesg.dest && r.value.kind == mesg.kind
    ensures r.Some? && sock.link.Some? ==> r.value.orig == mesg.orig && r.value.user == mesg.user
    ensures r.Some? && sock.link.None? ==> r.value.orig == Some(iden) && r.value.user == sock.user
  {
    var m := mesg.(ttl := mesg.ttl - 1);
    if m.ttl < 0 then None
    else if sock.link.Some? then Some(m)
    else if sock.sess.Some? then Some(m.(orig := Some(iden), user := sock.user))
    else None
  }

  /** A message relayed along a path of hops, each hop being the receiving node and the
      socket it arrives on; None once some hop drops it. */
  function Relay(hops: seq<(Iden, Sock)>, mesg: Mesg): Option<Mesg>
    decreases |hops|
  {
    if |hops| == 0 then Some(mesg)
    else match Admit(hops[0].0, hops[0].1, mesg)
      case None => None
      case Some(m) => Relay(hops[1..], m)
  }

  /** The time-to-live bounds the number of hops a message survives: after `n` hops it
      has lost exactly `n`, so no message is relayed more than `ttl` times. */
  lemma {:induction false} RelayBounded(hops: seq<(Iden, Sock)>, mesg: Mesg)
    ensures Relay(hops, mesg).Some? ==> |hops| <= mesg.ttl || |hops| == 0
    ensures Relay(hops, mesg).Some? ==> Relay(hops, mesg).value.ttl == mesg.ttl - |hops|
    decreases |hops|
  {
    if |hops| > 0 {
      var a := Admit(hops[0].0, hops[0].1, mesg);
      if a.Some? {
        RelayBounded(hops[1..], a.value);
      }
    }
  }

  /** What became of an xmit message. */
  datatype Drop = TtlExpired | NotAuthenticated | NoRoute | NoLinkSock
  datatype XmitAction = Dropped(why: Drop) | DeliveredLocally(m: Mesg) | Transmitted(sock: nat, m: Mesg)

  // ---------------------------------------------------------------------------
  // The node

  class Node {
    const iden: Iden
    var nodes: map<Iden, NodeDef>
    var links: map<LinkKey, Info>
    var linksBySrc: map<Iden, seq<LinkKey>>
    var linksByDst: map<Iden, seq<LinkKey>>
    var routes: map<RouteKey, Route>
    var routesByLink: map<LinkKey, set<RouteKey>>

    ghost predicate Valid()
      reads this
    {
      && iden in nodes
      && NodeInv(iden, links, linksBySrc, linksByDst, routes, routesByLink)
    }

    /** A node knows its own record, which declares no links and has no tick. */
    constructor(iden: Iden)
      ensures Valid() && this.iden == iden
      ensures nodes == map[iden := NodeDef(iden, None, [])]
      ensures links == map[] && linksBySrc == map[] && linksByDst == map[]
      ensures routes == map[] && routesByLink == map[]
    {
      this.iden := iden;
      nodes := map[iden := NodeDef(iden, None, [])];
      links := map[];
      linksBySrc := map[];
      linksByDst := map[];
      routes := map[];
      routesByLink := map[];
    }

    /** The link stored under `key`, if any. */
    function GetNodeLink(key: LinkKey): (r: Option<Info>)
      reads this
      ensures r.Some? <==> key in links
      ensures r.Some? ==> r.value == links[key]
    {
      if key in links then Some(links[key]) else None
    }

    /** Stores a new graph and index state that is consistent with the cache. */
    method SetGraph(ls: map<LinkKey, Info>, bs: map<Iden, seq<LinkKey>>, bd: map<Iden, seq<LinkKey>>)
      requires iden in nodes && NodeInv(iden, ls, bs, bd, routes, routesByLink)
      modifies this`links, this`linksBySrc, this`linksByDst
      ensures links == ls && linksBySrc == bs && linksByDst == bd
      ensures Valid()
    {
      links, linksBySrc, linksByDst := ls, bs, bd;
    }

    /** Stores a new cache state that is consistent with the graph. */
    method SetCache(rs: map<RouteKey, Route>, rbl: map<LinkKey, set<RouteKey>>)
      requires iden in nodes && NodeInv(iden, links, linksBySrc, linksByDst, rs, rbl)
      modifies this`routes, this`routesByLink
      ensures routes == rs && routesByLink == rbl
      ensures Valid()
    {
      routes, routesByLink := rs, rbl;
    }

    /** Stores a new consistent graph, index and cache state. */
    method SetState(ls: map<LinkKey, Info>, bs: map<Iden, seq<LinkKey>>, bd: map<Iden, seq<LinkKey>>,
                    rs: map<RouteKey, Route>, rbl: map<LinkKey, set<RouteKey>>)
      requires iden in nodes && NodeInv(iden, ls, bs, bd, rs, rbl)
      modifies this`links, this`linksBySrc, this`linksByDst, this`routes, this`routesByLink
      ensures links == ls && linksBySrc == bs && linksByDst == bd && routes == rs && routesByLink == rbl
      ensures Valid()
    {
      links, linksBySrc, linksByDst, routes, routesByLink := ls, bs, bd, rs, rbl;
    }

    /** Registers a new link in the graph and appends it to both index lists. */
    method AddNodeLink(key: LinkKey, info: Info)
      requires Valid() && key !in links
      modifies this`links, this`linksBySrc, this`linksByDst
      ensures links == old(links)[key := info]
      ensures linksBySrc == old(linksBySrc)[key.src := Out(old(linksBySrc), key.src) + [key]]
      ensures linksByDst == old(linksByDst)[key.dst := Out(old(linksByDst), key.dst) + [key]]
      ensures Valid()
    {
      LinkAdded(iden, links, linksBySrc, linksByDst, routes, routesByLink, key, info);
      SetGraph(links[key := info], linksBySrc[key.src := Out(linksBySrc, key.src) + [key]],
               linksByDst[key.dst := Out(linksByDst, key.dst) + [key]]);
    }

    /** Removes a link from the graph and both index lists, and purges every cached
        route registered under it; an unknown key changes nothing. */
    method DelNodeLink(key: LinkKey)
      requires Valid()
      modifies this`links, this`linksBySrc, this`linksByDst, this`routes, this`routesByLink
      ensures key !in old(links) ==> unchanged(this)
      ensures key in old(links) ==>
                && links == old(links) - {key}
                && key.src in old(linksBySrc) && key.dst in old(linksByDst)
                && linksBySrc == old(linksBySrc)[key.src := RemoveFirst(old(linksBySrc)[key.src], key)]
                && linksByDst == old(linksByDst)[key.dst := RemoveFirst(old(linksByDst)[key.dst], key)]
                && routes == old(routes) - Bucket(old(routesByLink), key)
                && routesByLink == old(routesByLink) - {key}
      ensures Valid()
    {
      if key in links {
        DropLink(key);
      }
    }

    /** The removal itself, for a key that is present. */
    method DropLink(key: LinkKey)
      requires Valid() && key in links
      modifies this`links, this`linksBySrc, this`linksByDst, this`routes, this`routesByLink
      ensures key.src in old(linksBySrc) && key.dst in old(linksByDst)
      ensures links == old(links) - {key}
      ensures linksBySrc == old(linksBySrc)[key.src := RemoveFirst(old(linksBySrc)[key.src], key)]
      ensures linksByDst == old(linksByDst)[key.dst := RemoveFirst(old(linksByDst)[key.dst], key)]
      ensures routes == old(routes) - Bucket(old(routesByLink), key)
      ensures routesByLink == old(routesByLink) - {key}
      ensures Valid()
    {
      var rs := PurgeRoutes(routes, Bucket(routesByLink, key));
      GraphDel(iden, links, linksBySrc, linksByDst, routes, routesByLink, key);
      SetState(links - {key}, linksBySrc[key.src := RemoveFirst(linksBySrc[key.src], key)],
               linksByDst[key.dst := RemoveFirst(linksByDst[key.dst], key)], rs, routesByLink - {key});
    }

    /**
     * What a route lookup for `target` leaves in the cache, from `routes0` and
     * `rbl0`: a hit, or an unreachable target, changes nothing; otherwise the
     * shortest route found is cached under its key and registered under each
     * of its links, and nothing else changes.
     */
    ghost predicate LookedUp(routes0: map<RouteKey, Route>, rbl0: map<LinkKey, set<RouteKey>>, target: Iden)
      reads this
    {
      var rk := RouteKey(iden, target);
      if rk in routes0 || Unreachable(links, iden, target) then routes == routes0 && routesByLink == rbl0
      else
        && rk in routes && IsShortestRoute(links, routes[rk], iden, target)
        && routes == routes0[rk := routes[rk]]
        && Registers(rbl0, routesByLink, rk, routes[rk])
    }

    /** Caches `r` under `rk` and registers `rk` under each link of `r`. */
    method AddRouteCache(rk: RouteKey, r: Route)
      requires Valid() && rk.from == iden && IsChain(links, r, iden, rk.to)
      modifies this`routes, this`routesByLink
      ensures routes == old(routes)[rk := r]
      ensures Registers(old(routesByLink), routesByLink, rk, r)
      ensures Valid()
    {
      var rbl := RegisterRoute(routesByLink, rk, r);
      CacheAdd(iden, links, routes, routesByLink, rbl, rk, r);
      SetCache(routes[rk := r], rbl);
    }

    /**
     * The route from this node to `target`: the cached one if there is one, otherwise
     * the breadth-first search result, which is cached when found. An unreachable
     * target leaves the cache as it was.
     */
    method GetRouteTo(target: Iden) returns (r: Option<Route>)
      requires Valid()
      modifies this`routes, this`routesByLink
      ensures RouteKey(iden, target) in old(routes) ==>
                r == Some(old(routes)[RouteKey(iden, target)]) && unchanged(this)
      ensures RouteKey(iden, target) !in old(routes) && r.Some? ==>
                && IsShortestRoute(links, r.value, iden, target)
                && routes == old(routes)[RouteKey(iden, target) := r.value]
                && Registers(old(routesByLink), routesByLink, RouteKey(iden, target), r.value)
      ensures RouteKey(iden, target) !in old(routes) && r.None? ==>
                Unreachable(links, iden, target) && unchanged(this)
      ensures r.Some? ==> IsChain(links, r.value, iden, target) && routes[RouteKey(iden, target)] == r.value
      ensures LookedUp(old(routes), old(routesByLink), target)
      ensures SubMap(old(routes), routes)
      ensures Valid()
    {
      var rk := RouteKey(iden, target);
      if rk in routes {
        return Some(routes[rk]);
      }
      r := FindRoute(links, linksBySrc, iden, target);
      if r.Some? {
        AddRouteCache(rk, r.value);
      }
    }

    /** The next hop towards `target`: the destination of the first link of its route. */
    method GetRouteNext(target: Iden) returns (next: Option<Iden>)
      requires Valid()
      modifies this`routes, this`routesByLink
      ensures next.None? <==> Unreachable(links, iden, target)
      ensures next.Some? ==>
                RouteKey(iden, target) in routes && IsChain(links, routes[RouteKey(iden, target)], iden, target)
                && next.value == routes[RouteKey(iden, target)][0].dst
      ensures RouteKey(iden, target) in old(routes) ==> next == Some(old(routes)[RouteKey(iden, target)][0].dst)
      ensures LookedUp(old(routes), old(routesByLink), target)
      ensures SubMap(old(routes), routes)
      ensures Valid()
    {
      var r := GetRouteTo(target);
      if r.None? {
        return None;
      }
      next := Some(r.value[0].dst);
    }

    /**
     * Accepts a node record unless the stored record for its iden is at least as new.
     * An accepted record replaces the stored one. For an iden seen before, its
     * outbound links whose destination the record no longer declares are removed
     * first; then each declared neighbour gets a new link or has its info merged into
     * the existing link. The local node's own record has no tick entry to look up
     * (a KeyError), and comparing a missing tick with anything is a TypeError.
     */
    method SetNodeDef(node: NodeDef) returns (r: Result<bool>)
      requires Valid() && DistinctDests(node.links)
      modifies this`nodes, this`links, this`linksBySrc, this`linksByDst, this`routes, this`routesByLink
      ensures node.iden == iden ==> r == Err("KeyError")
      ensures node.iden !in old(nodes) ==> r == Ok(true)
      ensures node.iden in old(nodes) && node.iden != iden && (old(nodes)[node.iden].tick.None? || node.tick.None?) ==>
                r == Err("TypeError")
      ensures node.iden in old(nodes) && node.iden != iden && old(nodes)[node.iden].tick.Some? && node.tick.Some? ==>
                r == Ok(old(nodes)[node.iden].tick.value < node.tick.value)
      ensures r != Ok(true) ==> unchanged(this)
      ensures r == Ok(true) ==> nodes == old(nodes)[node.iden := node] && SubMap(routes, old(routes))
      ensures r == Ok(true) && node.iden in old(nodes) ==>
                && links == MergeDecl(Kept(old(links), node.iden, Dests(node.links)), node.iden, node.links)
                && routes == old(routes) - Purged(old(routesByLink), Omitted(old(links), node.iden, Dests(node.links)))
                && routesByLink == old(routesByLink) - Omitted(old(links), node.iden, Dests(node.links))
      ensures node.iden !in old(nodes) ==>
                && links == MergeDecl(old(links), node.iden, node.links)
                && routes == old(routes) && routesByLink == old(routesByLink)
      ensures Valid()
    {
      var iden := node.iden;
      if iden !in nodes {
        nodes := nodes[iden := node];
        MergeLinks(iden, node.links);
        return Ok(true);
      }
      if iden == this.iden {
        return Err("KeyError");
      }
      var oldn := nodes[iden];
      if oldn.tick.None? || node.tick.None? {
        return Err("TypeError");
      }
      if oldn.tick.value >= node.tick.value {
        return Ok(false);
      }
      AcceptNodeDef(node);
      return Ok(true);
    }

    /** The accepting branch of SetNodeDef for an iden seen before: prune, store the
        record, then merge. */
    method AcceptNodeDef(node: NodeDef)
      requires Valid() && DistinctDests(node.links)
      modifies this`nodes, this`links, this`linksBySrc, this`linksByDst, this`routes, this`routesByLink
      ensures nodes == old(nodes)[node.iden := node]
      ensures links == MergeDecl(Kept(old(links), node.iden, Dests(node.links)), node.iden, node.links)
      ensures routes == old(routes) - Purged(old(routesByLink), Omitted(old(links), node.iden, Dests(node.links)))
      ensures routesByLink == old(routesByLink) - Omitted(old(links), node.iden, Dests(node.links))
      ensures SubMap(routes, old(routes))
      ensures Valid()
    {
      var ds := Dests(node.links);
      OutLists(links, linksBySrc, node.iden);
      PrunedIsKept(links, linksBySrc, node.iden, ds);
      PruneLinks(Out(linksBySrc, node.iden), ds);
      nodes := nodes[node.iden := node];
      MergeLinks(node.iden, node.links);
    }

    /** The pruning step of SetNodeDef over the snapshot `outs` of a by-source list:
        each link of `outs` whose destination is not in `ds` is deleted. */
    method PruneLinks(outs: seq<LinkKey>, ds: set<Iden>)
      requires Valid()
      modifies this`links, this`linksBySrc, this`linksByDst, this`routes, this`routesByLink
      ensures links == Pruned(old(links), outs, ds)
      ensures routes == old(routes) - Purged(old(routesByLink), old(links).Keys - links.Keys)
      ensures routesByLink == old(routesByLink) - (old(links).Keys - links.Keys)
      ensures SubMap(routes, old(routes))
      ensures Valid()
    {
      ghost var links0, routes0, rbl0 := links, routes, routesByLink;
      for i := 0 to |outs|
        invariant Valid()
        invariant links == Pruned(links0, outs[..i], ds)
        invariant links.Keys <= links0.Keys
        invariant routes == routes0 - Purged(rbl0, links0.Keys - links.Keys)
        invariant routesByLink == rbl0 - (links0.Keys - links.Keys)
        invariant SubMap(routes, old(routes))
      {
        PrunedStep(links0, outs, i, ds, links);
        if outs[i].dst !in ds {
          if outs[i] in links {
            PurgeStep(links0, links, routes0, rbl0, routes, routesByLink, outs[i]);
          } else {
            assert links - {outs[i]} == links;
          }
          DelNodeLink(outs[i]);
        }
      }
      assert outs[..|outs|] == outs;
    }

    /** The add-or-merge step of SetNodeDef for a record of `src` declaring `decl`. */
    method MergeLinks(src: Iden, decl: seq<(Iden, Info)>)
      requires Valid()
      modifies this`links, this`linksBySrc, this`linksByDst
      ensures links == MergeDecl(old(links), src, decl)
      ensures Valid()
    {
      ghost var links0 := links;
      for i := 0 to |decl|
        invariant Valid()
        invariant links == MergeDecl(links0, src, decl[..i])
      {
        assert decl[..i + 1][..i] == decl[..i];
        var key := LinkKey(src, decl[i].0);
        var info := decl[i].1;
        if key !in links {
          AddNodeLink(key, info);
        } else {
          IndexInfoChange(links, linksBySrc, linksByDst, key, links[key] + info);
          CacheLinksGrow(iden, links, links[key := links[key] + info], routes, routesByLink);
          SetGraph(links[key := links[key] + info], linksBySrc, linksByDst);
        }
      }
      assert decl[..|decl|] == decl;
    }

    /**
     * What routing does with a message for another node, from the cache
     * `routes0`, `rbl0`: the cache is left as a lookup of the destination
     * leaves it; an unreachable destination drops the message; otherwise the
     * message goes to the socket of the cached route's first hop, or is dropped
     * when that hop has no socket.
     */
    ghost predicate Routed(m: Mesg, linkSocks: map<Iden, nat>, act: XmitAction,
                           routes0: map<RouteKey, Route>, rbl0: map<LinkKey, set<RouteKey>>)
      reads this
    {
      var rk := RouteKey(iden, m.dest);
      LookedUp(routes0, rbl0, m.dest) &&
      if Unreachable(links, iden, m.dest) then act == Dropped(NoRoute)
      else
        && rk in routes && IsChain(links, routes[rk], iden, m.dest)
        && act == (if routes[rk][0].dst in linkSocks then Transmitted(linkSocks[routes[rk][0].dst], m)
                   else Dropped(NoLinkSock))
    }

    /** The routing step for an admitted xmit message. */
    method RoutXmitMesg(mesg: Mesg, linkSocks: map<Iden, nat>) returns (act: XmitAction)
      requires Valid()
      modifies this`routes, this`routesByLink
      ensures mesg.dest == iden ==> act == DeliveredLocally(mesg) && unchanged(this)
      ensures mesg.dest != iden ==> Routed(mesg, linkSocks, act, old(routes), old(routesByLink))
      ensures SubMap(old(routes), routes)
      ensures Valid()
    {
      if mesg.dest == iden {
        return DeliveredLocally(mesg);
      }
      var next := GetRouteNext(mesg.dest);
      if next.None? {
        return Dropped(NoRoute);
      }
      if next.value !in linkSocks {
        return Dropped(NoLinkSock);
      }
      return Transmitted(linkSocks[next.value], mesg);
    }

    /** An xmit message received on `sock`: admitted by its time-to-live and socket,
        then routed. */
    method HandXmitMesg(sock: Sock, mesg: Mesg, linkSocks: map<Iden, nat>) returns (act: XmitAction)
      requires Valid()
      modifies this`routes, this`routesByLink
      ensures mesg.ttl < 1 ==> act == Dropped(TtlExpired) && unchanged(this)
      ensures mesg.ttl >= 1 && sock.link.None? && sock.sess.None? ==>
                act == Dropped(NotAuthenticated) && unchanged(this)
      ensures Admit(iden, sock, mesg).Some? && mesg.dest == iden ==>
                act == DeliveredLocally(Admit(iden, sock, mesg).value) && unchanged(this)
      ensures Admit(iden, sock, mesg).Some? && mesg.dest != iden ==>
                Routed(Admit(iden, sock, mesg).value, linkSocks, act, old(routes), old(routesByLink))
      ensures SubMap(old(routes), routes)
      ensures act.Transmitted? ==> Admit(iden, sock, mesg) == Some(act.m) && act.m.ttl == mesg.ttl - 1
      ensures Valid()
    {
      var m := mesg.(ttl := mesg.ttl - 1);
      if m.ttl < 0 {
        return Dropped(TtlExpired);
      }
      if sock.link.Some? {
        act := RoutXmitMesg(m, linkSocks);
        return;
      }
      if sock.sess.Some? {
        act := RoutXmitMesg(m.(orig := Some(iden), user := sock.user), linkSocks);
        return;
      }
      return Dropped(NotAuthenticated);
    }
  }

  /** A first record of an iden leaves the links already known from it in place: a
      link a→b learnt from a socket survives a record of `a` that declares no links. */
  method FirstRecordKeepsLinks() returns (r: Result<bool>, ab: Option<Info>)
    ensures r == Ok(true) && ab == Some(map[])
  {
    var node := new Node("x");
    node.AddNodeLink(LinkKey("a", "b"), map[]);
    r := node.SetNodeDef(NodeDef("a", Some(1), []));
    ab := node.GetNodeLink(LinkKey("a", "b"));
  }

  /** A route asked for twice with nothing changed in between is the cached one. */
  method RouteTwice(node: Node, target: Iden) returns (r1: Option<Route>, r2: Option<Route>)
    requires node.Valid()
    modifies node
    ensures node.Valid()
    ensures r1 == r2
  {
    r1 := node.GetRouteTo(target);
    r2 := node.GetRouteTo(target);
  }

  // ---------------------------------------------------------------------------
  // Dendrite

  /** A unit of work: the service name and its arguments. */
  datatype Work = Work(name: string, args: seq<int>)

  /** What a service callback does with its task: reply with a value through
      `task.retn` and return, raise an exception of the named class, or return
      without replying (its return value is ignored). */
  datatype Outcome = Retn(value: int) | Raise(exc: string) | NoReply

  /** A reply fired on a task: (True, value) or (False, error info). */
  datatype Reply = Success(value: int) | Failure(err: string)

  /** The replies a task receives when `work` runs against the registry `funcs`. */
  function ExecReplies(funcs: map<string, Work -> Outcome>, work: Work): (rs: seq<Reply>)
    ensures work.name !in funcs ==> rs == [Failure("NoSuchName")]
    ensures |rs| <= 1
    ensures forall e :: Failure(e) in rs <==>
              (work.name !in funcs && e == "NoSuchName") || (work.name in funcs && funcs[work.name](work) == Raise(e))
    ensures forall v :: Success(v) in rs <==> work.name in funcs && funcs[work.name](work) == Retn(v)
  {
    if work.name !in funcs then [Failure("NoSuchName")]
    else match funcs[work.name](work)
      case Retn(v) => [Success(v)]
      case Raise(e) => [Failure(e)]
      case NoReply => []
  }

  /** The task a unit of work runs as. */
  class Task {
    var replies: seq<Reply>
    var isfini: bool

    constructor()
      ensures replies == [] && !isfini
    {
      replies := [];
      isfini := false;
    }
  }

  /** A registry of service endpoints by name. */
  class Dendrite {
    var svcFuncs: map<string, Work -> Outcome>

    constructor()
      ensures svcFuncs == map[]
    {
      svcFuncs := map[];
    }

    /** Registers `func` under `name`, replacing an earlier registration. */
    method Add(name: string, func: Work -> Outcome)
      modifies this
      ensures svcFuncs == old(svcFuncs)[name := func]
    {
      svcFuncs := svcFuncs[name := func];
    }

    /** Runs `work` as `task`: a failure is reported on the task, never propagated, and
        the task is finished afterwards. */
    method Exec(task: Task, work: Work)
      modifies task
      ensures task.isfini
      ensures task.replies == old(task.replies) + ExecReplies(svcFuncs, work)
      ensures work.name !in svcFuncs ==> task.replies == old(task.replies) + [Failure("NoSuchName")]
      ensures work.name in svcFuncs && svcFuncs[work.name](work).Raise? ==>
                task.replies == old(task.replies) + [Failure(svcFuncs[work.name](work).exc)]
      ensures work.name in svcFuncs && svcFuncs[work.name](work).Retn? ==>
                task.replies == old(task.replies) + [Success(svcFuncs[work.name](work).value)]
      ensures work.name in svcFuncs && svcFuncs[work.name](work).NoReply? ==>
                task.replies == old(task.replies)
    {
      if work.name !in svcFuncs {
        task.replies := task.replies + [Failure("NoSuchName")];
      } else {
        var outcome := svcFuncs[work.name](work);
        match outcome {
          case Retn(v) => task.replies := task.replies + [Success(v)];
          case Raise(e) => task.replies := task.replies + [Failure(e)];
          case NoReply =>
        }
      }
      task.isfini := true;
    }
  }

  /** The two endpoints of the dendrite test: one adds its first two arguments, the
      other raises. */
  method DendriteScenario() returns (woot: seq<Reply>, boom: seq<Reply>)
    ensures woot == [Success(30)]
    ensures boom == [Failure("Exception")]
  {
    var dend := new Dendrite();
    dend.Add("lol:woot", (w: Work) => if |w.args| >= 2 then Retn(w.args[0] + w.args[1]) else Raise("IndexError"));
    dend.Add("lol:boom", (w: Work) => Raise("Exception"));
    var t1 := new Task();
    dend.Exec(t1, Work("lol:woot", [10, 20]));
    woot := t1.replies;
    var t2 := new Task();
    dend.Exec(t2, Work("lol:boom", [10, 20]));
    boom := t2.replies;
  }
}
