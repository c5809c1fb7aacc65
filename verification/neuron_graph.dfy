/**
 * The directed link graph of a neuron and the breadth-first route search over it
 * (synapse/neuron.py, Node.getRouteTo).
 *
 * A link is keyed by the ordered pair (src, dst); the graph is the map from link
 * keys to link info, and `bySrc` is the by-source index the search walks, in the
 * order in which links were registered.
 */
module NeuronGraph {
  import opened Wrappers

  type Iden = string

  /** Link info: the opaque attribute dict a node record declares for a neighbour. */
  type Info = map<string, string>

  /** The key of a directed link, (iden0, iden1) in the source. */
  datatype LinkKey = LinkKey(src: Iden, dst: Iden)

  /** A route is the sequence of the links it crosses, first hop first. */
  type Route = seq<LinkKey>

  /** The outbound links of `n` in registration order; a node with no entry has none. */
  function Out(bySrc: map<Iden, seq<LinkKey>>, n: Iden): seq<LinkKey>
  {
    if n in bySrc then bySrc[n] else []
  }

  /** The by-source index lists exactly the links of the graph, each under its own source. */
  ghost predicate SrcIndexed(links: map<LinkKey, Info>, bySrc: map<Iden, seq<LinkKey>>)
  {
    && (forall k :: k in links ==> k.src in bySrc && k in bySrc[k.src])
    && (forall n, i :: n in bySrc && 0 <= i < |bySrc[n]| ==> bySrc[n][i].src == n && bySrc[n][i] in links)
  }

  /** The outbound list of `n` holds exactly the links leaving `n`. */
  ghost predicate OutListsLinks(links: map<LinkKey, Info>, bySrc: map<Iden, seq<LinkKey>>, n: Iden)
  {
    forall k :: k in links && k.src == n <==> k in Out(bySrc, n)
  }

  lemma OutLists(links: map<LinkKey, Info>, bySrc: map<Iden, seq<LinkKey>>, n: Iden)
    requires SrcIndexed(links, bySrc)
    ensures OutListsLinks(links, bySrc, n)
  {
  }

  /** `r` is a chain of current links leading from `from` to `to`. */
  predicate IsChain(links: map<LinkKey, Info>, r: Route, from: Iden, to: Iden)
  {
    && |r| > 0
    && r[0].src == from
    && r[|r| - 1].dst == to
    && (forall i :: 0 <= i < |r| ==> r[i] in links)
    && (forall i :: 0 <= i < |r| - 1 ==> r[i].dst == r[i + 1].src)
  }

  /** `r` is a chain from `from` to `to` with no more hops than any other such chain. */
  ghost predicate IsShortestRoute(links: map<LinkKey, Info>, r: Route, from: Iden, to: Iden)
  {
    IsChain(links, r, from, to) && forall p :: IsChain(links, p, from, to) ==> |r| <= |p|
  }

  /** No chain of links leads from `from` to `to`. */
  ghost predicate Unreachable(links: map<LinkKey, Info>, from: Iden, to: Iden)
  {
    forall p :: !IsChain(links, p, from, to)
  }

  function Last(r: Route): LinkKey
    requires |r| > 0
  {
    r[|r| - 1]
  }

  // ---------------------------------------------------------------------------
  // Search state predicates used by the proof of FindRoute.

  /** Some queued route of at most `len` hops ends at `n`. */
  ghost predicate Enqueued(todo: seq<Route>, n: Iden, len: nat)
  {
    exists q :: q in todo && |q| > 0 && Last(q).dst == n && |q| <= len
  }

  /** A link leaving the expanded node `y` leads to an expanded node at most one level
      deeper, or to the end of a queued route of at most lvl[y] + 1 hops. */
  ghost predicate Covered(done: set<Iden>, lvl: map<Iden, nat>, todo: seq<Route>, y: Iden, n: Iden)
    requires y in lvl
  {
    (n in done && n in lvl && lvl[n] <= lvl[y] + 1) || Enqueued(todo, n, lvl[y] + 1)
  }

  /** Every queued route is a chain from `src` that does not end at the target. */
  ghost predicate QueuedChains(links: map<LinkKey, Info>, src: Iden, target: Iden, todo: seq<Route>)
  {
    forall q :: q in todo ==> |q| > 0 && IsChain(links, q, src, Last(q).dst) && Last(q).dst != target
  }

  /** Queued routes are in nondecreasing hop order and differ by at most one hop. */
  ghost predicate Layered(todo: seq<Route>)
  {
    && (forall i, j :: 0 <= i < j < |todo| ==> |todo[i]| <= |todo[j]|)
    && (forall i, j :: 0 <= i < |todo| && 0 <= j < |todo| ==> |todo[j]| <= |todo[i]| + 1)
  }

  /** No link leaving an expanded node reaches the target. */
  ghost predicate ExpandedMissTarget(links: map<LinkKey, Info>, target: Iden, done: set<Iden>)
  {
    forall y, k :: y in done && k in links && k.src == y ==> k.dst != target
  }

  /** Every link leaving an expanded node is covered. */
  ghost predicate ExpandedCovered(links: map<LinkKey, Info>, done: set<Iden>, lvl: map<Iden, nat>, todo: seq<Route>)
    requires done <= lvl.Keys
  {
    forall y, k :: y in done && k in links && k.src == y ==> Covered(done, lvl, todo, y, k.dst)
  }

  /** No expanded node lies deeper than any queued route. */
  ghost predicate LevelsBelow(done: set<Iden>, lvl: map<Iden, nat>, todo: seq<Route>)
    requires done <= lvl.Keys
  {
    forall y, q :: y in done && q in todo ==> lvl[y] <= |q|
  }

  /** The facts the search keeps at the head of its loop. */
  ghost predicate SearchInv(links: map<LinkKey, Info>, src: Iden, target: Iden,
                            done: set<Iden>, lvl: map<Iden, nat>, todo: seq<Route>)
  {
    && src in done && done == lvl.Keys && lvl[src] == 0
    && QueuedChains(links, src, target, todo)
    && Layered(todo)
    && ExpandedMissTarget(links, target, done)
    && ExpandedCovered(links, done, lvl, todo)
    && LevelsBelow(done, lvl, todo)
  }

  /** The chain `p` passes, after j hops, through the end of a queued route of at most j hops. */
  ghost predicate MeetsQueueAt(todo: seq<Route>, p: Route, j: nat)
  {
    1 <= j <= |p| && Enqueued(todo, p[j - 1].dst, j)
  }

  /** Every chain from `src` either ends at an expanded node no deeper than the chain,
      or meets the queue. */
  lemma {:induction false} ChainMeetsFrontier(links: map<LinkKey, Info>, src: Iden, target: Iden,
                                             done: set<Iden>, lvl: map<Iden, nat>, todo: seq<Route>,
                                             p: Route, z: Iden)
    requires SearchInv(links, src, target, done, lvl, todo)
    requires IsChain(links, p, src, z)
    ensures (z in done && lvl[z] <= |p|) || exists j :: MeetsQueueAt(todo, p, j)
    decreases |p|
  {
    var k := p[|p| - 1];
    if |p| == 1 {
      assert k.src == src && k in links;
      assert Covered(done, lvl, todo, src, k.dst);
      if !(z in done && lvl[z] <= |p|) {
        assert MeetsQueueAt(todo, p, 1);
      }
    } else {
      var p' := p[..|p| - 1];
      var y := p'[|p'| - 1].dst;
      assert p[|p| - 2].dst == p[|p| - 1].src;
      assert IsChain(links, p', src, y);
      ChainMeetsFrontier(links, src, target, done, lvl, todo, p', y);
      if y in done && lvl[y] <= |p'| {
        assert k.src == y && k in links;
        assert Covered(done, lvl, todo, y, k.dst);
        if !(z in done && lvl[z] <= |p|) {
          assert MeetsQueueAt(todo, p, |p|);
        }
      } else {
        var j :| MeetsQueueAt(todo, p', j);
        assert p[j - 1] == p'[j - 1];
        assert MeetsQueueAt(todo, p, j);
      }
    }
  }

  /** While every queued route has at least `d` hops, every chain to the target has more than `d`. */
  lemma {:induction false} NoChainWithin(links: map<LinkKey, Info>, src: Iden, target: Iden,
                                        done: set<Iden>, lvl: map<Iden, nat>, todo: seq<Route>,
                                        p: Route, d: nat)
    requires SearchInv(links, src, target, done, lvl, todo)
    requires forall q :: q in todo ==> d <= |q|
    requires IsChain(links, p, src, target)
    ensures |p| > d
  {
    assert p[0] in links && p[0].src == src;
    assert |p| > 1;
    var p' := p[..|p| - 1];
    var y := p'[|p'| - 1].dst;
    assert p[|p| - 2].dst == p[|p| - 1].src;
    assert p[|p| - 1] in links && p[|p| - 1].src == y;
    assert y !in done;
    assert IsChain(links, p', src, y);
    ChainMeetsFrontier(links, src, target, done, lvl, todo, p', y);
    var j :| MeetsQueueAt(todo, p', j);
    var q :| q in todo && |q| > 0 && Last(q).dst == p'[j - 1].dst && |q| <= j;
  }

  /** The position of the first link in `lst` that leads to `target`, if any. */
  function FirstTo(lst: seq<LinkKey>, target: Iden): (r: Option<nat>)
    ensures r.Some? ==> r.value < |lst| && lst[r.value].dst == target
    ensures r.Some? ==> forall j :: 0 <= j < r.value ==> lst[j].dst != target
    ensures r.None? ==> forall j :: 0 <= j < |lst| ==> lst[j].dst != target
    decreases |lst|
  {
    if |lst| == 0 then None
    else if lst[0].dst == target then Some(0)
    else match FirstTo(lst[1..], target)
      case None => None
      case Some(k) => Some(k + 1)
  }

  /**
   * Breadth-first search for a route from `src` to `target`, as Node.getRouteTo
   * computes it on a cache miss: the outbound links of `src` are checked first
   * (a direct link to the target is returned at once), then queued routes are
   * extended one link at a time in FIFO order.
   */
  method FindRoute(links: map<LinkKey, Info>, bySrc: map<Iden, seq<LinkKey>>, src: Iden, target: Iden)
    returns (r: Option<Route>)
    requires SrcIndexed(links, bySrc)
    ensures r.Some? ==> IsShortestRoute(links, r.value, src, target)
    ensures r.None? ==> Unreachable(links, src, target)
    ensures FirstTo(Out(bySrc, src), target).Some? ==>
              r == Some([Out(bySrc, src)[FirstTo(Out(bySrc, src), target).value]])
  {
    var done: set<Iden> := {src};
    ghost var lvl: map<Iden, nat> := map[src := 0];
    var todo: seq<Route> := [];

    var first := Out(bySrc, src);
    for i := 0 to |first|
      invariant |todo| == i
      invariant forall j :: 0 <= j < i ==> todo[j] == [first[j]] && first[j].dst != target
    {
      var link := first[i];
      if link.dst == target {
        assert IsChain(links, [link], src, target);
        return Some([link]);
      }
      todo := todo + [[link]];
    }

    OutLists(links, bySrc, src);
    FirstLevel(links, bySrc, src, target, first, todo);

    ghost var nodesOf := (set k | k in links :: k.dst) + {src};
    while |todo| > 0
      invariant SearchInv(links, src, target, done, lvl, todo)
      decreases nodesOf - done, |todo|
    {
      var rout := todo[0];
      var tail := rout[|rout| - 1].dst;
      assert rout in todo;
      assert tail in nodesOf;

      if tail in done {
        // The source expands a tail again; its links were all scanned the first time.
        ExpandedSkip(links, src, target, done, lvl, todo);
        todo := todo[1..];
        continue;
      }

      var found;
      OutLists(links, bySrc, tail);
      found, todo := ExpandTail(links, bySrc, src, target, done, lvl, todo);
      if found.Some? {
        return found;
      }
      done := done + {tail};
      lvl := lvl[tail := |rout|];
    }
    Exhausted(links, src, target, done, lvl, todo);
    r := None;
  }

  /** The routes one pass over `outs` queues: `rout` extended by each link, in order,
      whose destination is not yet expanded. */
  function Extensions(rout: Route, outs: seq<LinkKey>, done: set<Iden>): seq<Route>
  {
    if |outs| == 0 then []
    else
      var link := outs[|outs| - 1];
      Extensions(rout, outs[..|outs| - 1], done) + (if link.dst in done then [] else [rout + [link]])
  }

  /** The queued extensions are exactly `rout` extended by the links to unexpanded nodes. */
  lemma {:induction false} ExtensionsMembers(rout: Route, outs: seq<LinkKey>, done: set<Iden>)
    ensures forall x :: x in Extensions(rout, outs, done) ==>
              exists link :: link in outs && link.dst !in done && x == rout + [link]
    ensures forall link :: link in outs && link.dst !in done ==> rout + [link] in Extensions(rout, outs, done)
  {
    if |outs| > 0 {
      var init := outs[..|outs| - 1];
      ExtensionsMembers(rout, init, done);
      assert outs == init + [outs[|outs| - 1]];
      forall link | link in outs && link.dst !in done
        ensures rout + [link] in Extensions(rout, outs, done)
      {
        if link != outs[|outs| - 1] {
          assert link in init;
        }
      }
    }
  }

  /**
   * The scan of one expanded node's outbound links `outs`, in order: stops at the
   * first link that reaches the target, and otherwise appends to `todo0` the route
   * `rout` extended by every link to a node not in `done`.
   */
  method ScanLinks(outs: seq<LinkKey>, rout: Route, done: set<Iden>, target: Iden, todo0: seq<Route>)
    returns (hit: Option<LinkKey>, todo: seq<Route>)
    ensures hit.Some? ==> hit.value in outs && hit.value.dst == target
    ensures hit.None? ==> (forall j :: 0 <= j < |outs| ==> outs[j].dst != target)
    ensures hit.None? ==> todo == todo0 + Extensions(rout, outs, done)
  {
    todo := todo0;
    for i := 0 to |outs|
      invariant todo == todo0 + Extensions(rout, outs[..i], done)
      invariant forall j :: 0 <= j < i ==> outs[j].dst != target
    {
      var link := outs[i];
      assert outs[..i + 1] == outs[..i] + [link];
      if link.dst == target {
        return Some(link), todo;
      }
      if link.dst in done {
        continue;
      }
      todo := todo + [rout + [link]];
    }
    assert outs[..|outs|] == outs;
    hit := None;
  }

  /**
   * One pass of the search loop for a front route whose tail has not been expanded:
   * the tail joins the expanded nodes and its outbound links are scanned.
   */
  method ExpandTail(links: map<LinkKey, Info>, bySrc: map<Iden, seq<LinkKey>>, src: Iden, target: Iden,
                    done0: set<Iden>, ghost lvl0: map<Iden, nat>, todo0: seq<Route>)
    returns (found: Option<Route>, todo: seq<Route>)
    requires SearchInv(links, src, target, done0, lvl0, todo0)
    requires |todo0| > 0 && Last(todo0[0]).dst !in done0
    requires OutListsLinks(links, bySrc, Last(todo0[0]).dst)
    ensures found.Some? ==> IsShortestRoute(links, found.value, src, target)
    ensures found.None? ==>
              SearchInv(links, src, target, done0 + {Last(todo0[0]).dst}, lvl0[Last(todo0[0]).dst := |todo0[0]|], todo)
  {
    var rout := todo0[0];
    var tail := rout[|rout| - 1].dst;
    var outs := Out(bySrc, tail);
    var hit;
    hit, todo := ScanLinks(outs, rout, done0 + {tail}, target, todo0[1..]);
    if hit.Some? {
      var link := hit.value;
      assert link in links && link.src == tail;
      FoundShortest(links, src, target, done0, lvl0, todo0, link);
      return Some(rout + [link]), todo;
    }
    forall k | k in outs ensures k.dst != target {
      var j :| 0 <= j < |outs| && outs[j] == k;
    }
    ExpandedStep(links, src, target, done0, lvl0, todo0, outs, todo);
    found := None;
  }

  /** A link from the freshly expanded tail to an expanded node is covered. */
  lemma DoneCovered(done0: set<Iden>, lvl0: map<Iden, nat>, todo0: seq<Route>, tail: Iden,
                    done: set<Iden>, lvl: map<Iden, nat>, todo: seq<Route>, n: Iden)
    requires done0 == lvl0.Keys && LevelsBelow(done0, lvl0, todo0) && |todo0| > 0 && |todo0[0]| > 0
    requires done == done0 + {tail} && lvl == lvl0[tail := |todo0[0]|]
    requires n in done
    ensures Covered(done, lvl, todo, tail, n)
  {
    assert todo0[0] in todo0;
  }

  /** A link from the tail of the front route to the target completes a shortest route. */
  lemma FoundShortest(links: map<LinkKey, Info>, src: Iden, target: Iden,
                      done: set<Iden>, lvl: map<Iden, nat>, todo: seq<Route>, link: LinkKey)
    requires SearchInv(links, src, target, done, lvl, todo)
    requires |todo| > 0 && link in links && link.src == Last(todo[0]).dst && link.dst == target
    ensures IsShortestRoute(links, todo[0] + [link], src, target)
  {
    var rout := todo[0];
    assert rout in todo;
    forall q | q in todo ensures |rout| <= |q| {
      var j :| 0 <= j < |todo| && todo[j] == q;
    }
    forall p | IsChain(links, p, src, target)
      ensures |rout + [link]| <= |p|
    {
      NoChainWithin(links, src, target, done, lvl, todo, p, |rout|);
    }
    assert IsChain(links, rout + [link], src, target);
  }

  /** Once the queue is empty no chain reaches the target. */
  lemma Exhausted(links: map<LinkKey, Info>, src: Iden, target: Iden,
                  done: set<Iden>, lvl: map<Iden, nat>, todo: seq<Route>)
    requires SearchInv(links, src, target, done, lvl, todo) && todo == []
    ensures Unreachable(links, src, target)
  {
    forall p | true
      ensures !IsChain(links, p, src, target)
    {
      if IsChain(links, p, src, target) {
        NoChainWithin(links, src, target, done, lvl, todo, p, |p|);
      }
    }
  }

  /** The queue built from the outbound links of `src`, none of which reaches the
      target, satisfies the search invariant with only `src` expanded. */
  lemma FirstLevel(links: map<LinkKey, Info>, bySrc: map<Iden, seq<LinkKey>>, src: Iden, target: Iden,
                   first: seq<LinkKey>, todo: seq<Route>)
    requires OutListsLinks(links, bySrc, src) && first == Out(bySrc, src)
    requires |todo| == |first|
    requires forall j :: 0 <= j < |first| ==> todo[j] == [first[j]] && first[j].dst != target
    ensures SearchInv(links, src, target, {src}, map[src := 0], todo)
  {
    var done, lvl := {src}, map[src := 0];
    forall q | q in todo
      ensures |q| > 0 && IsChain(links, q, src, Last(q).dst) && Last(q).dst != target
    {
      var j :| 0 <= j < |todo| && todo[j] == q;
    }
    forall k | k in links && k.src == src
      ensures k.dst != target && Covered(done, lvl, todo, src, k.dst)
    {
      var j :| 0 <= j < |first| && first[j] == k;
      assert todo[j] in todo && Last(todo[j]).dst == k.dst;
    }
    assert QueuedChains(links, src, target, todo);
    forall i, j | 0 <= i < |todo| && 0 <= j < |todo| ensures |todo[j]| == |todo[i]| == 1 {
      assert todo[i] == [first[i]] && todo[j] == [first[j]];
    }
    assert Layered(todo);
    assert ExpandedMissTarget(links, target, done);
    assert ExpandedCovered(links, done, lvl, todo);
    assert LevelsBelow(done, lvl, todo);
  }

  /** Appending to the queue keeps a link covered. */
  lemma CoveredGrows(done: set<Iden>, lvl: map<Iden, nat>, todo: seq<Route>, x: Route, y: Iden, n: Iden)
    requires y in lvl && Covered(done, lvl, todo, y, n)
    ensures Covered(done, lvl, todo + [x], y, n)
  {
    if Enqueued(todo, n, lvl[y] + 1) {
      var q :| q in todo && |q| > 0 && Last(q).dst == n && |q| <= lvl[y] + 1;
      assert q in todo + [x];
    }
  }

  /** Dropping the front route whose tail is already expanded keeps the search invariant. */
  lemma ExpandedSkip(links: map<LinkKey, Info>, src: Iden, target: Iden,
                     done: set<Iden>, lvl: map<Iden, nat>, todo0: seq<Route>)
    requires SearchInv(links, src, target, done, lvl, todo0)
    requires |todo0| > 0 && Last(todo0[0]).dst in done
    ensures SearchInv(links, src, target, done, lvl, todo0[1..])
  {
    var todo := todo0[1..];
    forall q | q in todo ensures q in todo0 { }
    forall y, k | y in done && k in links && k.src == y
      ensures Covered(done, lvl, todo, y, k.dst)
    {
      assert Covered(done, lvl, todo0, y, k.dst);
      if !(k.dst in done && lvl[k.dst] <= lvl[y] + 1) {
        var q :| q in todo0 && |q| > 0 && Last(q).dst == k.dst && |q| <= lvl[y] + 1;
        if q != todo0[0] {
          var j :| 0 <= j < |todo0| && todo0[j] == q;
          assert todo[j - 1] == q;
        }
      }
    }
    forall i, j | 0 <= i < j < |todo| ensures |todo[i]| <= |todo[j]| {
      assert todo[i] == todo0[i + 1] && todo[j] == todo0[j + 1];
    }
    forall i, j | 0 <= i < |todo| && 0 <= j < |todo| ensures |todo[j]| <= |todo[i]| + 1 {
      assert todo[i] == todo0[i + 1] && todo[j] == todo0[j + 1];
    }
  }

  /** `todo` is `todo0` with its front route `rout` popped and routes of one more hop
      than `rout`, each a chain from `src` missing the target, appended. */
  ghost predicate Extended(links: map<LinkKey, Info>, src: Iden, target: Iden,
                           todo0: seq<Route>, rout: Route, todo: seq<Route>)
  {
    && |todo0| > 0 && rout == todo0[0]
    && |todo| >= |todo0| - 1 && todo[..|todo0| - 1] == todo0[1..]
    && forall j :: |todo0| - 1 <= j < |todo| ==>
         |todo[j]| == |rout| + 1 && IsChain(links, todo[j], src, Last(todo[j]).dst) && Last(todo[j]).dst != target
  }

  lemma ExtendedMembers(links: map<LinkKey, Info>, src: Iden, target: Iden,
                        todo0: seq<Route>, rout: Route, todo: seq<Route>)
    requires Extended(links, src, target, todo0, rout, todo)
    ensures forall q :: q in todo ==>
              q in todo0 || (|q| == |rout| + 1 && IsChain(links, q, src, Last(q).dst) && Last(q).dst != target)
    ensures forall j :: 1 <= j < |todo0| ==> todo[j - 1] == todo0[j]
  {
    var n0 := |todo0| - 1;
    forall j | 1 <= j < |todo0| ensures todo[j - 1] == todo0[j] {
      assert todo[j - 1] == todo[..n0][j - 1];
    }
    forall q | q in todo
      ensures q in todo0 || (|q| == |rout| + 1 && IsChain(links, q, src, Last(q).dst) && Last(q).dst != target)
    {
      var j :| 0 <= j < |todo| && todo[j] == q;
      if j < n0 {
        assert todo[j] == todo0[j + 1];
      }
    }
  }

  lemma ExtendedQueuedChains(links: map<LinkKey, Info>, src: Iden, target: Iden,
                             todo0: seq<Route>, rout: Route, todo: seq<Route>)
    requires QueuedChains(links, src, target, todo0)
    requires Extended(links, src, target, todo0, rout, todo)
    ensures QueuedChains(links, src, target, todo)
  {
    ExtendedMembers(links, src, target, todo0, rout, todo);
  }

  lemma ExtendedLayered(links: map<LinkKey, Info>, src: Iden, target: Iden,
                        todo0: seq<Route>, rout: Route, todo: seq<Route>)
    requires Layered(todo0)
    requires Extended(links, src, target, todo0, rout, todo)
    ensures Layered(todo)
    ensures forall q :: q in todo ==> |rout| <= |q| <= |rout| + 1
  {
    ExtendedMembers(links, src, target, todo0, rout, todo);
    var n0 := |todo0| - 1;
    forall q | q in todo ensures |rout| <= |q| <= |rout| + 1 {
      if q in todo0 {
        var j :| 0 <= j < |todo0| && todo0[j] == q;
      }
    }
    forall i, j | 0 <= i < j < |todo| ensures |todo[i]| <= |todo[j]| {
      assert todo[i] in todo && todo[j] in todo;
      if j < n0 {
        assert todo[i] == todo0[i + 1] && todo[j] == todo0[j + 1];
      }
    }
    forall i, j | 0 <= i < |todo| && 0 <= j < |todo| ensures |todo[j]| <= |todo[i]| + 1 {
      assert todo[i] in todo && todo[j] in todo;
    }
  }

  lemma ExtendedCovered(links: map<LinkKey, Info>, src: Iden, target: Iden,
                        done0: set<Iden>, lvl0: map<Iden, nat>, todo0: seq<Route>,
                        rout: Route, tail: Iden,
                        done: set<Iden>, lvl: map<Iden, nat>, todo: seq<Route>)
    requires done0 == lvl0.Keys
    requires ExpandedCovered(links, done0, lvl0, todo0)
    requires Extended(links, src, target, todo0, rout, todo)
    requires |rout| > 0 && tail == Last(rout).dst && tail !in done0
    requires done == done0 + {tail} && lvl == lvl0[tail := |rout|]
    ensures forall y, k :: y in done0 && k in links && k.src == y ==> Covered(done, lvl, todo, y, k.dst)
  {
    ExtendedMembers(links, src, target, todo0, rout, todo);
    forall y, k | y in done0 && k in links && k.src == y
      ensures Covered(done, lvl, todo, y, k.dst)
    {
      assert Covered(done0, lvl0, todo0, y, k.dst);
      if !(k.dst in done0 && lvl0[k.dst] <= lvl0[y] + 1) {
        var q :| q in todo0 && |q| > 0 && Last(q).dst == k.dst && |q| <= lvl0[y] + 1;
        var j :| 0 <= j < |todo0| && todo0[j] == q;
        if j == 0 {
          assert k.dst == tail && lvl[tail] == |rout| <= lvl[y] + 1;
        } else {
          assert todo[j - 1] == q;
          assert Enqueued(todo, k.dst, lvl[y] + 1);
        }
      }
    }
  }

  /** The queue after a scan that missed the target is `todo0` extended, in the sense of Extended. */
  lemma ScanExtends(links: map<LinkKey, Info>, src: Iden, target: Iden,
                    todo0: seq<Route>, outs: seq<LinkKey>, done: set<Iden>, todo: seq<Route>)
    requires QueuedChains(links, src, target, todo0)
    requires |todo0| > 0
    requires forall k :: k in outs ==> k in links && k.src == Last(todo0[0]).dst && k.dst != target
    requires todo == todo0[1..] + Extensions(todo0[0], outs, done)
    ensures Extended(links, src, target, todo0, todo0[0], todo)
  {
    var rout := todo0[0];
    var ext := Extensions(rout, outs, done);
    ExtensionsMembers(rout, outs, done);
    assert rout in todo0;
    assert todo[..|todo0| - 1] == todo0[1..];
    forall j | |todo0| - 1 <= j < |todo|
      ensures |todo[j]| == |rout| + 1 && IsChain(links, todo[j], src, Last(todo[j]).dst) && Last(todo[j]).dst != target
    {
      assert todo[j] == ext[j - (|todo0| - 1)] && todo[j] in ext;
      var link :| link in outs && link.dst !in done && todo[j] == rout + [link];
      assert IsChain(links, rout + [link], src, link.dst);
    }
  }

  /** Expanding the front route's tail, when no link from it reaches the target,
      keeps the search invariant. */
  /** Every link leaving the newly expanded tail is covered after the expansion. */
  lemma TailCovered(links: map<LinkKey, Info>, target: Iden,
                    done0: set<Iden>, lvl0: map<Iden, nat>, todo0: seq<Route>,
                    outs: seq<LinkKey>, done: set<Iden>, lvl: map<Iden, nat>, todo: seq<Route>)
    requires done0 == lvl0.Keys && LevelsBelow(done0, lvl0, todo0) && |todo0| > 0 && |todo0[0]| > 0
    requires done == done0 + {Last(todo0[0]).dst} && lvl == lvl0[Last(todo0[0]).dst := |todo0[0]|]
    requires forall k :: k in links && k.src == Last(todo0[0]).dst ==> k in outs
    requires forall k :: k in outs ==> k.dst != target
    requires todo == todo0[1..] + Extensions(todo0[0], outs, done)
    ensures forall k :: k in links && k.src == Last(todo0[0]).dst ==>
              k.dst != target && Covered(done, lvl, todo, Last(todo0[0]).dst, k.dst)
  {
    var rout := todo0[0];
    var tail := Last(rout).dst;
    ExtensionsMembers(rout, outs, done);
    forall k | k in links && k.src == tail
      ensures k.dst != target && Covered(done, lvl, todo, tail, k.dst)
    {
      assert k in outs;
      if k.dst in done {
        DoneCovered(done0, lvl0, todo0, tail, done, lvl, todo, k.dst);
      } else {
        assert rout + [k] in todo;
        assert Last(rout + [k]).dst == k.dst;
      }
    }
  }

  /** Expanding the front route keeps every expanded node no deeper than the queue. */
  lemma LevelsStep(done0: set<Iden>, lvl0: map<Iden, nat>, todo0: seq<Route>,
                   done: set<Iden>, lvl: map<Iden, nat>, todo: seq<Route>)
    requires done0 == lvl0.Keys && LevelsBelow(done0, lvl0, todo0) && |todo0| > 0 && |todo0[0]| > 0
    requires done == done0 + {Last(todo0[0]).dst} && lvl == lvl0[Last(todo0[0]).dst := |todo0[0]|]
    requires forall q :: q in todo ==> |todo0[0]| <= |q|
    ensures LevelsBelow(done, lvl, todo)
  {
    var rout := todo0[0];
    assert rout in todo0;
    forall y, q | y in done && q in todo ensures lvl[y] <= |q| {
      if y != Last(rout).dst {
        assert lvl0[y] <= |rout|;
      }
    }
  }

  /** The coverage facts for the old nodes and for the new tail join into those of the new state. */
  lemma CoveredStep(links: map<LinkKey, Info>, target: Iden, done0: set<Iden>, tail: Iden,
                    done: set<Iden>, lvl: map<Iden, nat>, todo: seq<Route>)
    requires done == done0 + {tail} && done <= lvl.Keys
    requires ExpandedMissTarget(links, target, done0)
    requires forall y, k :: y in done0 && k in links && k.src == y ==> Covered(done, lvl, todo, y, k.dst)
    requires forall k :: k in links && k.src == tail ==> k.dst != target && Covered(done, lvl, todo, tail, k.dst)
    ensures ExpandedMissTarget(links, target, done) && ExpandedCovered(links, done, lvl, todo)
  {
    forall y, k | y in done && k in links && k.src == y
      ensures k.dst != target && Covered(done, lvl, todo, y, k.dst)
    {
      if y != tail {
        assert y in done0;
      }
    }
  }

  /** Expanding the front route keeps the queue a layered list of chains. */
  lemma ExpandedQueue(links: map<LinkKey, Info>, src: Iden, target: Iden,
                      todo0: seq<Route>, outs: seq<LinkKey>, done: set<Iden>, todo: seq<Route>)
    requires QueuedChains(links, src, target, todo0) && Layered(todo0) && |todo0| > 0
    requires forall k :: k in outs ==> k in links && k.src == Last(todo0[0]).dst && k.dst != target
    requires todo == todo0[1..] + Extensions(todo0[0], outs, done)
    ensures Extended(links, src, target, todo0, todo0[0], todo)
    ensures QueuedChains(links, src, target, todo) && Layered(todo)
    ensures forall q :: q in todo ==> |todo0[0]| <= |q|
  {
    ScanExtends(links, src, target, todo0, outs, done, todo);
    ExtendedQueuedChains(links, src, target, todo0, todo0[0], todo);
    ExtendedLayered(links, src, target, todo0, todo0[0], todo);
  }

  /** Expanding the front route keeps every link leaving an expanded node covered and
      away from the target. */
  lemma ExpandedCover(links: map<LinkKey, Info>, src: Iden, target: Iden,
                      done0: set<Iden>, lvl0: map<Iden, nat>, todo0: seq<Route>,
                      outs: seq<LinkKey>, done: set<Iden>, lvl: map<Iden, nat>, todo: seq<Route>)
    requires done0 == lvl0.Keys && |todo0| > 0 && |todo0[0]| > 0 && Last(todo0[0]).dst !in done0
    requires ExpandedMissTarget(links, target, done0) && ExpandedCovered(links, done0, lvl0, todo0)
    requires LevelsBelow(done0, lvl0, todo0)
    requires done == done0 + {Last(todo0[0]).dst} && lvl == lvl0[Last(todo0[0]).dst := |todo0[0]|]
    requires forall k :: k in links && k.src == Last(todo0[0]).dst ==> k in outs
    requires forall k :: k in outs ==> k.dst != target
    requires todo == todo0[1..] + Extensions(todo0[0], outs, done)
    requires Extended(links, src, target, todo0, todo0[0], todo)
    ensures ExpandedMissTarget(links, target, done) && ExpandedCovered(links, done, lvl, todo)
  {
    var tail := Last(todo0[0]).dst;
    ExtendedCovered(links, src, target, done0, lvl0, todo0, todo0[0], tail, done, lvl, todo);
    TailCovered(links, target, done0, lvl0, todo0, outs, done, lvl, todo);
    CoveredStep(links, target, done0, tail, done, lvl, todo);
  }

  /** One expansion of the front route keeps the search invariant. */
  lemma ExpandedStep(links: map<LinkKey, Info>, src: Iden, target: Iden,
                     done0: set<Iden>, lvl0: map<Iden, nat>, todo0: seq<Route>,
                     outs: seq<LinkKey>, todo: seq<Route>)
    requires SearchInv(links, src, target, done0, lvl0, todo0)
    requires |todo0| > 0 && Last(todo0[0]).dst !in done0
    requires forall k :: k in links && k.src == Last(todo0[0]).dst ==> k in outs
    requires forall k :: k in outs ==> k in links && k.src == Last(todo0[0]).dst && k.dst != target
    requires todo == todo0[1..] + Extensions(todo0[0], outs, done0 + {Last(todo0[0]).dst})
    ensures SearchInv(links, src, target, done0 + {Last(todo0[0]).dst}, lvl0[Last(todo0[0]).dst := |todo0[0]|], todo)
  {
    var rout := todo0[0];
    var tail := Last(rout).dst;
    var done, lvl := done0 + {tail}, lvl0[tail := |rout|];
    assert rout in todo0;
    ExpandedQueue(links, src, target, todo0, outs, done, todo);
    ExpandedCover(links, src, target, done0, lvl0, todo0, outs, done, lvl, todo);
    LevelsStep(done0, lvl0, todo0, done, lvl, todo);
  }
}
