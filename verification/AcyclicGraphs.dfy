/** Finite graphs: ranks that decrease along every edge exist exactly if there is no circle. */
module AcyclicGraphs {
  ghost predicate IsPath<T(!new)>(path: seq<T>, edge: (T, T) -> bool) {
    forall i :: 0 < i < |path| ==> edge(path[i - 1], path[i])
  }

  ghost predicate NoCircles<T(!new)>(nodes: set<T>, edge: (T, T) -> bool) {
    forall path: seq<T> :: |path| > 1 && path[0] in nodes && IsPath(path, edge) ==> path[0] != path[|path| - 1]
  }

  ghost predicate Lower<T(!new)>(rank: map<T, nat>, p: T, bound: nat, edge: (T, T) -> bool) {
    forall q :: edge(p, q) ==> q in rank && rank[q] < bound
  }

  ghost predicate Decreasing<T(!new)>(rank: map<T, nat>, edge: (T, T) -> bool) {
    forall p :: p in rank ==> Lower(rank, p, rank[p], edge)
  }

  lemma {:induction false} PathDecreases<T(!new)>(rank: map<T, nat>, edge: (T, T) -> bool, path: seq<T>)
    requires Decreasing(rank, edge) && path != [] && path[0] in rank && IsPath(path, edge)
    ensures path[|path| - 1] in rank
    ensures |path| > 1 ==> rank[path[|path| - 1]] < rank[path[0]]
  {
    if |path| > 1 {
      var front := path[..|path| - 1];
      PathDecreases(rank, edge, front);
      var p := front[|front| - 1];
      assert edge(p, path[|path| - 1]) && Lower(rank, p, rank[p], edge);
    }
  }

  lemma NoReturn<T(!new)>(nodes: set<T>, edge: (T, T) -> bool, path: seq<T>, k: nat)
    requires NoCircles(nodes, edge) && IsPath(path, edge) && k + 1 < |path| && path[k] in nodes
    ensures path[k] != path[|path| - 1]
  {
    var tail := path[k..];
    assert IsPath(tail, edge) && tail[0] == path[k] && tail[|tail| - 1] == path[|path| - 1];
  }

  /** Walk on until there is nothing unranked to walk to. */
  lemma {:induction false} FindSink<T(!new)>(nodes: set<T>, edge: (T, T) -> bool, open: set<T>, path: seq<T>)
    returns (sink: T)
    requires NoCircles(nodes, edge) && open <= nodes
    requires path != [] && IsPath(path, edge) && forall i :: 0 <= i < |path| ==> path[i] in open
    requires forall i, j :: 0 <= i < j < |path| ==> path[i] != path[j]
    ensures sink in open && forall q :: edge(sink, q) ==> q !in open
    decreases |open| - |path|
  {
    sink := path[|path| - 1];
    if q :| edge(sink, q) && q in open {
      var longer := path + [q];
      assert IsPath(longer, edge);
      if q in path {
        var k :| 0 <= k < |path| && path[k] == q;
        NoReturn(nodes, edge, longer, k);
        assert false;
      } else {
        ElementCount(longer, open);
        sink := FindSink(nodes, edge, open, longer);
      }
    }
  }

  lemma {:induction false} ElementCount<T>(path: seq<T>, open: set<T>)
    requires forall i, j :: 0 <= i < j < |path| ==> path[i] != path[j]
    requires forall i :: 0 <= i < |path| ==> path[i] in open
    ensures |path| <= |open|
  {
    if path != [] {
      ElementCount(path[1..], open - {path[0]});
    }
  }

  lemma {:induction false} RanksExist<T(!new)>(nodes: set<T>, edge: (T, T) -> bool, some: map<T, nat>)
    returns (rank: map<T, nat>)
    requires NoCircles(nodes, edge) && forall p, q :: p in nodes && edge(p, q) ==> q in nodes
    requires some.Keys <= nodes && Decreasing(some, edge) && forall p :: p in some ==> some[p] < |some|
    ensures rank.Keys == nodes && Decreasing(rank, edge)
    decreases |nodes| - |some|
  {
    rank := some;
    var open := nodes - some.Keys;
    if open == {} {
      forall p | p in nodes ensures p in some { assert p !in open; }
    } else {
      var start :| start in open;
      var sink := FindSink(nodes, edge, open, [start]);
      var more := RankNext(nodes, edge, some, sink);
      rank := RanksExist(nodes, edge, more);
    }
  }

  lemma RankNext<T(!new)>(nodes: set<T>, edge: (T, T) -> bool, some: map<T, nat>, sink: T) returns (more: map<T, nat>)
    requires sink in nodes - some.Keys && forall q :: edge(sink, q) ==> q in some
    requires some.Keys <= nodes && Decreasing(some, edge) && forall p :: p in some ==> some[p] < |some|
    ensures more.Keys == some.Keys + {sink} && |more| == |some| + 1 <= |nodes|
    ensures Decreasing(more, edge) && forall p :: p in more ==> more[p] < |more|
  {
    more := some[sink := |some|];
    assert more.Keys == some.Keys + {sink};
    Subset(more.Keys, nodes);
    forall p | p in more ensures Lower(more, p, more[p], edge) {
      if p != sink { assert Lower(some, p, some[p], edge); }
    }
  }

  lemma Subset<T>(some: set<T>, nodes: set<T>)
    requires some <= nodes
    ensures |some| <= |nodes|
  {
    assert nodes == some + (nodes - some);
  }

  /** On a finite set of nodes that edges do not leave. */
  lemma RankedIffAcyclic<T(!new)>(nodes: set<T>, edge: (T, T) -> bool)
    requires forall p, q :: p in nodes && edge(p, q) ==> q in nodes
    ensures (exists rank: map<T, nat> :: rank.Keys == nodes && Decreasing(rank, edge)) <==> NoCircles(nodes, edge)
  {
    if rank: map<T, nat> :| rank.Keys == nodes && Decreasing(rank, edge) {
      forall path: seq<T> | |path| > 1 && path[0] in nodes && IsPath(path, edge) ensures path[0] != path[|path| - 1] {
        PathDecreases(rank, edge, path);
      }
    }
    if NoCircles(nodes, edge) {
      var rank := RanksExist(nodes, edge, map[]);
    }
  }
}
