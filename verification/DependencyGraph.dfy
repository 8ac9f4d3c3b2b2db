/** Dependency cycles: the three-colour depth-first search, and what it decides. */
module DependencyGraph {
  import opened Optional
  import opened Ordering

  type Graph = map<string, seq<string>>

  /** A dependency between two known IDs; dependencies on unknown IDs are skipped by the search. */
  predicate Edge(g: Graph, a: string, b: string) {
    a in g && b in g && b in g[a]
  }

  predicate Path(g: Graph, p: seq<string>) {
    forall i | 0 <= i < |p| - 1 :: Edge(g, p[i], p[i + 1])
  }

  predicate Cycle(g: Graph, p: seq<string>) {
    |p| >= 2 && Path(g, p) && p[0] == p[|p| - 1]
  }

  ghost predicate Acyclic(g: Graph) {
    forall p :: !Cycle(g, p)
  }

  ghost predicate OnCycle(g: Graph, id: string) {
    exists p :: Cycle(g, p) && p[0] == id
  }

  /** Every known dependency of an entry stands before it. */
  predicate Scheduled(g: Graph, order: seq<string>) {
    forall i, d | 0 <= i < |order| && order[i] in g && d in g[order[i]] && d in g :: d in order[..i]
  }

  function Position(order: seq<string>, id: string): (k: nat)
    requires id in order
    ensures k < |order| && order[k] == id
    ensures forall i | 0 <= i < |order| && order[i] == id :: k <= i
  {
    if order[0] == id then 0
    else
      assert order == [order[0]] + order[1..];
      Position(order[1..], id) + 1
  }

  lemma EdgeDescends(g: Graph, order: seq<string>, a: string, b: string)
    requires Scheduled(g, order) && a in order && Edge(g, a, b)
    ensures b in order && Position(order, b) < Position(order, a)
  {
    var i := Position(order, a);
    assert b in order[..i];
    var k :| 0 <= k < i && order[k] == b;
  }

  lemma {:induction false} PathDescends(g: Graph, order: seq<string>, p: seq<string>, n: nat)
    requires Scheduled(g, order) && Path(g, p) && n < |p| && p[0] in order
    ensures p[n] in order && Position(order, p[n]) + n <= Position(order, p[0])
  {
    if n > 0 {
      PathDescends(g, order, p, n - 1);
      assert Edge(g, p[n - 1], p[n - 1 + 1]);
      EdgeDescends(g, order, p[n - 1], p[n]);
    }
  }

  /** A schedule of every known ID rules out cycles. */
  lemma ScheduleMeansAcyclic(g: Graph, order: seq<string>)
    requires Scheduled(g, order) && forall id | id in g :: id in order
    ensures Acyclic(g)
  {
    forall p ensures !Cycle(g, p) {
      if |p| >= 2 && Path(g, p) {
        assert Edge(g, p[0], p[0 + 1]);
        PathDescends(g, order, p, |p| - 1);
      }
    }
  }

  lemma ScheduleExtends(g: Graph, order: seq<string>, id: string)
    requires Scheduled(g, order) && id in g && forall d | d in g[id] && d in g :: d in order
    ensures Scheduled(g, order + [id])
  {
    var longer := order + [id];
    forall i, d | 0 <= i < |longer| && longer[i] in g && d in g[longer[i]] && d in g ensures d in longer[..i] {
      if i < |order| { assert d in order[..i]; assert longer[..i] == order[..i]; }
      else { assert longer[..i] == order; }
    }
  }

  class CycleDetector {
    const known: Graph
    var visiting: set<string>
    var visited: set<string>
    ghost var stack: seq<string>
    ghost var finished: seq<string>

    ghost predicate Valid()
      reads this
    {
      && (forall id :: id in visiting <==> id in stack)
      && (forall id :: id in visited <==> id in finished)
      && Path(known, stack) && (forall id | id in stack :: id in known)
      && Scheduled(known, finished) && (forall id | id in finished :: id in known)
      && visiting !! visited
    }

    constructor (known: Graph)
      ensures Valid() && this.known == known && stack == [] && finished == []
      ensures visiting == {} && visited == {}
    {
      this.known := known;
      visiting, visited, stack, finished := {}, {}, [], [];
    }

    lemma BackEdge(id: string)
      requires Valid() && id in visiting && stack != [] && Edge(known, stack[|stack| - 1], id)
      ensures OnCycle(known, id)
    {
      var k :| 0 <= k < |stack| && stack[k] == id;
      var p := stack[k..] + [id];
      forall i | 0 <= i < |p| - 1 ensures Edge(known, p[i], p[i + 1]) {
        if i < |p| - 2 { assert Edge(known, stack[k + i], stack[k + i + 1]); }
      }
      assert Cycle(known, p);
    }

    /** Returns an ID on a cycle, or `None` after finishing `id` and everything it needs. */
    method Visit(id: string) returns (at: Option<string>)
      requires Valid() && id in known
      requires stack == [] || Edge(known, stack[|stack| - 1], id)
      modifies this
      ensures at.Some? ==> OnCycle(known, at.value)
      ensures at.None? ==> Valid() && id in visited && stack == old(stack) && visiting == old(visiting)
      ensures at.None? ==> old(visited) <= visited
      decreases known.Keys - visiting - visited
    {
      if id in visiting {
        BackEdge(id);
        return Some(id);
      }
      if id in visited {
        return None;
      }
      visiting := visiting + {id};
      stack := stack + [id];
      for i := 0 to |known[id]|
        invariant Valid() && stack == old(stack) + [id] && visiting == old(visiting) + {id}
        invariant old(visited) <= visited
        invariant forall d | d in known[id][..i] && d in known :: d in visited
      {
        var dependency := known[id][i];
        if dependency in known {
          assert id in known.Keys - old(visiting) - old(visited) && id in visiting;
          assert known.Keys - visiting - visited < known.Keys - old(visiting) - old(visited);
          at := Visit(dependency);
          if at.Some? {
            return;
          }
        }
      }
      assert known[id][..|known[id]|] == known[id];
      visiting := visiting - {id};
      visited := visited + {id};
      stack := old(stack);
      ghost var order := finished;
      finished := finished + [id];
      ScheduleExtends(known, order, id);
      return None;
    }
  }

  /** `resiliencePlanCycles`: sound, complete and terminating, whatever the order of `ids`. */
  method FindCycle(known: Graph, ids: seq<string>) returns (at: Option<string>)
    requires forall id :: id in ids <==> id in known
    ensures at.None? <==> Acyclic(known)
    ensures at.Some? ==> OnCycle(known, at.value)
  {
    var detector := new CycleDetector(known);
    var sorted := Sort(ids, StrLe);
    forall id ensures id in sorted <==> id in ids { SortMembers(ids, StrLe, id); }
    for i := 0 to |sorted|
      invariant detector.Valid() && detector.known == known && detector.stack == []
      invariant fresh(detector)
      invariant forall id | id in sorted[..i] :: id in detector.visited
    {
      at := detector.Visit(sorted[i]);
      if at.Some? {
        return;
      }
    }
    assert sorted[..|sorted|] == sorted;
    ScheduleMeansAcyclic(known, detector.finished);
    return None;
  }

  /** `lifecycleCycles`: the same answer when the map is walked in an arbitrary order. */
  method FindCycleAnyOrder(known: Graph) returns (at: Option<string>)
    ensures at.None? <==> Acyclic(known)
    ensures at.Some? ==> OnCycle(known, at.value)
  {
    var detector := new CycleDetector(known);
    var rest := known.Keys;
    while rest != {}
      invariant rest <= known.Keys
      invariant detector.Valid() && detector.known == known && detector.stack == []
      invariant fresh(detector)
      invariant forall id | id in known && id !in rest :: id in detector.visited
      decreases rest
    {
      var id :| id in rest;
      at := detector.Visit(id);
      if at.Some? {
        return;
      }
      rest := rest - {id};
    }
    ScheduleMeansAcyclic(known, detector.finished);
    return None;
  }
}
