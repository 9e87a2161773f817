/**
 Names reachable along edges, as the least closed set; the two worklist loops of
 `codex-rs/app-server-protocol/src/export.rs` are proved against it.
 */
module Reachability {

  type Edges = map<string, set<string>>

  function Targets(edges: Edges): (names: set<string>) {
    set n, d | n in edges && d in edges[n] :: d
  }

  ghost predicate Closed(edges: Edges, names: set<string>) {
    forall n :: n in names && n in edges ==> edges[n] <= names
  }

  /** The names no closed set that holds `start` can leave out. */
  ghost function Reach(edges: Edges, start: set<string>): set<string> {
    set n | n in start + Targets(edges) && (forall s :: start <= s && Closed(edges, s) ==> n in s)
  }

  /** `Reach` is the least closed set that holds `start`. */
  lemma ReachIsLeastClosed(edges: Edges, start: set<string>)
    ensures IsLeastClosed(edges, start, Reach(edges, start))
  {
    forall n | n in Reach(edges, start) && n in edges
      ensures edges[n] <= Reach(edges, start)
    {
      assert edges[n] <= Targets(edges);
    }
    forall s | start <= s && Closed(edges, s)
      ensures Reach(edges, start) <= s
    {
      assert forall n :: n in Reach(edges, start) ==> n in s;
    }
  }

  method PushAll(stack: seq<string>, names: set<string>) returns (pushed: seq<string>)
    ensures forall n :: n in pushed <==> n in stack || n in names
  {
    pushed := stack;
    var left := names;
    while left != {}
      invariant left <= names
      invariant forall n :: n in pushed <==> n in stack || n in names - left
    {
      var n :| n in left;
      pushed := pushed + [n];
      left := left - {n};
    }
  }

  ghost predicate IsLeastClosed(edges: Edges, start: set<string>, goal: set<string>) {
    start <= goal && Closed(edges, goal) && forall s :: start <= s && Closed(edges, s) ==> goal <= s
  }

  /**
   The loop of `collect_definition_dependencies`: a name is marked when it is
   popped, so it may be pushed more than once. It ends on cycles because `seen` grows.
   */
  method MarkWhenPopped(edges: Edges, start: set<string>, ghost goal: set<string>) returns (seen: set<string>)
    requires IsLeastClosed(edges, start, goal)
    ensures seen == goal
  {
    seen := {};
    var toProcess := PushAll([], start);
    while toProcess != []
      invariant forall n :: n in start ==> n in seen || n in toProcess
      invariant forall n, d :: n in seen && n in edges && d in edges[n] ==> d in seen || d in toProcess
      invariant forall n :: n in seen || n in toProcess ==> n in goal
      decreases goal - seen, |toProcess|
    {
      var name := toProcess[|toProcess| - 1];
      ghost var before := toProcess;
      toProcess := toProcess[..|toProcess| - 1];
      assert forall n :: n in before ==> n == name || n in toProcess;
      if name in seen {
        continue;
      }
      seen := seen + {name};
      if name in edges {
        toProcess := PushAll(toProcess, edges[name] - seen);
      }
    }
    assert Closed(edges, seen);
  }

  /**
   The loop of `reachable_local_definitions`: a name is marked when it is pushed,
   so it is pushed once.
   */
  method MarkWhenPushed(edges: Edges, start: set<string>, ghost goal: set<string>) returns (reachable: set<string>)
    requires IsLeastClosed(edges, start, goal)
    ensures reachable == goal
  {
    reachable := start;
    var queue := PushAll([], start);
    while queue != []
      invariant start <= reachable <= goal
      invariant forall n :: n in queue ==> n in reachable
      invariant forall n, d :: n in reachable && n in edges && d in edges[n] ==> n in queue || d in reachable
      decreases goal - reachable, |queue|
    {
      var name := queue[|queue| - 1];
      ghost var before := queue;
      queue := queue[..|queue| - 1];
      assert forall n :: n in before ==> n == name || n in queue;
      if name in edges && edges[name] - reachable != {} {
        var found := edges[name] - reachable;
        queue := PushAll(queue, found);
        reachable := reachable + found;
      }
      assert name in edges ==> forall d :: d in edges[name] ==> d in edges[name] - reachable || d in reachable;
    }
    assert Closed(edges, reachable);
  }
}
