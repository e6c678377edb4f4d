/**
  The plan validator of the conductor mode: duplicate and unknown ids, and a
  depth-first search for dependency cycles.
 */
module ConductorPlan {
  import opened Prelude

  datatype Task = Task(id: string, dependsOn: seq<string>)

  /** A `Map` built from the tasks: the last task with an id wins. */
  function ById(tasks: seq<Task>): (m: map<string, Task>)
    ensures forall id :: id in m <==> exists i :: 0 <= i < |tasks| && tasks[i].id == id
  {
    if tasks == [] then map[]
    else
      var last := |tasks| - 1;
      ById(tasks[..last])[tasks[last].id := tasks[last]]
  }

  /** Task `a` names the known task `b` as a dependency. */
  ghost predicate DependsOn(g: map<string, Task>, a: string, b: string) {
    a in g && b in g && b in g[a].dependsOn
  }

  ghost predicate IsWalk(g: map<string, Task>, w: seq<string>) {
    forall i :: 0 <= i < |w| - 1 ==> DependsOn(g, w[i], w[i + 1])
  }

  ghost predicate IsCycle(g: map<string, Task>, w: seq<string>) {
    |w| >= 2 && w[0] == w[|w| - 1] && IsWalk(g, w)
  }

  ghost predicate HasCycle(g: map<string, Task>) {
    exists w :: IsCycle(g, w)
  }

  /** Every known dependency of a listed task is listed before it. */
  ghost predicate DependenciesFirst(g: map<string, Task>, order: seq<string>) {
    forall i, b :: 0 <= i < |order| && DependsOn(g, order[i], b) ==> b in order[..i]
  }

  ghost predicate IsTopologicalOrder(g: map<string, Task>, order: seq<string>) {
    && Distinct(order)
    && (forall id :: id in order <==> id in g)
    && DependenciesFirst(g, order)
  }

  /** The sets `visiting` and `visited` of one search. A JavaScript `Set` keeps insertion order. */
  class DependencySearch {
    const byId: map<string, Task>
    var visiting: set<string>
    var visited: seq<string>

    constructor (byId: map<string, Task>)
      ensures this.byId == byId && visiting == {} && visited == []
    {
      this.byId := byId;
      visiting := {};
      visited := [];
    }

    ghost predicate Valid()
      reads this
    {
      && visiting <= byId.Keys
      && Distinct(visited)
      && (forall id :: id in visited ==> id in byId && id !in visiting)
      && DependenciesFirst(byId, visited)
    }

    /** `path` is the chain of calls in progress; `visiting` holds exactly its ids. */
    ghost predicate OnPath(path: seq<string>)
      reads this
    {
      IsWalk(byId, path) && visiting == set x | x in path
    }

    ghost function Unseen(): set<string>
      reads this
    {
      byId.Keys - visiting - (set x | x in visited)
    }

    method Visit(id: string, ghost path: seq<string>) returns (cyclic: bool)
      requires Valid() && OnPath(path) && id in byId
      requires path != [] ==> DependsOn(byId, path[|path| - 1], id)
      modifies this
      ensures cyclic ==> HasCycle(byId)
      ensures !cyclic ==> Valid() && visiting == old(visiting) && id in visited && old(visited) <= visited
      decreases Unseen()
    {
      if id in visiting {
        ghost var k :| 0 <= k < |path| && path[k] == id;
        ghost var w := path[k..] + [id];
        assert forall i :: 0 <= i < |w| - 1 ==> DependsOn(byId, w[i], w[i + 1]) by {
          forall i | 0 <= i < |w| - 1 ensures DependsOn(byId, w[i], w[i + 1]) {
            if i < |w| - 2 {
              assert DependsOn(byId, path[k + i], path[k + i + 1]);
            }
          }
        }
        assert IsCycle(byId, w);
        return true;
      }
      if id in visited {
        return false;
      }
      ghost var before := Unseen();
      visiting := visiting + {id};
      assert id in before && id !in Unseen();
      assert OnPath(path + [id]);
      var dependencies := byId[id].dependsOn;
      for k := 0 to |dependencies|
        invariant Valid() && OnPath(path + [id]) && id !in visited
        invariant visiting == old(visiting) + {id}
        invariant old(visited) <= visited
        invariant forall j :: 0 <= j < k && dependencies[j] in byId ==> dependencies[j] in visited
      {
        if dependencies[k] in byId {
          assert Unseen() < before;
          var found := Visit(dependencies[k], path + [id]);
          if found {
            return true;
          }
        }
      }
      visiting := visiting - {id};
      ghost var done := visited;
      visited := visited + [id];
      assert forall i :: 0 <= i < |done| ==> visited[..i] == done[..i];
      assert visited[..|done|] == done;
      cyclic := false;
    }
  }

  lemma StepDescends(g: map<string, Task>, order: seq<string>, a: string, b: string) returns (i: nat, j: nat)
    requires IsTopologicalOrder(g, order) && DependsOn(g, a, b)
    ensures j < i < |order| && order[i] == a && order[j] == b
  {
    i :| 0 <= i < |order| && order[i] == a;
    j :| 0 <= j < i && order[j] == b;
  }

  /** Along a walk, positions in a topological order fall. */
  lemma {:induction false} WalkDescends(g: map<string, Task>, order: seq<string>, w: seq<string>, n: nat) returns (i: nat, j: nat)
    requires IsTopologicalOrder(g, order) && IsWalk(g, w) && 0 < n < |w|
    ensures j < i < |order| && order[i] == w[0] && order[j] == w[n]
  {
    assert DependsOn(g, w[n - 1], w[n]);
    i, j := StepDescends(g, order, w[n - 1], w[n]);
    if n > 1 {
      var k;
      i, k := WalkDescends(g, order, w, n - 1);
    }
  }

  /** A graph with a topological order has no cycle, so the search answers exactly one of the two. */
  lemma OrderExcludesCycle(g: map<string, Task>, order: seq<string>)
    requires IsTopologicalOrder(g, order)
    ensures !HasCycle(g)
  {
    forall w | IsCycle(g, w)
      ensures false
    {
      var i, j := WalkDescends(g, order, w, |w| - 1);
    }
  }

  /** True exactly on cyclic graphs; otherwise `order`, the insertion order of `visited`, is topological. */
  method HasDependencyCycle(tasks: seq<Task>) returns (cyclic: bool, order: seq<string>)
    ensures cyclic <==> HasCycle(ById(tasks))
    ensures !cyclic ==> IsTopologicalOrder(ById(tasks), order)
  {
    var search := new DependencySearch(ById(tasks));
    order, cyclic := [], false;
    for i := 0 to |tasks|
      invariant !cyclic
      invariant search.Valid() && search.visiting == {} && search.byId == ById(tasks)
      invariant fresh(search)
      invariant forall j :: 0 <= j < i ==> tasks[j].id in search.visited
    {
      cyclic := search.Visit(tasks[i].id, []);
      if cyclic {
        return true, search.visited;
      }
    }
    order := search.visited;
    assert IsTopologicalOrder(ById(tasks), order);
    OrderExcludesCycle(ById(tasks), order);
  }

  datatype Issue =
    | DuplicateId(index: nat)
    | SelfDependency(index: nat)
    | UnknownDependency(index: nat, dependency: string)
    | CyclicDependencies

  ghost predicate Repeats(tasks: seq<Task>, i: nat) {
    i < |tasks| && exists j :: 0 <= j < i && tasks[j].id == tasks[i].id
  }

  ghost predicate DependsOnItself(tasks: seq<Task>, i: nat) {
    i < |tasks| && tasks[i].id in tasks[i].dependsOn
  }

  ghost predicate DependsOnUnknown(tasks: seq<Task>, known: set<string>, i: nat, d: string) {
    i < |tasks| && d in tasks[i].dependsOn && d != tasks[i].id && d !in known
  }

  ghost predicate SoundTasks(tasks: seq<Task>, known: set<string>) {
    && (forall i: nat :: !Repeats(tasks, i))
    && (forall i: nat :: !DependsOnItself(tasks, i))
    && (forall i: nat, d :: !DependsOnUnknown(tasks, known, i, d))
  }

  /** A plan whose tasks can be run one after the other, each after all it depends on. */
  ghost predicate Runnable(tasks: seq<Task>) {
    && SoundTasks(tasks, ById(tasks).Keys)
    && exists order :: IsTopologicalOrder(ById(tasks), order)
  }

  /** The checks of the plan schema. Each issue is reported exactly where it occurs. */
  method ValidatePlan(tasks: seq<Task>) returns (issues: seq<Issue>)
    ensures issues == [] <==> Runnable(tasks)
    ensures forall i: nat :: DuplicateId(i) in issues <==> Repeats(tasks, i)
    ensures forall i: nat :: SelfDependency(i) in issues <==> DependsOnItself(tasks, i)
    ensures forall i: nat, d :: UnknownDependency(i, d) in issues <==> DependsOnUnknown(tasks, ById(tasks).Keys, i, d)
    ensures CyclicDependencies in issues <==> HasCycle(ById(tasks))
  {
    issues := [];
    var ids: set<string> := {};
    for i := 0 to |tasks|
      invariant forall id :: id in ids <==> exists j :: 0 <= j < i && tasks[j].id == id
      invariant forall x :: x in issues ==> x.DuplicateId?
      invariant forall k: nat :: DuplicateId(k) in issues <==> k < i && Repeats(tasks, k)
    {
      if tasks[i].id in ids {
        issues := issues + [DuplicateId(i)];
      }
      ids := ids + {tasks[i].id};
    }
    assert ids == ById(tasks).Keys;
    for i := 0 to |tasks|
      invariant CyclicDependencies !in issues
      invariant forall k: nat :: DuplicateId(k) in issues <==> Repeats(tasks, k)
      invariant forall k: nat :: SelfDependency(k) in issues <==> k < i && DependsOnItself(tasks, k)
      invariant forall k: nat, d :: UnknownDependency(k, d) in issues <==> k < i && DependsOnUnknown(tasks, ids, k, d)
    {
      var dependencies := tasks[i].dependsOn;
      for j := 0 to |dependencies|
        invariant CyclicDependencies !in issues
        invariant forall k: nat :: DuplicateId(k) in issues <==> Repeats(tasks, k)
        invariant forall k: nat :: SelfDependency(k) in issues <==>
                    (k < i && DependsOnItself(tasks, k)) || (k == i && tasks[i].id in dependencies[..j])
        invariant forall k: nat, d :: UnknownDependency(k, d) in issues <==>
                    (k < i && DependsOnUnknown(tasks, ids, k, d))
                    || (k == i && d in dependencies[..j] && d != tasks[i].id && d !in ids)
      {
        if dependencies[j] == tasks[i].id {
          issues := issues + [SelfDependency(i)];
        } else if dependencies[j] !in ids {
          issues := issues + [UnknownDependency(i, dependencies[j])];
        }
      }
      assert dependencies[..|dependencies|] == dependencies;
    }
    var cyclic, order := HasDependencyCycle(tasks);
    if cyclic {
      issues := issues + [CyclicDependencies];
      forall o | IsTopologicalOrder(ById(tasks), o) ensures false { OrderExcludesCycle(ById(tasks), o); }
    }
    if issues != [] && !cyclic {
      var issue := issues[0];
      assert issue in issues;
      match issue
      case DuplicateId(i) => assert Repeats(tasks, i);
      case SelfDependency(i) => assert DependsOnItself(tasks, i);
      case UnknownDependency(i, d) => assert DependsOnUnknown(tasks, ids, i, d);
      case CyclicDependencies =>
    }
  }
}
