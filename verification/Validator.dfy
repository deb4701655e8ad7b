/** The definition validator (internal/validator/validator.go): two graph searches, each
    proved against plain path existence, and the verdict built from them. */
module Validator {
  import opened Outcomes
  import opened States
  import opened Graph

  /** The map[string]bool both searches write into; a name is in it once it is marked. */
  class Marks {
    var names: set<string>

    constructor (initial: set<string>)
      ensures names == initial
    {
      names := initial;
    }
  }

  /* ---------- markReachable ---------- */

  /** What one call of the shared-map search leaves behind: it only adds, it adds only what is
      reachable from name, and everything it adds has its successors marked too. */
  ghost predicate Explored(m: Definition, name: string, before: set<string>, after: set<string>) {
    && before <= after
    && name in after
    && (forall x :: x in after - before ==> Reaches(m, name, x))
    && (forall x, y :: x in after - before && Edge(m, x, y) ==> y in after)
  }

  /** The same while the successors of name are still being worked through. */
  ghost predicate Exploring(m: Definition, name: string, before: set<string>, now: set<string>) {
    && before <= now
    && name in now
    && (forall x :: x in now - before ==> Reaches(m, name, x))
    && (forall x, y :: x in now - before && x != name && Edge(m, x, y) ==> y in now)
  }

  lemma ExploreChild(m: Definition, name: string, child: string,
                     before: set<string>, now: set<string>, after: set<string>)
    requires Exploring(m, name, before, now) && Edge(m, name, child)
    requires Explored(m, child, now, after)
    ensures Exploring(m, name, before, after)
  {
    forall x | x in after - before ensures Reaches(m, name, x) {
      if x !in now { ReachesStep(m, name, child, x); }
    }
    forall x, y | x in after - before && x != name && Edge(m, x, y) ensures y in after {
      if x in now { assert y in now; }
    }
  }

  method MarkReachable(name: string, m: Definition, reachable: Marks)
    modifies reachable
    ensures Explored(m, name, old(reachable.names), reachable.names)
    decreases m.Keys - reachable.names
  {
    ghost var before := reachable.names;
    if name in reachable.names { return; }
    reachable.names := reachable.names + {name};
    ReachesSelf(m, name);
    if name !in m { return; }
    var state := m[name];
    if IsEnd(state) { return; }
    var nextNames := AllNextNames(state);
    for i := 0 to |nextNames|
      invariant Exploring(m, name, before, reachable.names)
      invariant forall j :: 0 <= j < i && nextNames[j] != "" ==> nextNames[j] in reachable.names
    {
      if nextNames[i] != "" {
        ghost var now := reachable.names;
        MarkReachable(nextNames[i], m, reachable);
        ExploreChild(m, name, nextNames[i], before, now, reachable.names);
      }
    }
    var next := GetNext(state);
    if next.Some? {
      ghost var now := reachable.names;
      MarkReachable(next.value, m, reachable);
      ExploreChild(m, name, next.value, before, now, reachable.names);
    }
  }

  /** From an empty map the search marks exactly the names reachable from its start, for
      every finite graph, with cycles and dangling names. */
  lemma ExploredFromNothing(m: Definition, name: string, after: set<string>)
    requires Explored(m, name, {}, after)
    ensures forall x :: x in after <==> Reaches(m, name, x)
  {
    forall x | Reaches(m, name, x) ensures x in after {
      var p :| PathFromTo(m, p, name, x);
      ClosedUnderPath(m, after, p);
    }
  }

  /* ---------- canReachAnyEndState ---------- */

  /** A path to an existing name in ends that touches nothing to be avoided. */
  ghost predicate Escape(m: Definition, ends: seq<string>, p: seq<string>, avoid: set<string>) {
    && |p| > 0
    && (forall i :: 0 <= i < |p| - 1 ==> p[i] in m && Target(m[p[i]], p[i + 1]))
    && p[|p| - 1] in ends && p[|p| - 1] in m
    && forall i :: 0 <= i < |p| ==> p[i] !in avoid
  }

  ghost predicate Escapes(m: Definition, ends: seq<string>, name: string, avoid: set<string>) {
    exists p :: Escape(m, ends, p, avoid) && p[0] == name
  }

  lemma EscapeStep(m: Definition, ends: seq<string>, name: string, next: string, avoid: set<string>)
    requires name in m && name !in avoid && Target(m[name], next)
    requires Escapes(m, ends, next, avoid + {name})
    ensures Escapes(m, ends, name, avoid)
  {
    var p :| Escape(m, ends, p, avoid + {name}) && p[0] == next;
    var q := [name] + p;
    forall i | 0 <= i < |q| - 1 ensures q[i] in m && Target(m[q[i]], q[i + 1]) {
      if i > 0 { assert q[i] == p[i - 1] && q[i + 1] == p[i]; }
    }
    assert Escape(m, ends, q, avoid);
  }

  /** Position of the last occurrence of name on a path that starts at it. */
  function LastAt(p: seq<string>, name: string): (k: nat)
    requires name in p
    ensures k < |p| && p[k] == name && name !in p[k + 1..]
  {
    if p[|p| - 1] == name then |p| - 1
    else
      assert name in p[..|p| - 1] by { assert p == p[..|p| - 1] + [p[|p| - 1]]; }
      var k := LastAt(p[..|p| - 1], name);
      assert p[k + 1..] == p[..|p| - 1][k + 1..] + [p[|p| - 1]];
      k
  }

  /** A path implies a path without repeats: cut everything up to the last visit of name, and
      what follows escapes from one of its successors without coming back to it. */
  lemma EscapeWithoutReturn(m: Definition, ends: seq<string>, name: string, avoid: set<string>)
    requires Escapes(m, ends, name, avoid) && name !in ends
    ensures name in m
    ensures exists next :: Target(m[name], next) && Escapes(m, ends, next, avoid + {name})
  {
    var p :| Escape(m, ends, p, avoid) && p[0] == name;
    assert name in p;
    var k := LastAt(p, name);
    assert k < |p| - 1;
    var q := p[k + 1..];
    forall i | 0 <= i < |q| - 1 ensures q[i] in m && Target(m[q[i]], q[i + 1]) {
      assert q[i] == p[k + 1 + i] && q[i + 1] == p[k + 2 + i];
    }
    forall i | 0 <= i < |q| ensures q[i] !in avoid + {name} {
      assert q[i] == p[k + 1 + i];
    }
    assert Escape(m, ends, q, avoid + {name});
    assert Target(m[name], q[0]);
  }

  /** The set canReachAnyEndState collects before looping: non-empty listed names and Next. */
  method CollectTargets(state: State) returns (targets: set<string>)
    ensures forall n :: n in targets <==> Target(state, n)
  {
    hide AllNextNames;
    targets := {};
    var nextNames := AllNextNames(state);
    for i := 0 to |nextNames|
      invariant forall n :: n in targets <==> n != "" && n in nextNames[..i]
    {
      if nextNames[i] != "" { targets := targets + {nextNames[i]}; }
      assert nextNames[..i + 1] == nextNames[..i] + [nextNames[i]];
    }
    assert nextNames[..|nextNames|] == nextNames;
    var next := GetNext(state);
    if next.Some? { targets := targets + {next.value}; }
  }

  /** The copying search terminates and answers exactly whether some path from name reaches an
      end state while avoiding what was already visited. Targets are tried in any order. */
  method CanReachAnyEndState(name: string, m: Definition, ends: seq<string>, visited: Marks) returns (r: bool)
    modifies visited
    ensures r <==> Escapes(m, ends, name, old(visited.names))
    ensures visited.names == old(visited.names) + {name}
    decreases m.Keys - visited.names
  {
    ghost var avoid := visited.names;
    if name in visited.names { return false; }
    visited.names := visited.names + {name};
    if name !in m { return false; }
    if name in ends {
      assert Escape(m, ends, [name], avoid);
      return true;
    }
    var todo := CollectTargets(m[name]);
    ghost var targets := todo;
    while todo != {}
      invariant todo <= targets
      invariant visited.names == avoid + {name}
      invariant forall n :: n in targets - todo ==> !Escapes(m, ends, n, avoid + {name})
    {
      var next :| next in todo;
      todo := todo - {next};
      var visitedCopy := new Marks(visited.names);
      var found := CanReachAnyEndState(next, m, ends, visitedCopy);
      if found {
        EscapeStep(m, ends, name, next, avoid);
        return true;
      }
    }
    if Escapes(m, ends, name, avoid) {
      EscapeWithoutReturn(m, ends, name, avoid);
      assert false;
    }
    return false;
  }

  /* ---------- the verdict ---------- */

  /** With the list of all end states, escaping is reaching an end in the engine's graph,
      which does not continue past an end state. */
  lemma EscapeIsReach(m: Definition, ends: seq<string>, name: string)
    requires forall e :: e in ends <==> EndIn(m, e)
    ensures Escapes(m, ends, name, {}) <==> ReachesEnd(m, name)
  {
    if Escapes(m, ends, name, {}) {
      var p :| Escape(m, ends, p, {}) && p[0] == name;
      EscapeToReach(m, ends, p);
    }
    if ReachesEnd(m, name) {
      var e :| EndIn(m, e) && Reaches(m, name, e);
      var p :| PathFromTo(m, p, name, e);
      forall i | 0 <= i < |p| - 1 ensures p[i] in m && Target(m[p[i]], p[i + 1]) {
        assert Edge(m, p[i], p[i + 1]);
      }
      assert EndIn(m, p[|p| - 1]);
      assert Escape(m, ends, p, {});
    }
  }

  lemma {:induction false} EscapeToReach(m: Definition, ends: seq<string>, p: seq<string>)
    requires forall e :: e in ends <==> EndIn(m, e)
    requires Escape(m, ends, p, {})
    ensures ReachesEnd(m, p[0])
    decreases |p|
  {
    if EndIn(m, p[0]) {
      ReachesSelf(m, p[0]);
    } else {
      var q := p[1..];
      assert EndIn(m, p[|p| - 1]);
      assert |p| > 1;
      assert p[0] in m && Target(m[p[0]], p[0 + 1]);
      assert Edge(m, p[0], p[1]);
      forall i | 0 <= i < |q| - 1 ensures q[i] in m && Target(m[q[i]], q[i + 1]) {
        assert q[i] == p[i + 1] && q[i + 1] == p[i + 2];
      }
      assert Escape(m, ends, q, {});
      EscapeToReach(m, ends, q);
      var e :| EndIn(m, e) && Reaches(m, q[0], e);
      ReachesStep(m, p[0], p[1], e);
    }
  }

  /** What validateGraph is for: no state is unreachable, some state ends the run, and from
      every state some path leads to an end. */
  ghost predicate Sound(m: Definition, startAt: string) {
    && (forall x :: x in m ==> Reaches(m, startAt, x))
    && (exists e :: EndIn(m, e))
    && (forall x :: x in m ==> ReachesEnd(m, x))
  }

  datatype Verdict =
    | Accepted
    | Unreachable(name: string)
    | NoEndState
    | NoPathToEnd
    | DeadLoop(name: string)
    | Rejected(reason: string)

  /** validateCyclesHaveExits: every state that is not an end must have a way to one. */
  method ValidateCyclesHaveExits(m: Definition, ends: seq<string>) returns (v: Verdict)
    requires forall e :: e in ends <==> EndIn(m, e)
    ensures v.Accepted? <==> forall x :: x in m ==> ReachesEnd(m, x)
    ensures !v.Accepted? ==> v.DeadLoop? && v.name in m && !ReachesEnd(m, v.name)
  {
    var todo := m.Keys;
    while todo != {}
      invariant todo <= m.Keys
      invariant forall x :: x in m && x !in todo ==> ReachesEnd(m, x)
    {
      var name :| name in todo;
      todo := todo - {name};
      if IsEnd(m[name]) {
        ReachesSelf(m, name);
        assert EndIn(m, name);
        continue;
      }
      var visited := new Marks({});
      var ok := CanReachAnyEndState(name, m, ends, visited);
      EscapeIsReach(m, ends, name);
      if !ok { return DeadLoop(name); }
    }
    return Accepted;
  }

  method CollectEndStates(m: Definition) returns (ends: seq<string>)
    ensures forall e :: e in ends <==> EndIn(m, e)
  {
    ends := [];
    var todo := m.Keys;
    while todo != {}
      invariant todo <= m.Keys
      invariant forall e :: e in ends <==> e !in todo && EndIn(m, e)
    {
      var name :| name in todo;
      todo := todo - {name};
      if IsEnd(m[name]) { ends := ends + [name]; }
    }
  }

  method FindUnreachable(m: Definition, reachable: set<string>) returns (r: Option<string>)
    ensures r.None? <==> m.Keys <= reachable
    ensures r.Some? ==> r.value in m && r.value !in reachable
  {
    var todo := m.Keys;
    while todo != {}
      invariant todo <= m.Keys
      invariant m.Keys - todo <= reachable
    {
      var name :| name in todo;
      todo := todo - {name};
      if name !in reachable { return Some(name); }
    }
    return None;
  }

  method AnyMarked(names: seq<string>, marked: set<string>) returns (r: bool)
    ensures r <==> exists i :: 0 <= i < |names| && names[i] in marked
  {
    for i := 0 to |names|
      invariant forall j :: 0 <= j < i ==> names[j] !in marked
    {
      if names[i] in marked { return true; }
    }
    return false;
  }

  /** validateGraph accepts exactly the sound graphs. Its third check can never fail: when it
      is reached every state is already known to be reachable, the end states included. */
  method ValidateGraph(startAt: string, m: Definition) returns (v: Verdict)
    ensures v.Accepted? <==> Sound(m, startAt)
    ensures !v.NoPathToEnd?
    ensures v.Unreachable? ==> v.name in m && !Reaches(m, startAt, v.name)
    ensures v.DeadLoop? ==> v.name in m && !ReachesEnd(m, v.name)
  {
    hide Reaches, ReachesEnd, Explored;
    var reachable := new Marks({});
    MarkReachable(startAt, m, reachable);
    ExploredFromNothing(m, startAt, reachable.names);
    var lost := FindUnreachable(m, reachable.names);
    if lost.Some? { return Unreachable(lost.value); }
    var ends := CollectEndStates(m);
    if |ends| == 0 {
      assert forall e :: !EndIn(m, e);
      return NoEndState;
    }
    assert EndIn(m, ends[0]);
    var endReachable := AnyMarked(ends, reachable.names);
    if !endReachable { return NoPathToEnd; }
    v := ValidateCyclesHaveExits(m, ends);
  }

  /** Validate: the per-state checks are an arbitrary predicate; Next must name an existing
      state, the other targets are not looked up. */
  ghost predicate Acceptable(startAt: string, m: Definition, stateOk: State -> bool, timeout: Option<int>) {
    && startAt != "" && startAt in m
    && (forall x :: x in m ==> stateOk(m[x]))
    && (forall x :: x in m && GetNext(m[x]).Some? ==> GetNext(m[x]).value in m)
    && Sound(m, startAt)
    && (timeout.Some? ==> 0 < timeout.value <= 86400)
  }

  method Validate(startAt: string, m: Definition, stateOk: State -> bool, timeout: Option<int>) returns (v: Verdict)
    ensures v.Accepted? <==> Acceptable(startAt, m, stateOk, timeout)
  {
    hide Sound, IsEnd, GetNext;
    if startAt == "" { return Rejected("StartAt is required"); }
    if |m| == 0 { return Rejected("states cannot be empty"); }
    if startAt !in m { return Rejected("StartAt state not found in States"); }
    var todo := m.Keys;
    while todo != {}
      invariant todo <= m.Keys
      invariant forall x :: x in m && x !in todo ==>
        stateOk(m[x]) && (GetNext(m[x]).Some? ==> GetNext(m[x]).value in m)
    {
      var name :| name in todo;
      todo := todo - {name};
      if !stateOk(m[name]) { return Rejected("state is not valid"); }
      var next := GetNext(m[name]);
      if next.Some? && next.value !in m { return Rejected("references non-existent next state"); }
    }
    v := ValidateGraph(startAt, m);
    if !v.Accepted? { return; }
    if timeout.Some? {
      if timeout.value <= 0 { return Rejected("TimeoutSeconds must be positive"); }
      if timeout.value > 86400 { return Rejected("TimeoutSeconds cannot exceed 86400"); }
    }
  }
}
