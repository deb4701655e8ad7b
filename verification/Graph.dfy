/** Paths in the graph of a definition. */
module Graph {
  import opened States

  /** One move the engine could make: from an existing state that does not end the run. */
  predicate Edge(m: Definition, a: string, b: string) {
    a in m && !IsEnd(m[a]) && Target(m[a], b)
  }

  /** A non-empty list of names, each followed by a possible next one. */
  ghost predicate Path(m: Definition, p: seq<string>) {
    |p| > 0 && forall i :: 0 <= i < |p| - 1 ==> Edge(m, p[i], p[i + 1])
  }

  ghost predicate PathFromTo(m: Definition, p: seq<string>, a: string, b: string) {
    Path(m, p) && p[0] == a && p[|p| - 1] == b
  }

  ghost predicate Reaches(m: Definition, a: string, b: string) {
    exists p :: PathFromTo(m, p, a, b)
  }

  predicate EndIn(m: Definition, a: string) {
    a in m && IsEnd(m[a])
  }

  ghost predicate ReachesEnd(m: Definition, a: string) {
    exists e :: EndIn(m, e) && Reaches(m, a, e)
  }

  lemma ReachesSelf(m: Definition, a: string)
    ensures Reaches(m, a, a)
  {
    assert PathFromTo(m, [a], a, a);
  }

  lemma ReachesStep(m: Definition, a: string, b: string, c: string)
    requires Edge(m, a, b) && Reaches(m, b, c)
    ensures Reaches(m, a, c)
  {
    var p :| PathFromTo(m, p, b, c);
    var q := [a] + p;
    forall i | 0 <= i < |q| - 1 ensures Edge(m, q[i], q[i + 1]) {
      if i > 0 { assert Edge(m, p[i - 1], p[i]); }
    }
    assert PathFromTo(m, q, a, c);
  }

  /** A set that contains a and is closed under edges contains everything a reaches. */
  lemma {:induction false} ClosedUnderPath(m: Definition, closed: set<string>, p: seq<string>)
    requires Path(m, p) && p[0] in closed
    requires forall x, y :: x in closed && Edge(m, x, y) ==> y in closed
    ensures p[|p| - 1] in closed
  {
    if |p| > 1 {
      assert Edge(m, p[0], p[1]);
      assert forall i :: 0 <= i < |p[1..]| - 1 ==> Edge(m, p[1..][i], p[1..][i + 1]) by {
        forall i | 0 <= i < |p[1..]| - 1 ensures Edge(m, p[1..][i], p[1..][i + 1]) {
          assert Edge(m, p[i + 1], p[i + 2]);
        }
      }
      ClosedUnderPath(m, closed, p[1..]);
    }
  }
}
