/** Where a pause request written into a document can be read again: exactly which pairs of a
    writing and a reading path find it (internal/states/jsonpath.go). */
module PauseRequests {
  import opened Outcomes
  import opened Json
  import opened PathSyntax
  import opened JsonPath
  import opened JsonPathLaws

  /** Reading d at qs yields a pause request. */
  predicate Finds(d: Value, qs: seq<string>) {
    GetParts(d, qs).Ok? && GetParts(d, qs).value.Waiting?
  }

  /** After a pause request has been written at ps into d, qs reads one: the new one, or one the
      document already held and still shows there. An index must name the new element, since the
      write replaces the array; an object with an old "$" entry is read through that entry, and a
      written "$" field is skipped by the reader. */
  predicate Lands(d: Value, ps: seq<string>, qs: seq<string>)
    decreases |ps|
  {
    if ps == [] || qs == [] then ps == [] && qs == []
    else if IsIndexPart(ps[0]) then
      IsIndexPart(qs[0]) && IndexOf(qs[0]) == IndexOf(ps[0]) && Lands(Null, ps[1..], qs[1..])
    else if IsIndexPart(qs[0]) then false
    else if ps[0] == "$" then
      && |ps| > 1 && !IsIndexPart(ps[1])
      && (if qs[0] == ps[1] then Lands(Under(Under(d, "$"), ps[1]), ps[2..], qs[1..])
          else Finds(Under(Under(d, "$"), qs[0]), qs[1..]))
    else if Under(d, "$") != Null then Finds(Under(Under(d, "$"), qs[0]), qs[1..])
    else if qs[0] == ps[0] then Lands(Under(d, ps[0]), ps[1..], qs[1..])
    else Finds(Under(d, qs[0]), qs[1..])
  }

  lemma FindsStep(d: Value, qs: seq<string>)
    requires qs != []
    ensures Finds(d, qs) <==> GetPart(d, qs[0]).Ok? && Finds(GetPart(d, qs[0]).value, qs[1..])
  {
  }

  /** Neither a missing value nor a pause request has parts. */
  lemma FindsAtLeaf(v: Value, qs: seq<string>)
    requires v == Null || v.Waiting?
    ensures Finds(v, qs) <==> v.Waiting? && qs == []
  {
  }

  /** Looking up a field and going on: null entries and missing ones end the search alike. */
  lemma FindsUnder(e: Value, q: string, qs: seq<string>)
    ensures Finds(Under(e, q), qs) <==> e.Obj? && q in e.fields && Finds(e.fields[q], qs)
  {
    hide Finds;
    FindsAtLeaf(Null, qs);
  }

  /** One array level. */
  lemma FindsInLone(i: nat, inner: Value, q: string, qs: seq<string>)
    ensures Finds(Lone(i, inner), [q] + qs) <==> IsIndexPart(q) && IndexOf(q) == Some(i) && Finds(inner, qs)
  {
    hide Finds;
    FindsStep(Lone(i, inner), [q] + qs);
    assert ([q] + qs)[1..] == qs;
    FindsAtLeaf(Null, qs);
  }

  /** One object level. */
  lemma FindsInField(d: Value, p: string, inner: Value, q: string, qs: seq<string>)
    requires p != "$" && !IsIndexPart(p) && inner != Null
    ensures Finds(Overlay(d, Obj(map[p := inner])), [q] + qs) <==>
              !IsIndexPart(q) &&
              if Under(d, "$") != Null then Finds(Under(Under(d, "$"), q), qs)
              else if q == p then Finds(Overlay(Under(d, p), inner), qs)
              else Finds(Under(d, q), qs)
  {
    hide Finds;
    FindsStep(Overlay(d, Obj(map[p := inner])), [q] + qs);
    assert ([q] + qs)[1..] == qs;
    OverlayField(d, p, inner);
    FindsUnder(Under(d, "$"), q, qs);
    FindsUnder(d, q, qs);
    FindsAtLeaf(Null, qs);
  }

  /** Two levels: the written "$" entry and what lies in it. */
  lemma FindsInDollar(d: Value, inner: Value, q: string, qs: seq<string>)
    requires inner != Null
    ensures Finds(Overlay(d, Obj(map["$" := inner])), [q] + qs) <==>
              var s := Overlay(Under(d, "$"), inner);
              !IsIndexPart(q) && s.Obj? && q in s.fields && Finds(s.fields[q], qs)
  {
    hide Finds;
    FindsStep(Overlay(d, Obj(map["$" := inner])), [q] + qs);
    assert ([q] + qs)[1..] == qs;
    OverlayField(d, "$", inner);
    if !IsIndexPart(q) { ReadsOverlayDollar(d, inner, q); }
  }

  lemma FindsBehindDollar(d: Value, p: string, deep: Value, q: string, qs: seq<string>)
    requires deep != Null
    ensures Finds(Overlay(d, Obj(map["$" := Obj(map[p := deep])])), [q] + qs) <==>
              !IsIndexPart(q) &&
              if q == p then Finds(Overlay(Under(Under(d, "$"), p), deep), qs)
              else Finds(Under(Under(d, "$"), q), qs)
  {
    hide Finds;
    var e := Under(d, "$");
    FindsInDollar(d, Obj(map[p := deep]), q, qs);
    OverlayField(e, p, deep);
    FindsUnder(e, q, qs);
    FindsAtLeaf(Null, qs);
  }

  /** After writing a pause request into any document, one is found exactly where Lands says. */
  lemma {:induction false} FoundExactlyWhereItLands(d: Value, ps: seq<string>, qs: seq<string>, w: Value)
    requires w.Waiting? && SetParts(d, ps, w).Ok?
    ensures Finds(SetParts(d, ps, w).value, qs) <==> Lands(d, ps, qs)
    decreases |ps|
  {
    if ps == [] {
      FindsAtLeaf(w, qs);
    } else if qs != [] {
      hide Finds;
      var p, rest := ps[0], ps[1..];
      var inner := WrapParts(rest, w).value;
      WrapNotNull(rest, w);
      assert qs == [qs[0]] + qs[1..];
      if IsIndexPart(p) {
        FindsInLone(IndexOf(p).value, inner, qs[0], qs[1..]);
        FoundExactlyWhereItLands(Null, rest, qs[1..], w);
      } else if p == "$" {
        DollarLands(d, ps, qs, w);
      } else {
        FindsInField(d, p, inner, qs[0], qs[1..]);
        FoundExactlyWhereItLands(Under(d, p), rest, qs[1..], w);
      }
    }
  }

  lemma {:induction false} DollarLands(d: Value, ps: seq<string>, qs: seq<string>, w: Value)
    requires w.Waiting? && SetParts(d, ps, w).Ok? && ps != [] && ps[0] == "$" && qs != []
    ensures Finds(SetParts(d, ps, w).value, qs) <==> Lands(d, ps, qs)
    decreases |ps|, 0
  {
    hide Finds;
    var rest := ps[1..];
    var inner := WrapParts(rest, w).value;
    WrapNotNull(rest, w);
    assert qs == [qs[0]] + qs[1..];
    if rest == [] || IsIndexPart(rest[0]) {
      FindsInDollar(d, inner, qs[0], qs[1..]);
    } else {
      var deep := WrapParts(rest[1..], w).value;
      WrapNotNull(rest[1..], w);
      FindsBehindDollar(d, rest[0], deep, qs[0], qs[1..]);
      assert rest[1..] == ps[2..];
      FoundExactlyWhereItLands(Under(Under(d, "$"), rest[0]), ps[2..], qs[1..], w);
    }
  }

  /** Away from the root a document cannot be a pause request itself. */
  lemma BuriedIsNotFound(d: Value, ps: seq<string>, w: Value)
    requires ps != [] && SetParts(d, ps, w).Ok?
    ensures !SetParts(d, ps, w).value.Waiting?
  {
  }

  /** Plain JSON: no pause request anywhere in the document. */
  predicate NoRequest(v: Value) {
    match v
    case Waiting(_, _) => false
    case Arr(elems) => forall i :: 0 <= i < |elems| ==> NoRequest(elems[i])
    case Obj(fields) => forall k :: k in fields ==> NoRequest(fields[k])
    case _ => true
  }

  lemma UnderPlain(d: Value, p: string)
    requires NoRequest(d)
    ensures NoRequest(Under(d, p))
  {
  }

  lemma PartPlain(d: Value, q: string)
    requires NoRequest(d) && GetPart(d, q).Ok?
    ensures NoRequest(GetPart(d, q).value)
  {
    if !IsIndexPart(q) && "$" in d.fields { assert NoRequest(d.fields["$"]); }
  }

  /** Nothing read out of plain JSON is a pause request. */
  lemma {:induction false} ReadsPlain(d: Value, qs: seq<string>)
    requires NoRequest(d)
    ensures !Finds(d, qs)
    decreases |qs|
  {
    if qs != [] && GetPart(d, qs[0]).Ok? {
      PartPlain(d, qs[0]);
      ReadsPlain(GetPart(d, qs[0]).value, qs[1..]);
    }
  }

  /** The path that wrote the request finds it where no object on the way carries "$" - and, in
      plain JSON, only there. */
  lemma {:induction false} LandsOnItself(d: Value, ps: seq<string>)
    requires "$" !in ps
    ensures !Shadowed(d, ps) ==> Lands(d, ps, ps)
    ensures NoRequest(d) ==> (Lands(d, ps, ps) <==> !Shadowed(d, ps))
    decreases |ps|
  {
    if ps != [] {
      hide Finds, NoRequest;
      assert ps == [ps[0]] + ps[1..];
      if IsIndexPart(ps[0]) { NullNotShadowed(ps[1..]); }
      LandsOnItself(if IsIndexPart(ps[0]) then Null else Under(d, ps[0]), ps[1..]);
      if NoRequest(d) {
        UnderPlain(d, "$");
        UnderPlain(d, ps[0]);
        UnderPlain(Under(d, "$"), ps[0]);
        ReadsPlain(Under(Under(d, "$"), ps[0]), ps[1..]);
      }
    }
  }

  lemma {:induction false} NullNotShadowed(ps: seq<string>)
    ensures !Shadowed(Null, ps)
    decreases |ps|
  {
    if ps != [] { NullNotShadowed(ps[1..]); }
  }
}
