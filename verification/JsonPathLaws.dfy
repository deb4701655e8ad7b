/** Laws of the path engine: wrapping reads back, setting reads back, and setting leaves
    the rest of the document alone - with the exact conditions under which they hold. */
module JsonPathLaws {
  import opened Outcomes
  import opened Json
  import opened PathSyntax
  import opened JsonPath

  /* ---------- reading goes down ---------- */

  lemma ReadsChild(v: Value, p: string)
    requires GetPart(v, p).Ok?
    ensures GetPart(v, p).value < v
  {
    if !IsIndexPart(p) && "$" in v.fields {
      assert v.fields["$"] < v;
    }
  }

  /** Reading at a non-empty path yields a proper part of the document. */
  lemma {:induction false} ReadsProperPart(v: Value, qs: seq<string>)
    requires qs != [] && GetParts(v, qs).Ok?
    ensures GetParts(v, qs).value < v
  {
    ReadsChild(v, qs[0]);
    if |qs| > 1 {
      ReadsProperPart(GetPart(v, qs[0]).value, qs[1..]);
    }
  }

  /** What one read of a freshly made container can yield. */
  lemma ReadsWrapped(p: string, inner: Value, q: string)
    requires WrapPart(p, inner).Ok?
    requires GetPart(WrapPart(p, inner).value, q).Ok?
    ensures var y := GetPart(WrapPart(p, inner).value, q).value;
            if p == "$" then inner.Obj? && q in inner.fields && y == inner.fields[q]
            else y == inner || y == Null
  {
  }

  /** Reading more parts than were wrapped ends inside the wrapped value, never at it. */
  lemma {:induction false} WrapOverrun(ps: seq<string>, qs: seq<string>, o: Value)
    requires |qs| > |ps| && WrapParts(ps, o).Ok?
    requires GetParts(WrapParts(ps, o).value, qs).Ok?
    ensures GetParts(WrapParts(ps, o).value, qs).value < o
    decreases |ps|
  {
    if ps == [] {
      ReadsProperPart(o, qs);
    } else {
      var inner := WrapParts(ps[1..], o).value;
      ReadsWrapped(ps[0], inner, qs[0]);
      if ps[0] == "$" {
        WrapDollarOverrun(ps, qs, o);
      } else {
        WrapOverrun(ps[1..], qs[1..], o);
      }
    }
  }

  /** The same when the outermost part is "$", which costs the reader two levels. */
  lemma {:induction false} WrapDollarOverrun(ps: seq<string>, qs: seq<string>, o: Value)
    requires ps != [] && ps[0] == "$" && |qs| >= |ps| && WrapParts(ps, o).Ok?
    requires GetParts(WrapParts(ps, o).value, qs).Ok?
    ensures GetParts(WrapParts(ps, o).value, qs).value < o
    decreases |ps|, 0
  {
    var inner := WrapParts(ps[1..], o).value;
    ReadsWrapped("$", inner, qs[0]);
    var y := inner.fields[qs[0]];
    if |ps| == 1 {
      assert inner == o && y < o;
      if |qs| > 1 { ReadsProperPart(y, qs[1..]); }
    } else {
      assert ps[1..][1..] == ps[2..];
      assert y == WrapParts(ps[2..], o).value;
      WrapOverrun(ps[2..], qs[1..], o);
    }
  }

  /** A wrapped value reads back at its own path exactly when no part is "$". */
  lemma {:induction false} WrapReads(ps: seq<string>, o: Value)
    requires WrapParts(ps, o).Ok?
    ensures GetParts(WrapParts(ps, o).value, ps) == Ok(o) <==> "$" !in ps
    decreases |ps|
  {
    if ps != [] {
      var inner := WrapParts(ps[1..], o).value;
      var w := WrapParts(ps, o).value;
      if ps[0] == "$" {
        if GetParts(w, ps).Ok? {
          WrapDollarOverrun(ps, ps, o);
        }
      } else {
        assert GetPart(w, ps[0]) == Ok(inner);
        WrapReads(ps[1..], o);
        assert ps == [ps[0]] + ps[1..];
      }
    }
  }

  /* ---------- setting, one object level at a time ---------- */

  /** The non-null entry of an object, or Null. */
  function Under(d: Value, p: string): (v: Value) {
    if d.Obj? && Has(d.fields, p) then d.fields[p] else Null
  }

  /** Laying {p: inner} over a document: p holds the overlay of what was there, every other
      non-null entry is unchanged, and null entries are gone. */
  lemma OverlayField(d: Value, p: string, inner: Value)
    requires inner != Null
    ensures var r := Overlay(d, Obj(map[p := inner]));
            && r.Obj?
            && p in r.fields && r.fields[p] == Overlay(Under(d, p), inner)
            && (forall q :: q != p ==> (q in r.fields <==> Under(d, q) != Null))
            && (forall q :: q != p && q in r.fields ==> r.fields[q] == Under(d, q))
  {
    var b := map[p := inner];
    if d.Obj? {
      var r := Merge(d.fields, b);
      assert Has(b, p);
      assert r[p] == MergedEntry(d.fields, b, p);
      forall q | q != p
        ensures q in r <==> Under(d, q) != Null
        ensures q in r ==> r[q] == Under(d, q)
      {
        assert !Has(b, q);
        assert q in r ==> r[q] == MergedEntry(d.fields, b, q);
      }
    }
  }

  lemma WrapNotNull(ps: seq<string>, v: Value)
    requires v != Null && WrapParts(ps, v).Ok?
    ensures WrapParts(ps, v).value != Null
  {
  }

  /** What the document holds at a path of field names, reading plainly; Null when the path
      leaves the objects or names an index. */
  function Peek(d: Value, ps: seq<string>): (v: Value)
    decreases |ps|
  {
    if ps == [] then d
    else if IsIndexPart(ps[0]) then Null
    else Peek(Under(d, ps[0]), ps[1..])
  }

  lemma MergedUnder(a: Fields, b: Fields, p: string)
    ensures Under(Obj(Merge(a, b)), p) ==
              if !Has(b, p) then Under(Obj(a), p)
              else if Has(a, p) && a[p].Obj? && b[p].Obj? then Obj(Merge(a[p].fields, b[p].fields))
              else b[p]
  {
    if Has(b, p) { MergeTakes(a, b, p); } else if Has(a, p) { MergeKeeps(a, b, p); }
  }

  /** At some object on the way the document has nothing to say about the path. */
  predicate Silent(d: Value, ps: seq<string>)
    decreases |ps|
  {
    d.Obj? && ps != [] && (Under(d, ps[0]) == Null || Silent(Under(d, ps[0]), ps[1..]))
  }

  /** Deep merge, at any path of fields: a value that is no object comes from the second document, and
      where that one is silent, whatever the first one holds is still there. */
  lemma {:induction false} MergeReads(a: Fields, b: Fields, ps: seq<string>)
    requires forall i :: 0 <= i < |ps| ==> !IsIndexPart(ps[i])
    ensures Peek(Obj(b), ps) != Null && !Peek(Obj(b), ps).Obj? ==> Peek(Obj(Merge(a, b)), ps) == Peek(Obj(b), ps)
    ensures Silent(Obj(b), ps) ==> Peek(Obj(Merge(a, b)), ps) == Peek(Obj(a), ps)
    decreases |ps|
  {
    if ps != [] {
      var p, rest := ps[0], ps[1..];
      MergedUnder(a, b, p);
      if !Has(b, p) {
        NothingUnder(Null, rest);
      } else {
        assert Under(Obj(b), p) == b[p] && (Silent(Obj(b), ps) <==> Silent(b[p], rest));
        if Has(a, p) && a[p].Obj? && b[p].Obj? {
          MergeReads(a[p].fields, b[p].fields, rest);
        } else if b[p].Obj? && Silent(b[p], rest) {
          SilentIsNull(b[p], rest);
          NothingUnder(Under(Obj(a), p), rest);
          assert Peek(Obj(a), ps) == Peek(Under(Obj(a), p), rest);
        }
      }
    }
  }

  lemma {:induction false} SilentIsNull(d: Value, ps: seq<string>)
    requires Silent(d, ps)
    ensures Peek(d, ps) == Null
    decreases |ps|
  {
    if Under(d, ps[0]) == Null { NothingUnder(Null, ps[1..]); }
    else if !IsIndexPart(ps[0]) { SilentIsNull(Under(d, ps[0]), ps[1..]); }
  }

  /** A value that is no object holds nothing at any path below it. */
  lemma {:induction false} NothingUnder(d: Value, ps: seq<string>)
    requires !d.Obj?
    ensures ps != [] || d == Null ==> Peek(d, ps) == Null
    decreases |ps|
  {
    if ps != [] && !IsIndexPart(ps[0]) { NothingUnder(Null, ps[1..]); }
  }

  /** Some object passed on the way to the last part carries a "$" entry. */
  predicate Shadowed(d: Value, ps: seq<string>)
    decreases |ps|
  {
    ps != [] && !IsIndexPart(ps[0]) &&
    (Under(d, "$") != Null || Shadowed(Under(d, ps[0]), ps[1..]))
  }

  /** Get after set: a non-null value set at a path without "$" parts, where no object on the
      way carries "$", reads back as that value, deep-merged into an object already there. */
  lemma {:induction false} SetReads(d: Value, ps: seq<string>, v: Value)
    requires v != Null && SetParts(d, ps, v).Ok?
    requires "$" !in ps && !Shadowed(d, ps)
    ensures GetParts(SetParts(d, ps, v).value, ps) == Ok(Overlay(Peek(d, ps), v))
    decreases |ps|
  {
    if ps != [] {
      var p, rest := ps[0], ps[1..];
      if IsIndexPart(p) {
        WrapReads(ps, v);
      } else {
        var inner := WrapParts(rest, v).value;
        WrapNotNull(rest, v);
        OverlayField(d, p, inner);
        SetReads(Under(d, p), rest, v);
      }
    }
  }

  /* ---------- and when it does not read back ---------- */

  /** Two values that cannot be told apart by merging and are not equal. */
  predicate Probes(v1: Value, v2: Value) {
    v1.Str? && v2.Str? && v1 != v2
  }

  /** Reading both documents at qs cannot give the two probes back. */
  ghost predicate Blind(r1: Value, r2: Value, qs: seq<string>, v1: Value, v2: Value) {
    !(GetParts(r1, qs) == Ok(v1) && GetParts(r2, qs) == Ok(v2))
  }

  /** One read of the two documents {p: innerK} laid over d: unless it follows p, or goes
      through a written "$" entry, it sees the same thing in both. */
  lemma ReadsOverlay(d: Value, p: string, inner1: Value, inner2: Value, q: string)
    requires inner1 != Null && inner2 != Null && !IsIndexPart(q)
    requires p != "$"
    ensures var r1 := Overlay(d, Obj(map[p := inner1]));
            var r2 := Overlay(d, Obj(map[p := inner2]));
            if Under(d, "$") == Null && q == p
            then GetPart(r1, q) == Ok(Overlay(Under(d, p), inner1)) &&
                 GetPart(r2, q) == Ok(Overlay(Under(d, p), inner2))
            else GetPart(r1, q) == GetPart(r2, q)
  {
    OverlayField(d, p, inner1);
    OverlayField(d, p, inner2);
  }

  /** With no "$" part, a shadowing "$" entry hides the written value completely. */
  lemma {:induction false} ShadowHides(d: Value, ps: seq<string>, v1: Value, v2: Value)
    requires Probes(v1, v2) && SetParts(d, ps, v1).Ok? && SetParts(d, ps, v2).Ok?
    requires "$" !in ps && Shadowed(d, ps)
    ensures GetParts(SetParts(d, ps, v1).value, ps) == GetParts(SetParts(d, ps, v2).value, ps)
    decreases |ps|
  {
    var p, rest := ps[0], ps[1..];
    WrapNotNull(rest, v1);
    WrapNotNull(rest, v2);
    ReadsOverlay(d, p, WrapParts(rest, v1).value, WrapParts(rest, v2).value, p);
    if Under(d, "$") == Null {
      ShadowHides(Under(d, p), rest, v1, v2);
    }
  }

  /** The same read when the written field is "$": it lands inside the written entry. */
  lemma ReadsOverlayDollar(d: Value, inner: Value, q: string)
    requires inner != Null && !IsIndexPart(q)
    ensures var r := Overlay(d, Obj(map["$" := inner]));
            var s := Overlay(Under(d, "$"), inner);
            GetPart(r, q) == if !s.Obj? then Panic else ExtractField(s.fields, q)
  {
    OverlayField(d, "$", inner);
  }

  lemma IndexRead(i: nat, v: Value, q: string, qs: seq<string>)
    requires qs != [] && GetPart(Lone(i, v), q).Ok? && GetParts(GetPart(Lone(i, v), q).value, qs).Ok?
    ensures GetPart(Lone(i, v), q) == Ok(v)
  {
  }

  /** Two probes set at ps and read with more parts than ps has: never both found. */
  lemma {:induction false} SetOverrun(d: Value, ps: seq<string>, qs: seq<string>, v1: Value, v2: Value)
    requires Probes(v1, v2) && SetParts(d, ps, v1).Ok? && SetParts(d, ps, v2).Ok?
    requires |qs| > |ps|
    ensures Blind(SetParts(d, ps, v1).value, SetParts(d, ps, v2).value, qs, v1, v2)
    decreases |ps|, 1
  {
    if ps == [] {
      assert !GetPart(v1, qs[0]).Ok?;
    } else if IsIndexPart(ps[0]) {
      SetOverrun(Null, ps[1..], qs[1..], v1, v2);
      BlindBelowIndex(d, ps, qs, v1, v2);
    } else if ps[0] == "$" {
      DollarOverrun(d, ps, qs, v1, v2);
    } else {
      SetOverrun(Under(d, ps[0]), ps[1..], qs[1..], v1, v2);
      BlindBelowField(d, ps, qs, v1, v2);
    }
  }

  lemma BlindBelowIndex(d: Value, ps: seq<string>, qs: seq<string>, v1: Value, v2: Value)
    requires Probes(v1, v2) && SetParts(d, ps, v1).Ok? && SetParts(d, ps, v2).Ok?
    requires |qs| > |ps| > 0 && IsIndexPart(ps[0])
    requires Blind(SetParts(Null, ps[1..], v1).value, SetParts(Null, ps[1..], v2).value, qs[1..], v1, v2)
    ensures Blind(SetParts(d, ps, v1).value, SetParts(d, ps, v2).value, qs, v1, v2)
  {
    hide GetPart;
    var r1, r2 := SetParts(d, ps, v1).value, SetParts(d, ps, v2).value;
    if GetParts(r1, qs).Ok? && GetParts(r2, qs).Ok? {
      var i := IndexOf(ps[0]).value;
      IndexRead(i, WrapParts(ps[1..], v1).value, qs[0], qs[1..]);
      IndexRead(i, WrapParts(ps[1..], v2).value, qs[0], qs[1..]);
    }
  }

  lemma BlindBelowField(d: Value, ps: seq<string>, qs: seq<string>, v1: Value, v2: Value)
    requires Probes(v1, v2) && SetParts(d, ps, v1).Ok? && SetParts(d, ps, v2).Ok?
    requires |qs| > |ps| > 0 && !IsIndexPart(ps[0]) && ps[0] != "$"
    requires Blind(SetParts(Under(d, ps[0]), ps[1..], v1).value, SetParts(Under(d, ps[0]), ps[1..], v2).value, qs[1..], v1, v2)
    ensures Blind(SetParts(d, ps, v1).value, SetParts(d, ps, v2).value, qs, v1, v2)
  {
    var p, rest := ps[0], ps[1..];
    WrapNotNull(rest, v1);
    WrapNotNull(rest, v2);
    if IsIndexPart(qs[0]) {
      assert !GetPart(SetParts(d, ps, v1).value, qs[0]).Ok?;
    } else {
      hide GetPart, Overlay;
      ReadsOverlay(d, p, WrapParts(rest, v1).value, WrapParts(rest, v2).value, qs[0]);
    }
  }

  /** Reading through a written "$" costs two levels, so as many parts as were written
      already overrun. */
  lemma {:induction false} DollarOverrun(d: Value, ps: seq<string>, qs: seq<string>, v1: Value, v2: Value)
    requires Probes(v1, v2) && SetParts(d, ps, v1).Ok? && SetParts(d, ps, v2).Ok?
    requires ps != [] && ps[0] == "$" && |qs| >= |ps|
    ensures Blind(SetParts(d, ps, v1).value, SetParts(d, ps, v2).value, qs, v1, v2)
    decreases |ps|, 0
  {
    var rest := ps[1..];
    var inner1, inner2 := WrapParts(rest, v1).value, WrapParts(rest, v2).value;
    WrapNotNull(rest, v1);
    WrapNotNull(rest, v2);
    if !IsIndexPart(qs[0]) {
      ReadsOverlayDollar(d, inner1, qs[0]);
      ReadsOverlayDollar(d, inner2, qs[0]);
      if rest != [] && !IsIndexPart(rest[0]) {
        var rest2 := rest[1..];
        var deep1, deep2 := WrapParts(rest2, v1).value, WrapParts(rest2, v2).value;
        WrapNotNull(rest2, v1);
        WrapNotNull(rest2, v2);
        OverlayField(Under(d, "$"), rest[0], deep1);
        OverlayField(Under(d, "$"), rest[0], deep2);
        SetOverrun(Under(Under(d, "$"), rest[0]), rest2, qs[1..], v1, v2);
      }
    }
  }

  /** With a "$" part on the path the two probes never both read back. */
  lemma {:induction false} DollarHides(d: Value, ps: seq<string>, v1: Value, v2: Value)
    requires Probes(v1, v2) && SetParts(d, ps, v1).Ok? && SetParts(d, ps, v2).Ok?
    requires "$" in ps
    ensures Blind(SetParts(d, ps, v1).value, SetParts(d, ps, v2).value, ps, v1, v2)
    decreases |ps|
  {
    var p, rest := ps[0], ps[1..];
    assert ps == [p] + rest;
    var inner1, inner2 := WrapParts(rest, v1).value, WrapParts(rest, v2).value;
    WrapNotNull(rest, v1);
    WrapNotNull(rest, v2);
    if p == "$" {
      DollarOverrun(d, ps, ps, v1, v2);
    } else if IsIndexPart(p) {
      DollarHides(Null, rest, v1, v2);
    } else {
      ReadsOverlay(d, p, inner1, inner2, p);
      DollarHides(Under(d, p), rest, v1, v2);
    }
  }

  /** Every index on the path parses and is one an array can be made for. */
  predicate Settable(ps: seq<string>) {
    forall i :: 0 <= i < |ps| && IsIndexPart(ps[i]) ==>
      IndexOf(ps[i]).Some? && 0 <= IndexOf(ps[i]).value < MAX_INT
  }

  /** Writing succeeds exactly on the settable paths, whatever the document and the value. */
  lemma {:induction false} SetSucceeds(d: Value, ps: seq<string>, v: Value)
    ensures SetParts(d, ps, v).Ok? <==> Settable(ps)
    decreases |ps|
  {
    if ps != [] {
      SetSucceeds(Null, ps[1..], v);
      assert ps == [ps[0]] + ps[1..];
      if Settable(ps) {
        forall i | 0 <= i < |ps[1..]| && IsIndexPart(ps[1..][i])
          ensures IndexOf(ps[1..][i]).Some? && 0 <= IndexOf(ps[1..][i]).value < MAX_INT
        {
          assert ps[1..][i] == ps[i + 1];
        }
      }
    }
  }

  /** How a write fails: the parts are wrapped from the last one on, so the last bad index decides - with
      an error when it is no number, and a panic when no array can be made for it. */
  lemma {:induction false} SetFails(d: Value, ps: seq<string>, v: Value, k: nat)
    requires k < |ps| && IsIndexPart(ps[k]) && Settable(ps[k + 1..])
    requires IndexOf(ps[k]).None? || IndexOf(ps[k]).value < 0 || IndexOf(ps[k]).value >= MAX_INT
    ensures if IndexOf(ps[k]).None? then SetParts(d, ps, v).Err? else SetParts(d, ps, v) == Panic
    decreases k
  {
    if k == 0 {
      SetSucceeds(Null, ps[1..], v);
    } else {
      assert ps[1..][k - 1] == ps[k] && ps[1..][k..] == ps[k + 1..];
      SetFails(Null, ps[1..], v, k - 1);
    }
  }

  /** Get after set holds for every non-null value exactly when no part is "$" and no object
      on the way carries a "$" entry. */
  lemma SetReadsExactly(d: Value, ps: seq<string>)
    requires Settable(ps)
    ensures (forall v :: v != Null ==>
               SetParts(d, ps, v).Ok? &&
               GetParts(SetParts(d, ps, v).value, ps) == Ok(Overlay(Peek(d, ps), v)))
            <==> "$" !in ps && !Shadowed(d, ps)
  {
    forall v | v != Null
      ensures SetParts(d, ps, v).Ok?
      ensures "$" !in ps && !Shadowed(d, ps) ==>
                GetParts(SetParts(d, ps, v).value, ps) == Ok(Overlay(Peek(d, ps), v))
    {
      SetSucceeds(d, ps, v);
      if "$" !in ps && !Shadowed(d, ps) { SetReads(d, ps, v); }
    }
    var v1, v2 := Str("0"), Str("1");
    assert v1 != Null && v2 != Null;
    if "$" in ps {
      DollarHides(d, ps, v1, v2);
    } else if Shadowed(d, ps) {
      ShadowHides(d, ps, v1, v2);
    }
  }

  /* ---------- the frame ---------- */

  lemma ReadsNonNull(y: Value, qs: seq<string>)
    requires GetParts(y, qs).Ok? && GetParts(y, qs).value != Null
    ensures y != Null
  {
  }

  /** One level of a write at p.rest next to a read at q.qrest. */
  lemma Peel(pre: seq<string>, f: string, ps: seq<string>)
    ensures var all := pre + [f] + ps;
            && all[0] == (if pre == [] then f else pre[0])
            && all[1..] == (if pre == [] then ps else pre[1..] + [f] + ps)
    ensures (pre + [f])[0] == (if pre == [] then f else pre[0])
    ensures (pre + [f])[1..] == (if pre == [] then [] else pre[1..] + [f])
  {
  }

  /** The write goes through field names up to where it leaves the read, none of them "$". */
  predicate Diverges(pre: seq<string>, f: string, g: string) {
    && (forall i :: 0 <= i < |pre| ==> !IsIndexPart(pre[i]))
    && !IsIndexPart(f) && !IsIndexPart(g) && f != g
    && "$" !in pre && f != "$"
  }

  lemma DivergesBelow(pre: seq<string>, f: string, g: string)
    requires Diverges(pre, f, g) && pre != []
    ensures Diverges(pre[1..], f, g) && pre[0] != "$" && !IsIndexPart(pre[0])
  {
    assert pre[0] in pre;
    assert "$" !in pre[1..] by { assert forall x :: x in pre[1..] ==> x in pre; }
  }

  /** A document a longer path reads through is an object, read through its "$" entry if it has
      one; without one, the write merges into the very entry the read follows. */
  lemma WriteGoesBelow(d: Value, p: string, rest: seq<string>, v: Value, qs: seq<string>)
    requires p != "$" && !IsIndexPart(p) && rest != [] && !IsIndexPart(rest[0]) && WrapParts(rest, v).Ok?
    requires GetPart(d, p).Ok? && GetParts(GetPart(d, p).value, qs).Ok? && qs != []
    requires "$" !in d.fields
    ensures var y := GetPart(d, p).value;
            y == Under(d, p) != Null && GetPart(Overlay(d, WrapPart(p, WrapParts(rest, v).value).value), p)
                                         == Ok(SetParts(y, rest, v).value)
  {
    var inner := WrapParts(rest, v).value;
    assert inner != Null;
    OverlayField(d, p, inner);
  }

  /** A non-null entry stays what it is. */
  lemma {:induction false} EntryStays(d: Value, pre: seq<string>, f: string, ps: seq<string>, v: Value, g: string)
    requires Diverges(pre, f, g) && SetParts(d, pre + [f] + ps, v).Ok?
    requires GetParts(d, pre + [g]).Ok? && GetParts(d, pre + [g]).value != Null
    ensures GetParts(SetParts(d, pre + [f] + ps, v).value, pre + [g]) == GetParts(d, pre + [g])
    decreases |pre|
  {
    Peel(pre, f, ps);
    Peel(pre, g, []);
    var p := if pre == [] then f else pre[0];
    var q := if pre == [] then g else pre[0];
    var rest := if pre == [] then ps else pre[1..] + [f] + ps;
    var qrest := if pre == [] then [] else pre[1..] + [g];
    if pre == [] || "$" in d.fields {
      ReadsNonNull(GetPart(d, q).value, qrest);
      if pre != [] { DivergesBelow(pre, f, g); }
      SideRead(d, p, WrapParts(rest, v).value, q);
    } else {
      DivergesBelow(pre, f, g);
      Peel(pre[1..], f, ps);
      WriteGoesBelow(d, p, rest, v, qrest);
      EntryStays(GetPart(d, q).value, pre[1..], f, ps, v, g);
    }
  }

  /** Behind a "$" entry the read does not notice the write at all. */
  lemma {:induction false} ShadowedEntryStays(d: Value, pre: seq<string>, f: string, ps: seq<string>, v: Value, g: string)
    requires Diverges(pre, f, g) && SetParts(d, pre + [f] + ps, v).Ok?
    requires GetParts(d, pre + [g]).Ok? && Shadowed(d, pre + [g])
    ensures GetParts(SetParts(d, pre + [f] + ps, v).value, pre + [g]) == GetParts(d, pre + [g])
    decreases |pre|
  {
    Peel(pre, f, ps);
    Peel(pre, g, []);
    var p := if pre == [] then f else pre[0];
    var q := if pre == [] then g else pre[0];
    var rest := if pre == [] then ps else pre[1..] + [f] + ps;
    if pre != [] { DivergesBelow(pre, f, g); }
    if "$" in d.fields {
      BesideShadow(d, p, WrapParts(rest, v).value, q);
    } else {
      Peel(pre[1..], f, ps);
      WriteGoesBelow(d, p, rest, v, pre[1..] + [g]);
      ShadowedEntryStays(GetPart(d, q).value, pre[1..], f, ps, v, g);
    }
  }

  lemma BesideShadow(d: Value, p: string, inner: Value, q: string)
    requires d.Obj? && "$" in d.fields && d.fields["$"].Obj? && p != "$" && !IsIndexPart(q)
    ensures GetPart(Overlay(d, Obj(map[p := inner])), q) == GetPart(d, q)
  {
    var b := map[p := inner];
    assert !Has(b, "$");
    MergeKeeps(d.fields, b, "$");
  }

  /** Null entries are outside the frame: a write beside one removes it, at any depth, unless the
      read goes through a "$" entry. */
  lemma {:induction false} NullEntryVanishes(d: Value, pre: seq<string>, f: string, ps: seq<string>, v: Value, g: string)
    requires Diverges(pre, f, g) && SetParts(d, pre + [f] + ps, v).Ok?
    requires GetParts(d, pre + [g]) == Ok(Null) && !Shadowed(d, pre + [g])
    ensures GetParts(SetParts(d, pre + [f] + ps, v).value, pre + [g]).Err?
    decreases |pre|
  {
    Peel(pre, f, ps);
    Peel(pre, g, []);
    if pre == [] {
      var b := map[f := WrapParts(ps, v).value];
      assert d.Obj? && "$" !in d.fields && !Has(d.fields, g);
      assert !Has(b, g) && !Has(b, "$");
      assert GetPart(Overlay(d, Obj(b)), g).Err?;
    } else {
      var rest := pre[1..] + [f] + ps;
      DivergesBelow(pre, f, g);
      assert "$" !in d.fields;
      Peel(pre[1..], f, ps);
      WriteGoesBelow(d, pre[0], rest, v, pre[1..] + [g]);
      NullEntryVanishes(GetPart(d, pre[0]).value, pre[1..], f, ps, v, g);
    }
  }

  lemma {:induction false} GetConcat(d: Value, ps: seq<string>, qs: seq<string>)
    ensures GetParts(d, ps + qs) == if GetParts(d, ps).Ok? then GetParts(GetParts(d, ps).value, qs) else GetParts(d, ps)
    decreases |ps|
  {
    if ps == [] {
      assert ps + qs == qs;
    } else {
      assert (ps + qs)[0] == ps[0] && (ps + qs)[1..] == ps[1..] + qs;
      if GetPart(d, ps[0]).Ok? { GetConcat(GetPart(d, ps[0]).value, ps[1..], qs); }
    }
  }

  /** Frame law: a write below pre.f leaves every read below pre.g alone - null values and failures
      included - when the entry at pre.g is not null, or is read through a "$" entry. */
  lemma SetFrame(d: Value, pre: seq<string>, f: string, ps: seq<string>, v: Value, g: string, qs: seq<string>)
    requires Diverges(pre, f, g) && SetParts(d, pre + [f] + ps, v).Ok?
    requires GetParts(d, pre + [g]).Ok? && (GetParts(d, pre + [g]).value != Null || Shadowed(d, pre + [g]))
    ensures GetParts(SetParts(d, pre + [f] + ps, v).value, pre + [g] + qs) == GetParts(d, pre + [g] + qs)
  {
    hide GetParts, SetParts;
    var after := SetParts(d, pre + [f] + ps, v).value;
    if Shadowed(d, pre + [g]) { ShadowedEntryStays(d, pre, f, ps, v, g); } else { EntryStays(d, pre, f, ps, v, g); }
    GetConcat(d, pre + [g], qs);
    GetConcat(after, pre + [g], qs);
  }

  /** The frame law for a readable neighbour holds exactly when its entry is not null or is read
      through a "$" entry. */
  lemma SetFrameExactly(d: Value, pre: seq<string>, f: string, ps: seq<string>, v: Value, g: string)
    requires Diverges(pre, f, g) && SetParts(d, pre + [f] + ps, v).Ok? && GetParts(d, pre + [g]).Ok?
    ensures (forall qs :: GetParts(SetParts(d, pre + [f] + ps, v).value, pre + [g] + qs) == GetParts(d, pre + [g] + qs))
            <==> GetParts(d, pre + [g]).value != Null || Shadowed(d, pre + [g])
  {
    hide GetParts, SetParts;
    var after := SetParts(d, pre + [f] + ps, v).value;
    if GetParts(d, pre + [g]).value != Null || Shadowed(d, pre + [g]) {
      forall qs ensures GetParts(after, pre + [g] + qs) == GetParts(d, pre + [g] + qs) {
        SetFrame(d, pre, f, ps, v, g, qs);
      }
    } else {
      NullEntryVanishes(d, pre, f, ps, v, g);
      assert pre + [g] + [] == pre + [g];
    }
  }

  /** One read beside a write: unchanged unless it follows the written field itself. */
  lemma SideRead(d: Value, p: string, inner: Value, q: string)
    requires p != "$" && !IsIndexPart(q)
    requires GetPart(d, q).Ok? && GetPart(d, q).value != Null
    ensures var r := Overlay(d, Obj(map[p := inner]));
            (p != q || "$" in d.fields) ==> GetPart(r, q) == GetPart(d, q)
    ensures var r := Overlay(d, Obj(map[p := inner])); "$" in d.fields <==> "$" in r.fields
  {
    var b := map[p := inner];
    var r := Merge(d.fields, b);
    assert !Has(b, "$") && (p != q ==> !Has(b, q));
    if "$" in d.fields {
      MergeKeeps(d.fields, b, "$");
    } else {
      if p != q { MergeKeeps(d.fields, b, q); }
    }
  }

  /** A write through a "$" field does disturb its neighbours: a readable field of the same object
      can no longer be read, unless the write continues with that very field. */
  lemma DollarWriteDisturbs(d: Value, ps: seq<string>, v: Value, a: string)
    requires d.Obj? && "$" !in d.fields && Has(d.fields, a) && !IsIndexPart(a)
    requires ps != [] && ps[0] != a && SetParts(d, ["$"] + ps, v).Ok?
    ensures GetParts(d, [a]) == Ok(d.fields[a])
    ensures !GetParts(SetParts(d, ["$"] + ps, v).value, [a]).Ok?
  {
    hide WrapPart, Merge;
    assert (["$"] + ps)[1..] == ps;
    var inner := WrapParts(ps, v).value;
    WrappedOnce(ps[0], WrapParts(ps[1..], v).value);
    WrappedOnce("$", inner);
    ReadsOverlayDollar(d, inner, a);
    ReadsOne(d, a);
    ReadsOne(SetParts(d, ["$"] + ps, v).value, a);
  }

  lemma ReadsOne(d: Value, a: string)
    ensures GetParts(d, [a]) == GetPart(d, a)
  {
    assert [a][1..] == [];
  }

  lemma WrappedOnce(p: string, v: Value)
    ensures !IsIndexPart(p) ==> WrapPart(p, v) == Ok(Obj(map[p := v]))
    ensures IsIndexPart(p) && WrapPart(p, v).Ok? ==> WrapPart(p, v).value.Arr?
  {
  }

  /* ---------- what a read finds, in any document ---------- */

  /** One more index: the element it names, counted from zero; no other array position is read. */
  lemma ReadsElement(d: Value, ps: seq<string>, q: string, xs: seq<Value>)
    requires GetParts(d, ps) == Ok(Arr(xs)) && IsIndexPart(q)
    ensures var r := GetParts(d, ps + [q]);
            match IndexOf(q)
            case Some(i) => if 0 <= i < |xs| then r == Ok(xs[i]) else r.Err?
            case None => r.Err?
  {
    GetConcat(d, ps, [q]);
    ReadsOne(Arr(xs), q);
  }

  /** One more field: the entry of that name - or, in an object with a "$" entry, the entry of that
      name in the object under "$", with a panic when "$" is not an object. */
  lemma ReadsField(d: Value, ps: seq<string>, q: string, fields: Fields)
    requires GetParts(d, ps) == Ok(Obj(fields)) && !IsIndexPart(q)
    ensures var r := GetParts(d, ps + [q]);
            if "$" !in fields then (if q in fields then r == Ok(fields[q]) else r.Err?)
            else match fields["$"]
                 case Obj(inner) => if q in inner then r == Ok(inner[q]) else r.Err?
                 case _ => r == Panic
  {
    GetConcat(d, ps, [q]);
    ReadsOne(Obj(fields), q);
  }

  /** Anything else has no parts, and a part that fails fails every longer path alike. */
  lemma ReadsNothing(d: Value, ps: seq<string>, q: string)
    requires match GetParts(d, ps)
             case Ok(Arr(_)) => !IsIndexPart(q)
             case Ok(Obj(_)) => IsIndexPart(q)
             case Ok(_) => true
             case Err(_) => true
             case Panic => false
    ensures GetParts(d, ps + [q]).Err?
  {
    GetConcat(d, ps, [q]);
    if GetParts(d, ps).Ok? { ReadsOne(GetParts(d, ps).value, q); }
  }

  /** The same on written paths: reading one step further than a path that gives an array or an
      object, for every path text and every document. */
  lemma WrittenPathReads(d: Value, steps: seq<Step>, k: nat, name: string)
    requires WellFormed(steps) && k <= MAX_INT && IsName(name)
    ensures Get(d, Written(steps)).Ok? && Get(d, Written(steps)).value.Arr? ==>
              var xs := Get(d, Written(steps)).value.elems;
              if k < |xs| then Get(d, Written(steps + [Index(k)])) == Ok(xs[k]) else Get(d, Written(steps + [Index(k)])).Err?
    ensures Get(d, Written(steps)).Ok? && Get(d, Written(steps)).value.Obj? && "$" !in Get(d, Written(steps)).value.fields ==>
              var fields := Get(d, Written(steps)).value.fields;
              if name in fields then Get(d, Written(steps + [Name(name)])) == Ok(fields[name])
              else Get(d, Written(steps + [Name(name)])).Err?
    ensures Get(d, Written([])) == Ok(d)
  {
    hide GetParts, Written, PathParts;
    WrittenGets(d, []);
    assert PartsOf([]) == [] && GetParts(d, []) == Ok(d) by { NoParts(d); }
    WrittenGets(d, steps);
    WrittenGets(d, steps + [Index(k)]);
    WrittenGets(d, steps + [Name(name)]);
    var ps := PartsOf(steps);
    assert PartsOf(steps + [Index(k)]) == ps + [PartOf(Index(k))];
    assert PartsOf(steps + [Name(name)]) == ps + [name];
    IndexPartShape(k);
    assert !IsIndexPart(name) by { assert name[0] in name; }
    var r := GetParts(d, ps);
    if r.Ok? && r.value.Arr? { ReadsElement(d, ps, PartOf(Index(k)), r.value.elems); }
    if r.Ok? && r.value.Obj? { ReadsField(d, ps, name, r.value.fields); }
  }

  lemma NoParts(d: Value)
    ensures PartsOf([]) == [] && GetParts(d, []) == Ok(d)
  {
  }

  lemma WrittenGets(d: Value, steps: seq<Step>)
    requires WellFormed(steps)
    ensures Get(d, Written(steps)) == GetParts(d, PartsOf(steps))
  {
    PathRoundTrip(steps);
    if steps == [] {
      assert Written(steps) == "$";
    } else {
      WrittenBelowRoot(steps);
    }
  }

  /* ---------- the Apply functions on path strings ---------- */

  /** The parts a path string addresses: none for the root forms. */
  function Address(path: Option<string>): (ps: seq<string>)
    requires path.Some? && path.value != "" ==> path.value[0] == '$'
  {
    if path.None? || path.value == "" || path.value == "$" then [] else PathParts(path.value)
  }

  predicate Rooted(path: Option<string>) {
    path.Some? && path.value != "" ==> path.value[0] == '$'
  }

  /** Get after set on path texts: for a written path below the root, what is set for it is read
      back through it, exactly when no step is named "$" and no object on the way carries "$". */
  lemma WrittenPathReadsBackExactly(d: Value, steps: seq<Step>)
    requires WellFormed(steps) && steps != [] && Settable(PartsOf(steps))
    ensures (forall v :: v != Null ==>
               Set(d, Written(steps), v).Ok? &&
               Get(Set(d, Written(steps), v).value, Written(steps)) == Ok(Overlay(Peek(d, PartsOf(steps)), v)))
            <==> (forall i :: 0 <= i < |steps| ==> steps[i] != Name("$")) && !Shadowed(d, PartsOf(steps))
  {
    hide PathParts, SetParts, GetParts, Settable, Written;
    PathRoundTrip(steps);
    WrittenBelowRoot(steps);
    SetReadsExactly(d, PartsOf(steps));
    NoDollarStep(steps);
    assert forall v :: Set(d, Written(steps), v) == SetParts(d, PartsOf(steps), v);
    assert forall v :: Get(v, Written(steps)) == GetParts(v, PartsOf(steps));
  }

  lemma WrittenBelowRoot(steps: seq<Step>)
    requires WellFormed(steps) && steps != []
    ensures Written(steps) != "$"
  {
    PathRoundTrip(steps);
    assert PathParts("$") == [];
  }

  lemma NoDollarStep(steps: seq<Step>)
    ensures "$" !in PartsOf(steps) <==> forall i :: 0 <= i < |steps| ==> steps[i] != Name("$")
  {
    var ps := PartsOf(steps);
    forall i | 0 <= i < |steps| ensures ps[i] == "$" <==> steps[i] == Name("$") {
      if steps[i].Index? { IndexPartShape(steps[i].index); }
    }
    if "$" in ps {
      var i :| 0 <= i < |ps| && ps[i] == "$";
    }
  }

  /** ResultPath then InputPath: a non-null result placed with ApplyResultPath is what
      ApplyInputPath selects again (merged into an object already there). The root forms
      replace the document instead of merging into it. */
  lemma ResultPathReadsBack(input: Value, result: Value, path: Option<string>)
    requires Rooted(path) && result != Null && ApplyResultPath(input, result, path).Ok?
    requires "$" !in Address(path) && !Shadowed(input, Address(path))
    ensures ApplyInputPath(ApplyResultPath(input, result, path).value, path)
         == Ok(if path.None? || path.value == "" || path.value == "$" then result
               else Overlay(Peek(input, Address(path)), result))
  {
    if path.Some? && path.value != "" && path.value != "$" {
      SetReads(input, PathParts(path.value), result);
    }
  }

  /** ApplyOutputPath returns either the value at the path, or - when the path leads nowhere -
      a document from which the path selects the whole output, unless the path has a "$" part. */
  lemma OutputPathSelectsOrWraps(output: Value, path: Option<string>)
    requires Rooted(path) && ApplyOutputPath(output, path).Ok?
    ensures var r := ApplyOutputPath(output, path).value;
            var direct := ApplyInputPath(output, path);
            || direct == Ok(r)
            || (direct.Err? && (ApplyInputPath(r, path) == Ok(output) <==> "$" !in Address(path)))
  {
    if path.Some? && path.value != "" && path.value != "$" {
      var ps := PathParts(path.value);
      if Get(output, path.value).Err? {
        WrapReads(ps, output);
      }
    }
  }
}
