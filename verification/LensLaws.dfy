/** The rest of the lens laws: setting twice, setting back what was read, and what a write at an
    index does to the other elements (internal/states/jsonpath.go). */
module LensLaws {
  import opened Outcomes
  import opened Json
  import opened PathSyntax
  import opened JsonPath
  import opened JsonPathLaws

  /* ---------- set after set ---------- */

  predicate HasIndex(ps: seq<string>) {
    exists i :: 0 <= i < |ps| && IsIndexPart(ps[i])
  }

  lemma HasIndexBelow(ps: seq<string>)
    requires ps != [] && !IsIndexPart(ps[0])
    ensures HasIndex(ps) <==> HasIndex(ps[1..])
  {
    if HasIndex(ps) {
      var i :| 0 <= i < |ps| && IsIndexPart(ps[i]);
      assert ps[1..][i - 1] == ps[i];
    }
    if HasIndex(ps[1..]) {
      var i :| 0 <= i < |ps[1..]| && IsIndexPart(ps[1..][i]);
      assert ps[i + 1] == ps[1..][i];
    }
  }

  /** A write that leaves all but one entry alone. */
  ghost predicate Besides(d: Value, r: Value, p: string) {
    r.Obj? && forall q :: q != p ==> Under(r, q) == Under(d, q)
  }

  lemma WriteIsBeside(d: Value, p: string, inner: Value)
    ensures Besides(d, Overlay(d, Obj(map[p := inner])), p)
    ensures inner != Null ==> Under(Overlay(d, Obj(map[p := inner])), p) == Overlay(Under(d, p), inner)
  {
    if inner != Null {
      OverlayField(d, p, inner);
    } else if d.Obj? {
      var b := map[p := inner];
      var r := Merge(d.fields, b);
      forall q | q != p ensures Under(Obj(r), q) == Under(d, q) {
        if Has(d.fields, q) { MergeKeeps(d.fields, b, q); }
      }
    }
  }

  /** A second write to the same entry makes the first one's effect elsewhere invisible. */
  lemma SecondWrite(d: Value, r: Value, p: string, inner: Value)
    requires inner != Null && Besides(d, r, p) && Overlay(Under(r, p), inner) == Overlay(Under(d, p), inner)
    ensures Overlay(r, Obj(map[p := inner])) == Overlay(d, Obj(map[p := inner]))
  {
    hide Overlay, Under;
    OverlayField(d, p, inner);
    OverlayField(r, p, inner);
    var x, y := Overlay(d, Obj(map[p := inner])), Overlay(r, Obj(map[p := inner]));
    assert x.fields.Keys == y.fields.Keys by {
      forall q ensures q in x.fields <==> q in y.fields {
        if q != p { assert Under(r, q) == Under(d, q); }
      }
    }
    assert x.fields == y.fields;
  }

  /** The last write wins when it is not an object, or when the path goes through an index. */
  lemma {:induction false} LastWriteWins(d: Value, ps: seq<string>, v: Value, w: Value)
    requires w != Null && (!w.Obj? || HasIndex(ps)) && SetParts(d, ps, v).Ok? && SetParts(d, ps, w).Ok?
    ensures SetParts(SetParts(d, ps, v).value, ps, w) == SetParts(d, ps, w)
    decreases |ps|
  {
    if ps != [] && !IsIndexPart(ps[0]) {
      var p, rest := ps[0], ps[1..];
      var innerV, innerW := WrapParts(rest, v).value, WrapParts(rest, w).value;
      var r := Overlay(d, Obj(map[p := innerV]));
      WrapNotNull(rest, w);
      HasIndexBelow(ps);
      WriteIsBeside(d, p, innerV);
      if innerV != Null {
        LastWriteWins(Under(d, p), rest, v, w);
      } else {
        NullIsUnwrapped(rest, v);
      }
      SecondWrite(d, r, p, innerW);
    }
  }

  lemma NullIsUnwrapped(ps: seq<string>, v: Value)
    requires WrapParts(ps, v) == Ok(Null)
    ensures ps == []
  {
  }

  /** Setting an object at a path of fields keeps what an earlier object put there. */
  lemma {:induction false} FirstWriteShows(d: Value, ps: seq<string>, k: string, w: Value)
    requires w.Obj? && !HasIndex(ps) && k !in w.fields && SetParts(d, ps, w).Ok?
    requires Under(Peek(d, ps), k) == Null
    ensures var v := Obj(map[k := Str("")]);
            SetParts(d, ps, v).Ok? && SetParts(SetParts(d, ps, v).value, ps, w) != SetParts(d, ps, w)
    decreases |ps|
  {
    var v := Obj(map[k := Str("")]);
    SetSucceeds(d, ps, v);
    SetSucceeds(d, ps, w);
    if ps == [] {
      var x := Overlay(d, v);
      OverlayField(d, k, Str(""));
      assert x.Obj? && Has(x.fields, k);
      MergeKeeps(x.fields, w.fields, k);
      assert !d.Obj? || !Has(d.fields, k);
    } else {
      var p, rest := ps[0], ps[1..];
      HasIndexHere(ps);
      HasIndexBelow(ps);
      assert ps == [p] + rest;
      var innerV, innerW := WrapParts(rest, v).value, WrapParts(rest, w).value;
      WrapNotNull(rest, v);
      WrapNotNull(rest, w);
      SetSucceeds(Under(d, p), rest, w);
      FirstWriteShows(Under(d, p), rest, k, w);
      var r := Overlay(d, Obj(map[p := innerV]));
      WriteIsBeside(d, p, innerV);
      OverlayField(d, p, innerW);
      OverlayField(r, p, innerW);
    }
  }

  lemma HasIndexHere(ps: seq<string>)
    requires !HasIndex(ps) && ps != []
    ensures !IsIndexPart(ps[0])
  {
  }

  /** Some name none of the keys has. */
  lemma {:induction false} FreshName(names: set<string>) returns (k: string)
    ensures k !in names && forall n :: n in names ==> |n| < |k|
    decreases |names|
  {
    if names == {} {
      k := "";
    } else {
      var n :| n in names;
      var rest := FreshName(names - {n});
      k := if |rest| > |n| then rest else n + "x";
    }
  }

  /** Set after set: the last write wins over every earlier one exactly when it is not an object or
      the path goes through an index; objects on a path of fields accumulate. */
  lemma LastWriteWinsExactly(d: Value, ps: seq<string>, w: Value)
    requires w != Null && Settable(ps)
    ensures (forall v :: SetParts(d, ps, v).Ok? && SetParts(SetParts(d, ps, v).value, ps, w) == SetParts(d, ps, w))
        <==> !w.Obj? || HasIndex(ps)
  {
    hide Settable;
    if !w.Obj? || HasIndex(ps) {
      forall v ensures SetParts(d, ps, v).Ok? && SetParts(SetParts(d, ps, v).value, ps, w) == SetParts(d, ps, w) {
        SetSucceeds(d, ps, v);
        SetSucceeds(d, ps, w);
        LastWriteWins(d, ps, v, w);
      }
    } else {
      var x := Peek(d, ps);
      var k := FreshName(w.fields.Keys + (if x.Obj? then x.fields.Keys else {}));
      SetSucceeds(d, ps, w);
      FirstWriteShows(d, ps, k, w);
    }
  }

  /* ---------- setting back what was read ---------- */

  /** No object inside, reached through objects, has a null entry. */
  predicate Solid(v: Value) {
    v.Obj? ==> forall k :: k in v.fields ==> v.fields[k] != Null && Solid(v.fields[k])
  }

  /** The same for the objects on the way, and for all of what lies at the end. */
  predicate SolidAlong(d: Value, ps: seq<string>)
    decreases |ps|
  {
    if ps == [] then Solid(d)
    else
      && d.Obj? && ps[0] in d.fields
      && (forall k :: k in d.fields ==> d.fields[k] != Null)
      && SolidAlong(d.fields[ps[0]], ps[1..])
  }

  /** Merging an object with itself gives it back exactly when it is solid. */
  lemma {:induction false} MergeSelf(v: Value)
    requires v.Obj?
    ensures Merge(v.fields, v.fields) == v.fields <==> Solid(v)
    decreases v
  {
    var a := v.fields;
    var r := Merge(a, a);
    forall k | k in a && a[k].Obj? ensures Merge(a[k].fields, a[k].fields) == a[k].fields <==> Solid(a[k]) {
      MergeSelf(a[k]);
    }
    assert forall k :: k in r ==> r[k] == MergedEntry(a, a, k);
    if Solid(v) {
      forall k | k in a ensures k in r && r[k] == a[k] {
        assert Has(a, k);
      }
      assert r.Keys == a.Keys;
    } else {
      var k :| k in a && !(a[k] != Null && Solid(a[k]));
      if a[k] != Null { assert r[k] == Obj(Merge(a[k].fields, a[k].fields)); }
    }
  }

  /** Setting back what was read at a path of fields changes nothing exactly when no object on the
      way, and none inside the value, has a null entry. */
  lemma {:induction false} PutBackExactly(d: Value, ps: seq<string>)
    requires !HasIndex(ps) && "$" !in ps && !Shadowed(d, ps) && GetParts(d, ps).Ok?
    ensures SetParts(d, ps, GetParts(d, ps).value) == Ok(d) <==> SolidAlong(d, ps)
    decreases |ps|
  {
    if ps == [] {
      if d.Obj? { MergeSelf(d); }
    } else {
      var p, rest := ps[0], ps[1..];
      HasIndexHere(ps);
      HasIndexBelow(ps);
      assert ps == [p] + rest;
      assert d.Obj? && "$" !in d.fields && p in d.fields;
      var y := d.fields[p];
      var x := GetParts(d, ps).value;
      SetSucceeds(y, rest, x);
      SetSucceeds(d, ps, x);
      FieldsAreSettable(ps);
      var inner := WrapParts(rest, x).value;
      if inner == Null {
        NullIsUnwrapped(rest, x);
        assert y == Null;
        assert !Has(d.fields, p) && !Has(map[p := inner], p);
      } else {
        if y == Null { NullReads(rest); } else { PutBackExactly(y, rest); }
        PutBackField(d, p, inner);
      }
    }
  }

  lemma FieldsAreSettable(ps: seq<string>)
    requires !HasIndex(ps)
    ensures Settable(ps)
    ensures ps != [] ==> Settable(ps[1..])
  {
    if ps != [] {
      forall i | 0 <= i < |ps[1..]| ensures !IsIndexPart(ps[1..][i]) { assert ps[1..][i] == ps[i + 1]; }
    }
  }

  lemma NullReads(qs: seq<string>)
    ensures qs != [] ==> !GetParts(Null, qs).Ok?
  {
  }

  lemma PutBackField(d: Value, p: string, inner: Value)
    requires d.Obj? && p in d.fields && inner != Null
    ensures Overlay(d, Obj(map[p := inner])) == d <==>
              (forall k :: k in d.fields ==> d.fields[k] != Null) && Overlay(d.fields[p], inner) == d.fields[p]
  {
    OverlayField(d, p, inner);
    var r := Overlay(d, Obj(map[p := inner]));
    if (forall k :: k in d.fields ==> d.fields[k] != Null) && Overlay(d.fields[p], inner) == d.fields[p] {
      assert r.fields.Keys == d.fields.Keys;
      assert r.fields == d.fields;
    }
    if r == d {
      forall k | k in d.fields ensures d.fields[k] != Null { assert k in r.fields; }
    }
  }

  /* ---------- the frame at an index ---------- */

  lemma {:induction false} WrapConcat(ps: seq<string>, qs: seq<string>, v: Value)
    requires WrapParts(ps + qs, v).Ok?
    ensures WrapParts(qs, v).Ok? && WrapParts(ps + qs, v) == WrapParts(ps, WrapParts(qs, v).value)
    decreases |ps|
  {
    if ps == [] {
      assert ps + qs == qs;
    } else {
      assert (ps + qs)[0] == ps[0] && (ps + qs)[1..] == ps[1..] + qs;
      WrapConcat(ps[1..], qs, v);
    }
  }

  /** A write below an index replaces the whole array: the element itself is there, the elements
      before it are null, and the elements after it are gone - whatever was there before. */
  lemma IndexWriteReplaces(d: Value, pre: seq<string>, i: string, ps: seq<string>, v: Value, j: string)
    requires IsIndexPart(i) && IsIndexPart(j) && "$" !in pre && !Shadowed(d, pre)
    requires SetParts(d, pre + ([i] + ps), v).Ok?
    ensures IndexOf(i).Some? && WrapParts(ps, v).Ok?
    ensures GetParts(SetParts(d, pre + ([i] + ps), v).value, pre + [j]) ==
              match IndexOf(j)
              case None => Err("invalid array index")
              case Some(n) =>
                if n == IndexOf(i).value then WrapParts(ps, v)
                else if 0 <= n < IndexOf(i).value then Ok(Null)
                else Err("array index out of bounds")
  {
    WrapConcat(pre, [i] + ps, v);
    assert ([i] + ps)[1..] == ps;
    var inner := WrapParts(ps, v).value;
    var lone := WrapParts([i] + ps, v).value;
    assert lone == Lone(IndexOf(i).value, inner);
    SetReads(d, pre, lone);
    var after := SetParts(d, pre + ([i] + ps), v).value;
    assert after == SetParts(d, pre, lone).value;
    GetConcat(after, pre, [j]);
    ReadsOne(lone, j);
  }

  /** So beside a written element an element keeps its value exactly when it comes before it and was
      null already. */
  lemma IndexFrameExactly(d: Value, pre: seq<string>, i: string, ps: seq<string>, v: Value, j: string)
    requires IsIndexPart(i) && IsIndexPart(j) && "$" !in pre && !Shadowed(d, pre)
    requires SetParts(d, pre + ([i] + ps), v).Ok? && GetParts(d, pre + [j]).Ok? && IndexOf(j) != IndexOf(i)
    ensures IndexOf(i).Some? && IndexOf(j).Some?
    ensures GetParts(SetParts(d, pre + ([i] + ps), v).value, pre + [j]) == GetParts(d, pre + [j])
        <==> IndexOf(j).value < IndexOf(i).value && GetParts(d, pre + [j]).value == Null
  {
    hide SetParts;
    IndexWriteReplaces(d, pre, i, ps, v, j);
    GetConcat(d, pre, [j]);
    ReadsOne(GetParts(d, pre).value, j);
  }
}
