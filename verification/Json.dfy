/** JSON documents as the engine sees them, and the deep merge of two objects
    (internal/states/jsonpath.go). */
module Json {

  /** A Go interface{} holding decoded JSON. Null is the nil interface. Waiting stands for
      the one non-JSON value that travels through the run loop: the pause request of a
      Message state, with the correlation it waits for. */
  datatype Value =
    | Null
    | Bool(b: bool)
    | Num(n: real)
    | Str(s: string)
    | Arr(elems: seq<Value>)
    | Obj(fields: map<string, Value>)
    | Waiting(key: string, correlation: Value)

  type Fields = map<string, Value>

  /** The entries mergeMaps copies: those that are not nil. */
  predicate Has(a: Fields, k: string) {
    k in a && a[k] != Null
  }

  /** The deep merge: null entries vanish, b wins, and two objects merge recursively. */
  function Merge(a: Fields, b: Fields): (r: Fields)
    ensures forall k :: k in r <==> Has(a, k) || Has(b, k)
    decreases Obj(a)
  {
    map k | k in a.Keys + b.Keys && (Has(a, k) || Has(b, k)) :: MergedEntry(a, b, k)
  }

  /** What the merge stores under one key. */
  function MergedEntry(a: Fields, b: Fields, k: string): (v: Value)
    requires Has(a, k) || Has(b, k)
    ensures v != Null
    decreases Obj(a), k
  {
    if !Has(b, k) then a[k]
    else if Has(a, k) && a[k].Obj? && b[k].Obj? then Obj(Merge(a[k].fields, b[k].fields))
    else b[k]
  }

  /** mergeMaps itself: two passes over the keys, in whatever order the runtime yields them.
      The result does not depend on that order. */
  method MergeMaps(a: Fields, b: Fields) returns (result: Fields)
    ensures result == Merge(a, b)
    decreases Obj(a)
  {
    result := map[];
    var todo := a.Keys;
    while todo != {}
      invariant todo <= a.Keys
      invariant forall k :: k in result <==> k !in todo && Has(a, k)
      invariant forall k :: k in result ==> result[k] == a[k]
    {
      var k :| k in todo;
      todo := todo - {k};
      if a[k] == Null { continue; }
      result := result[k := a[k]];
    }
    todo := b.Keys;
    while todo != {}
      invariant todo <= b.Keys
      invariant forall k :: k in result <==> Has(a, k) || (k !in todo && Has(b, k))
      invariant forall k :: k in result ==>
        result[k] == if k in todo || !Has(b, k) then a[k] else MergedEntry(a, b, k)
    {
      var k :| k in todo;
      todo := todo - {k};
      var v := b[k];
      if v == Null { continue; }
      if k in result && result[k].Obj? && v.Obj? {
        var nested := MergeMaps(result[k].fields, v.fields);
        result := result[k := Obj(nested)];
        continue;
      }
      result := result[k := v];
    }
  }

  /** Entry by entry: what the second side sets it decides, except that two objects merge in turn. */
  lemma MergeTakes(a: Fields, b: Fields, k: string)
    requires Has(b, k)
    ensures Has(Merge(a, b), k)
    ensures Merge(a, b)[k] ==
              if Has(a, k) && a[k].Obj? && b[k].Obj? then Obj(Merge(a[k].fields, b[k].fields)) else b[k]
  {
  }

  /** A merged object keeps every non-null key of both sides, and a key the second side
      does not set keeps its old value. */
  lemma MergeKeeps(a: Fields, b: Fields, k: string)
    requires Has(a, k)
    ensures Has(Merge(a, b), k)
    ensures !Has(b, k) ==> Merge(a, b)[k] == a[k]
  {
  }
}
