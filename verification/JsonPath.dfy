/** Reading, writing and wrapping at a reference path (internal/states/jsonpath.go), and the
    laws that relate them. Values are immutable here: setValue builds a new document. */
module JsonPath {
  import opened Outcomes
  import opened Json
  import opened PathSyntax

  /* ---------- one part ---------- */

  function GetIndex(v: Value, p: string): (r: Outcome<Value>)
    requires IsIndexPart(p)
  {
    match IndexOf(p)
    case None => Err("invalid array index")
    case Some(i) =>
      if !v.Arr? then Err("cannot index non-array")
      else if 0 <= i < |v.elems| then Ok(v.elems[i])
      else Err("array index out of bounds")
  }

  function ExtractField(fields: Fields, p: string): (r: Outcome<Value>) {
    if p in fields then Ok(fields[p]) else Err("field not found")
  }

  /** handleObjectField: an object that carries a "$" entry is read through that entry, and
      the unchecked type assertion panics when the entry is not an object. */
  function GetField(v: Value, p: string): (r: Outcome<Value>) {
    if !v.Obj? then Err("cannot access field")
    else if "$" in v.fields then
      if v.fields["$"].Obj? then ExtractField(v.fields["$"].fields, p) else Panic
    else ExtractField(v.fields, p)
  }

  function GetPart(v: Value, p: string): (r: Outcome<Value>) {
    if IsIndexPart(p) then GetIndex(v, p) else GetField(v, p)
  }

  /** An array of nulls with one value at index i. */
  function Lone(i: nat, v: Value): (r: Value)
    ensures r.Arr? && |r.elems| == i + 1 && r.elems[i] == v
  {
    Arr(seq(i, _ => Null) + [v])
  }

  /** The fresh container a part asks for around v. A negative index panics, either when the
      slice is made or when it is indexed. */
  function WrapPart(p: string, v: Value): (r: Outcome<Value>) {
    if !IsIndexPart(p) then Ok(Obj(map[p := v]))
    else match IndexOf(p)
      case None => Err("invalid array index")
      case Some(i) => if 0 <= i < MAX_INT then Ok(Lone(i, v)) else Panic
  }

  /* ---------- whole paths ---------- */

  function GetParts(v: Value, ps: seq<string>): (r: Outcome<Value>) {
    if ps == [] then Ok(v)
    else
      var next := GetPart(v, ps[0]);
      if next.Ok? then GetParts(next.value, ps[1..]) else next
  }

  /** Nested containers with v innermost; the last part is wrapped first. */
  function WrapParts(ps: seq<string>, v: Value): (r: Outcome<Value>) {
    if ps == [] then Ok(v)
    else
      var inner := WrapParts(ps[1..], v);
      if inner.Ok? then WrapPart(ps[0], inner.value) else inner
  }

  /** How the wrapped value meets the old document: two objects merge, else it replaces. */
  function Overlay(data: Value, v: Value): (r: Value) {
    if data.Obj? && v.Obj? then Obj(Merge(data.fields, v.fields)) else v
  }

  function SetParts(data: Value, ps: seq<string>, v: Value): (r: Outcome<Value>) {
    var w := WrapParts(ps, v);
    if w.Ok? then Ok(Overlay(data, w.value)) else w
  }

  function Get(data: Value, path: string): (r: Outcome<Value>) {
    if path == "$" then Ok(data)
    else if path == "" || path[0] != '$' then Err("path must start with '$'")
    else GetParts(data, PathParts(path))
  }

  function Set(data: Value, path: string, v: Value): (r: Outcome<Value>) {
    if path == "$" then Ok(v)
    else if path == "" || path[0] != '$' then Err("path must start with '$'")
    else SetParts(data, PathParts(path), v)
  }

  function Wrap(path: string, v: Value): (r: Outcome<Value>) {
    if path == "$" then Ok(v)
    else if path == "" || path[0] != '$' then Err("path must start with '$'")
    else WrapParts(PathParts(path), v)
  }

  /* ---------- the Apply functions ---------- */

  function ApplyInputPath(input: Value, path: Option<string>): (r: Outcome<Value>) {
    if path.None? || path.value == "" || path.value == "$" then Ok(input)
    else Get(input, path.value)
  }

  function ApplyResultPath(input: Value, result: Value, path: Option<string>): (r: Outcome<Value>) {
    if path.None? || path.value == "" || path.value == "$" then Ok(result)
    else Set(input, path.value, result)
  }

  function ApplyOutputPath(output: Value, path: Option<string>): (r: Outcome<Value>) {
    if path.None? || path.value == "" || path.value == "$" then Ok(output)
    else
      var value := Get(output, path.value);
      if value.Err? then Wrap(path.value, output) else value
  }

  /* ---------- getValue, wrapValue and setValue ---------- */

  /** Trims the root marker and scans the rest; no part comes out empty, so the loops that
      skip empty parts never skip one. */
  method ParsePath(path: string) returns (parts: seq<string>)
    requires path != "" && path[0] == '$'
    ensures parts == PathParts(path)
    ensures forall i :: 0 <= i < |parts| ==> parts[i] != ""
  {
    var rest := path[1..];
    if rest != "" && rest[0] == '.' { rest := rest[1..]; }
    parts := SplitPath(rest);
    SplitIsCanonical(rest);
  }

  method GetValue(data: Value, path: string) returns (r: Outcome<Value>)
    ensures r == Get(data, path)
  {
    if path == "$" { return Ok(data); }
    if path == "" || path[0] != '$' { return Err("path must start with '$'"); }
    var parts := ParsePath(path);
    var current := data;
    for i := 0 to |parts|
      invariant GetParts(data, parts) == GetParts(current, parts[i..])
    {
      assert parts[i..][0] == parts[i] && parts[i..][1..] == parts[i + 1..];
      var next := GetPart(current, parts[i]);
      if !next.Ok? { return next; }
      current := next.value;
    }
    return Ok(current);
  }

  method WrapValue(path: string, value: Value) returns (r: Outcome<Value>)
    ensures r == Wrap(path, value)
  {
    if path == "$" { return Ok(value); }
    if path == "" || path[0] != '$' { return Err("path must start with '$'"); }
    var parts := ParsePath(path);
    r := WrapLoop(parts, value);
  }

  /** The backwards loop shared by setValue and wrapValue. */
  method WrapLoop(parts: seq<string>, value: Value) returns (r: Outcome<Value>)
    ensures r == WrapParts(parts, value)
  {
    var result := value;
    var i := |parts|;
    while i > 0
      invariant 0 <= i <= |parts|
      invariant WrapParts(parts[i..], value) == Ok(result)
    {
      i := i - 1;
      assert parts[i..][0] == parts[i] && parts[i..][1..] == parts[i + 1..];
      var next := WrapPart(parts[i], result);
      if !next.Ok? {
        WrapFails(parts, i, value);
        return next;
      }
      result := next.value;
    }
    assert parts[0..] == parts;
    return Ok(result);
  }

  lemma {:induction false} WrapFails(ps: seq<string>, i: nat, v: Value)
    requires i <= |ps| && !WrapParts(ps[i..], v).Ok?
    ensures WrapParts(ps, v) == WrapParts(ps[i..], v)
    decreases i
  {
    if i == 0 {
      assert ps[0..] == ps;
    } else {
      assert ps[i - 1..][1..] == ps[i..];
      WrapFails(ps, i - 1, v);
    }
  }

  /** The tail of setValue: merge when both sides are objects, else keep the fresh structure. */
  method MergeInto(data: Value, result: Value) returns (r: Value)
    ensures r == Overlay(data, result)
  {
    if data.Obj? && result.Obj? {
      var merged := MergeMaps(data.fields, result.fields);
      return Obj(merged);
    }
    return result;
  }

  method SetValue(data: Value, path: string, value: Value) returns (r: Outcome<Value>)
    ensures r == Set(data, path, value)
  {
    hide SetParts;
    if path == "$" { return Ok(value); }
    if path == "" || path[0] != '$' { return Err("path must start with '$'"); }
    var parts := ParsePath(path);
    r := SetLoop(data, parts, value);
  }

  method SetLoop(data: Value, parts: seq<string>, value: Value) returns (r: Outcome<Value>)
    ensures r == SetParts(data, parts, value)
  {
    hide WrapParts, Overlay;
    r := WrapLoop(parts, value);
    if r.Ok? {
      var result := MergeInto(data, r.value);
      r := Ok(result);
    }
  }
}
