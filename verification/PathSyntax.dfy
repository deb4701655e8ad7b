/** The concrete syntax of reference paths: splitting a path string into parts,
    printing parts, and reading decimal indexes (internal/states/jsonpath.go). */
module PathSyntax {
  import opened Outcomes

  /* ---------- what a part can look like ---------- */

  /** A field name: non-empty, without the two characters that end a name. */
  predicate IsName(p: string) {
    p != "" && '.' !in p && '[' !in p
  }

  /** A closed bracket group; dots and further '[' may occur inside. */
  predicate IsGroup(p: string) {
    |p| >= 2 && p[0] == '[' && p[|p| - 1] == ']' && ']' !in p[..|p| - 1]
  }

  /** A bracket group the path never closes. */
  predicate IsOpenGroup(p: string) {
    p != "" && p[0] == '[' && ']' !in p
  }

  /** The lists of parts that splitting can produce: names and groups, and possibly
      one unclosed group at the very end. */
  predicate Canonical(ps: seq<string>) {
    forall i :: 0 <= i < |ps| ==>
      IsName(ps[i]) || IsGroup(ps[i]) || (i == |ps| - 1 && IsOpenGroup(ps[i]))
  }

  /* ---------- splitting, one whole part at a time ---------- */

  /** Position of the first character of s that is in stop; |s| when there is none. */
  function FirstOf(s: string, stop: set<char>): (k: nat)
    ensures k <= |s|
    ensures forall i :: 0 <= i < k ==> s[i] !in stop
    ensures k < |s| ==> s[k] in stop
  {
    if s == "" || s[0] in stop then 0 else 1 + FirstOf(s[1..], stop)
  }

  /** Splitting described part by part: a dot between parts is dropped, a '[' starts a
      group that runs up to and including the next ']' (or to the end of the text), and
      anything else is a name that runs up to the next '.' or '['. */
  function Split(s: string): (ps: seq<string>)
    decreases |s|
  {
    if s == "" then []
    else if s[0] == '.' then Split(s[1..])
    else if s[0] == '[' then
      var k := FirstOf(s, {']'});
      if k == |s| then [s] else [s[..k + 1]] + Split(s[k + 1..])
    else
      var k := FirstOf(s, {'.', '['});
      [s[..k]] + Split(s[k..])
  }

  lemma FirstOfAt(s: string, stop: set<char>, k: nat)
    requires k <= |s|
    requires forall i :: 0 <= i < k ==> s[i] !in stop
    requires k < |s| ==> s[k] in stop
    ensures FirstOf(s, stop) == k
  {
    var j := FirstOf(s, stop);
  }

  lemma SplitName(p: string, rest: string)
    requires IsName(p)
    requires rest == "" || rest[0] == '.' || rest[0] == '['
    ensures Split(p + rest) == [p] + Split(rest)
  {
    var s := p + rest;
    assert s[0] == p[0] && p[0] in p;
    FirstOfAt(s, {'.', '['}, |p|);
    assert s[..|p|] == p && s[|p|..] == rest;
  }

  lemma SplitGroup(p: string, rest: string)
    requires IsGroup(p)
    ensures Split(p + rest) == [p] + Split(rest)
  {
    var s := p + rest;
    var k := |p| - 1;
    assert forall i :: 0 <= i < k ==> s[i] == p[..k][i];
    FirstOfAt(s, {']'}, k);
    assert s[..k + 1] == p && s[k + 1..] == rest;
  }

  lemma SplitOpenGroup(p: string)
    requires IsOpenGroup(p)
    ensures Split(p) == [p]
  {
    FirstOfAt(p, {']'}, |p|);
  }

  lemma SplitDot(rest: string)
    ensures Split("." + rest) == Split(rest)
  {
    assert ("." + rest)[1..] == rest;
  }

  /** Scanner state: the parts already emitted, followed by the split of the pending text. */
  ghost predicate Scanned(path: string, parts: seq<string>, text: string) {
    Split(path) == parts + Split(text)
  }

  lemma FlushName(path: string, parts: seq<string>, p: string, rest: string)
    requires Scanned(path, parts, p + rest)
    requires p == "" || (IsName(p) && (rest == "" || rest[0] == '.' || rest[0] == '['))
    ensures Scanned(path, if p == "" then parts else parts + [p], rest)
  {
    if p == "" {
      assert p + rest == rest;
    } else {
      SplitName(p, rest);
      assert parts + ([p] + Split(rest)) == (parts + [p]) + Split(rest);
    }
  }

  lemma FlushGroup(path: string, parts: seq<string>, p: string, rest: string)
    requires Scanned(path, parts, p + "]" + rest) && IsOpenGroup(p)
    ensures Scanned(path, parts + [p + "]"], rest)
  {
    assert (p + "]")[..|p|] == p;
    SplitGroup(p + "]", rest);
    assert parts + ([p + "]"] + Split(rest)) == (parts + [p + "]"]) + Split(rest);
  }

  lemma SkipDot(path: string, parts: seq<string>, rest: string)
    requires Scanned(path, parts, "." + rest)
    ensures Scanned(path, parts, rest)
  {
    SplitDot(rest);
  }

  lemma Finish(path: string, parts: seq<string>, p: string)
    requires Scanned(path, parts, p) && (p == "" || IsName(p) || IsOpenGroup(p))
    ensures Split(path) == if p == "" then parts else parts + [p]
  {
    if p == "" {
      assert parts + Split(p) == parts;
    } else if IsName(p) {
      assert p + "" == p;
      SplitName(p, "");
    } else {
      SplitOpenGroup(p);
    }
  }

  /** What the scanner holds as its pending part. */
  ghost predicate Scanning(current: string, inBrackets: bool) {
    if inBrackets then IsOpenGroup(current) else current == "" || IsName(current)
  }

  lemma Grow(path: string, parts: seq<string>, current: string, inBrackets: bool, text: string)
    requires text != "" && Scanning(current, inBrackets) && Scanned(path, parts, current + text)
    requires if inBrackets then text[0] != ']' else text[0] != '.' && text[0] != '['
    ensures Scanning(current + [text[0]], inBrackets)
    ensures Scanned(path, parts, current + [text[0]] + text[1..])
  {
    assert current + [text[0]] + text[1..] == current + text;
  }

  /** splitPath: one character at a time, with a pending part and an
      in-brackets flag. It computes the part-by-part splitting. */
  method SplitPath(path: string) returns (parts: seq<string>)
    ensures parts == Split(path)
  {
    hide Split;
    parts := [];
    var current := "";
    var inBrackets := false;
    assert path[0..] == path && current + path == path;
    assert parts + Split(path) == Split(path);
    for i := 0 to |path|
      invariant Scanned(path, parts, current + path[i..])
      invariant Scanning(current, inBrackets)
    {
      var ch := path[i];
      ghost var text := path[i..];
      assert text[0] == ch && text[1..] == path[i + 1..];
      if ch == '.' && !inBrackets {
        FlushName(path, parts, current, text);
        if |current| > 0 {
          parts := parts + [current];
          current := "";
        }
        assert text == "." + text[1..] && current + text[1..] == text[1..];
        SkipDot(path, parts, text[1..]);
      } else if ch == '[' && !inBrackets {
        FlushName(path, parts, current, text);
        if |current| > 0 {
          parts := parts + [current];
          current := "";
        }
        inBrackets := true;
        current := current + [ch];
        assert current + text[1..] == text;
      } else if ch == ']' && inBrackets {
        assert current + text == current + "]" + text[1..];
        FlushGroup(path, parts, current, text[1..]);
        current := current + [ch];
        parts := parts + [current];
        current := "";
        assert current + text[1..] == text[1..];
        inBrackets := false;
      } else {
        Grow(path, parts, current, inBrackets, text);
        current := current + [ch];
      }
    }
    assert current + path[|path|..] == current;
    Finish(path, parts, current);
    if |current| > 0 {
      parts := parts + [current];
    }
  }

  /* ---------- laws of splitting ---------- */

  lemma CanonicalCons(p: string, ps: seq<string>)
    requires Canonical(ps) && (IsName(p) || IsGroup(p) || (ps == [] && IsOpenGroup(p)))
    ensures Canonical([p] + ps)
  {
    hide IsName, IsGroup, IsOpenGroup;
  }

  lemma CanonicalNonEmpty(ps: seq<string>)
    requires Canonical(ps)
    ensures forall i :: 0 <= i < |ps| ==> ps[i] != ""
  {
  }

  /** Every split is canonical; in particular no part is ever empty. */
  lemma SplitIsCanonical(s: string)
    ensures Canonical(Split(s))
    ensures forall i :: 0 <= i < |Split(s)| ==> Split(s)[i] != ""
  {
    hide Split, Canonical;
    PartsAreCanonical(s);
    CanonicalNonEmpty(Split(s));
  }

  lemma {:induction false} PartsAreCanonical(s: string)
    ensures Canonical(Split(s))
    decreases |s|
  {
    if s == "" {
    } else if s[0] == '.' {
      PartsAreCanonical(s[1..]);
    } else if s[0] == '[' {
      hide Canonical;
      var k := FirstOf(s, {']'});
      if k < |s| {
        var p := s[..k + 1];
        assert p[..|p| - 1] == s[..k];
        assert IsGroup(p);
        PartsAreCanonical(s[k + 1..]);
        CanonicalCons(p, Split(s[k + 1..]));
      } else {
        assert IsOpenGroup(s);
        NothingIsCanonical();
        CanonicalCons(s, []);
        assert [s] + [] == [s];
      }
    } else {
      hide Canonical;
      var k := FirstOf(s, {'.', '['});
      assert IsName(s[..k]);
      PartsAreCanonical(s[k..]);
      CanonicalCons(s[..k], Split(s[k..]));
    }
  }

  lemma NothingIsCanonical()
    ensures Canonical([])
  {
  }

  /** Parts printed one after the other, each name with a dot in front. */
  function Print(ps: seq<string>): (s: string) {
    if ps == [] then ""
    else (if IsName(ps[0]) then "." + ps[0] else ps[0]) + Print(ps[1..])
  }

  lemma Assoc(a: string, b: string, c: string)
    ensures a + (b + c) == (a + b) + c
  {
  }

  lemma CanonicalTail(ps: seq<string>)
    requires Canonical(ps) && ps != []
    ensures Canonical(ps[1..])
    ensures |ps| > 1 ==> IsName(ps[0]) || IsGroup(ps[0])
  {
    forall i | 0 <= i < |ps[1..]|
      ensures IsName(ps[1..][i]) || IsGroup(ps[1..][i]) || (i == |ps[1..]| - 1 && IsOpenGroup(ps[1..][i]))
    {
      assert ps[1..][i] == ps[i + 1];
    }
  }

  lemma PrintStart(ps: seq<string>)
    requires Canonical(ps)
    ensures Print(ps) == "" || Print(ps)[0] == '.' || Print(ps)[0] == '['
  {
  }

  /** Splitting undoes printing on every canonical list. */
  lemma {:induction false} SplitPrint(ps: seq<string>)
    requires Canonical(ps)
    ensures Split(Print(ps)) == ps
    decreases |ps|
  {
    if ps == [] {
    } else {
      hide Split;
      var p, rest := ps[0], Print(ps[1..]);
      CanonicalTail(ps);
      SplitPrint(ps[1..]);
      PrintStart(ps[1..]);
      assert ps == [p] + ps[1..];
      if IsName(p) {
        SplitDot(p + rest);
        Assoc(".", p, rest);
        SplitName(p, rest);
      } else if IsGroup(p) {
        SplitGroup(p, rest);
      } else {
        assert ps[1..] == [] && p + "" == p;
        SplitOpenGroup(p);
      }
    }
  }

  /** A list of parts is the split of some path text exactly when it is canonical. */
  lemma SplitImage(ps: seq<string>)
    ensures (exists s: string :: Split(s) == ps) <==> Canonical(ps)
  {
    if Canonical(ps) {
      SplitPrint(ps);
    }
    forall s: string | Split(s) == ps
      ensures Canonical(ps)
    {
      SplitIsCanonical(s);
    }
  }

  /** The text with the dots outside brackets removed. */
  function Undotted(s: string, inBrackets: bool): (r: string) {
    if s == "" then ""
    else if inBrackets then [s[0]] + Undotted(s[1..], s[0] != ']')
    else if s[0] == '.' then Undotted(s[1..], false)
    else [s[0]] + Undotted(s[1..], s[0] == '[')
  }

  function Flatten(ps: seq<string>): (r: string) {
    if ps == [] then "" else ps[0] + Flatten(ps[1..])
  }

  lemma {:induction false} UndottedInside(body: string, rest: string)
    requires ']' !in body
    ensures Undotted(body + rest, true) == body + Undotted(rest, true)
  {
    if body == "" {
      assert body + rest == rest;
    } else {
      assert (body + rest)[1..] == body[1..] + rest;
      UndottedInside(body[1..], rest);
      assert body == [body[0]] + body[1..];
      Assoc([body[0]], body[1..], Undotted(rest, true));
    }
  }

  lemma {:induction false} UndottedName(s: string, k: nat)
    requires k <= |s| && '.' !in s[..k] && '[' !in s[..k]
    ensures Undotted(s, false) == s[..k] + Undotted(s[k..], false)
    decreases k
  {
    if k == 0 {
      assert s[0..] == s;
    } else {
      assert s[0] == s[..k][0];
      assert s[1..][..k - 1] == s[..k][1..];
      UndottedName(s[1..], k - 1);
      assert s[1..][k - 1..] == s[k..];
      assert s[..k] == [s[0]] + s[1..][..k - 1];
    }
  }

  lemma UndottedBrackets(rest: string)
    ensures Undotted("[" + rest, false) == "[" + Undotted(rest, true)
    ensures Undotted("]" + rest, true) == "]" + Undotted(rest, false)
  {
    assert ("[" + rest)[1..] == rest && ("]" + rest)[1..] == rest;
  }

  lemma ConservesGroup(body: string, rest: string)
    requires ']' !in body
    ensures Undotted("[" + (body + ("]" + rest)), false) == ("[" + body + "]") + Undotted(rest, false)
  {
    hide Undotted;
    UndottedBrackets(body + ("]" + rest));
    UndottedInside(body, "]" + rest);
    UndottedBrackets(rest);
    Assoc(body, "]", Undotted(rest, false));
    Assoc("[", body + "]", Undotted(rest, false));
    Assoc("[", body, "]");
  }

  lemma ConservesOpenGroup(body: string)
    requires ']' !in body
    ensures Undotted("[" + body, false) == "[" + body
  {
    UndottedBrackets(body);
    UndottedInside(body, "");
    assert body + "" == body;
  }

  lemma ConservesBracketed(s: string, k: nat)
    requires s != "" && s[0] == '[' && 1 <= k < |s| && s[k] == ']'
    requires forall i :: 0 <= i < k ==> s[i] != ']'
    ensures Undotted(s, false) == s[..k + 1] + Undotted(s[k + 1..], false)
  {
    hide Undotted;
    var body, rest := s[1..k], s[k + 1..];
    assert ']' !in body;
    ConservesGroup(body, rest);
    assert "[" + (body + ("]" + rest)) == s by { Reassemble(s, k); }
    assert "[" + body + "]" == s[..k + 1];
  }

  lemma Reassemble(s: string, k: nat)
    requires s != "" && s[0] == '[' && 1 <= k < |s| && s[k] == ']'
    ensures "[" + (s[1..k] + ("]" + s[k + 1..])) == s
  {
  }

  /** Splitting loses nothing but the dots outside brackets, for every text. */
  lemma {:induction false} SplitConserves(s: string)
    ensures Flatten(Split(s)) == Undotted(s, false)
    decreases |s|
  {
    if s == "" {
    } else if s[0] == '.' {
      SplitConserves(s[1..]);
    } else if s[0] == '[' {
      var k := FirstOf(s, {']'});
      if k < |s| {
        ConservesBracketed(s, k);
        SplitConserves(s[k + 1..]);
      } else {
        assert "[" + s[1..] == s;
        ConservesOpenGroup(s[1..]);
        assert Flatten([s]) == s + Flatten([]);
      }
    } else {
      var k := FirstOf(s, {'.', '['});
      UndottedName(s, k);
      SplitConserves(s[k..]);
    }
  }

  /* ---------- decimal indexes ---------- */

  const MAX_INT: int := 0x7FFF_FFFF_FFFF_FFFF

  predicate IsDigit(c: char) { '0' <= c <= '9' }

  predicate AllDigits(s: string) { forall i :: 0 <= i < |s| ==> IsDigit(s[i]) }

  /** Value of a run of decimal digits, most significant first. */
  function DigitsValue(s: string): (n: nat)
    requires AllDigits(s)
  {
    if s == "" then 0
    else 10 * DigitsValue(s[..|s| - 1]) + (s[|s| - 1] as int - '0' as int)
  }

  /** strconv.Atoi: an optional sign, then decimal digits, within 64-bit range. */
  function Atoi(s: string): (r: Option<int>) {
    var signed := s != "" && (s[0] == '-' || s[0] == '+');
    var digits := if signed then s[1..] else s;
    if digits == "" || !AllDigits(digits) then None
    else
      var n: int := if signed && s[0] == '-' then 0 - DigitsValue(digits) else DigitsValue(digits);
      if -MAX_INT - 1 <= n <= MAX_INT then Some(n) else None
  }

  function Decimal(n: nat): (s: string)
    ensures s != "" && AllDigits(s)
  {
    if n < 10 then [('0' as int + n) as char]
    else Decimal(n / 10) + [('0' as int + n % 10) as char]
  }

  lemma {:induction false} DecimalValue(n: nat)
    ensures DigitsValue(Decimal(n)) == n
  {
    if n < 10 {
      assert Decimal(n)[..0] == "";
    } else {
      DecimalValue(n / 10);
      var s := Decimal(n);
      assert s[..|s| - 1] == Decimal(n / 10);
    }
  }

  /** Reading a printed index gives the index, for every non-negative 64-bit value. */
  lemma AtoiDecimal(n: nat)
    requires n <= MAX_INT
    ensures Atoi(Decimal(n)) == Some(n)
  {
    DecimalValue(n);
    assert IsDigit(Decimal(n)[0]);
  }

  lemma DecimalUnsigned(n: nat)
    ensures Decimal(n)[0] != '-' && Decimal(n)[0] != '+'
  {
    assert IsDigit(Decimal(n)[0]);
  }

  /** Signs and range: a sign in front is read as one, and numbers beyond 64 bits are refused. */
  lemma AtoiSigned(n: nat)
    ensures Atoi(Decimal(n)) == if n <= MAX_INT then Some(n) else None
    ensures Atoi("+" + Decimal(n)) == if n <= MAX_INT then Some(n) else None
    ensures Atoi("-" + Decimal(n)) == if n <= MAX_INT + 1 then Some(0 - n as int) else None
  {
    DecimalValue(n);
    DecimalUnsigned(n);
    assert ("+" + Decimal(n))[1..] == Decimal(n) && ("-" + Decimal(n))[1..] == Decimal(n);
  }

  /** Only digits behind an optional sign are a number. */
  lemma AtoiOnlyDigits(s: string)
    ensures Atoi(s).Some? ==> s != "" && (AllDigits(s) || (|s| > 1 && (s[0] == '-' || s[0] == '+') && AllDigits(s[1..])))
  {
  }

  /** isArrayIndexPart: the part starts with '[' and ends with ']'. */
  predicate IsIndexPart(p: string) {
    p != "" && p[0] == '[' && p[|p| - 1] == ']'
  }

  /** The number written between the brackets of an index part. */
  function IndexOf(p: string): (r: Option<int>)
    requires IsIndexPart(p)
  {
    assert |p| >= 2;
    Atoi(p[1..|p| - 1])
  }

  /* ---------- written paths ---------- */

  /** TrimPrefix of "$" and then of an optional ".". */
  function PathParts(path: string): (ps: seq<string>)
    requires path != "" && path[0] == '$'
  {
    var rest := path[1..];
    Split(if rest != "" && rest[0] == '.' then rest[1..] else rest)
  }

  /** A step of a path written by hand: a field name or an array index. */
  datatype Step = Name(name: string) | Index(index: nat)

  predicate WellFormed(steps: seq<Step>) {
    forall i :: 0 <= i < |steps| ==>
      match steps[i] case Name(n) => IsName(n) case Index(k) => k <= MAX_INT
  }

  function PartOf(step: Step): (p: string) {
    match step case Name(n) => n case Index(k) => "[" + Decimal(k) + "]"
  }

  function PartsOf(steps: seq<Step>): (ps: seq<string>)
    ensures |ps| == |steps|
    ensures forall i :: 0 <= i < |steps| ==> ps[i] == PartOf(steps[i])
  {
    seq(|steps|, i requires 0 <= i < |steps| => PartOf(steps[i]))
  }

  lemma IndexPartShape(k: nat)
    ensures IsGroup(PartOf(Index(k))) && IsIndexPart(PartOf(Index(k)))
    ensures k <= MAX_INT ==> IndexOf(PartOf(Index(k))) == Some(k)
  {
    var d := Decimal(k);
    var p := PartOf(Index(k));
    assert p[..|p| - 1] == "[" + d;
    assert forall i :: 0 <= i < |d| ==> d[i] != ']' by {
      forall i | 0 <= i < |d| ensures d[i] != ']' { assert IsDigit(d[i]); }
    }
    assert p[1..|p| - 1] == d;
    if k <= MAX_INT { AtoiDecimal(k); }
  }

  /** The text of a path: the root marker, then its steps. */
  function Written(steps: seq<Step>): (path: string)
    ensures path != "" && path[0] == '$'
  {
    "$" + Print(PartsOf(steps))
  }

  lemma PrintedParts(ps: seq<string>)
    ensures PathParts("$" + Print(ps)) == Split(Print(ps))
  {
    hide Split;
    var text := Print(ps);
    assert ("$" + text)[1..] == text;
    if text != "" && text[0] == '.' {
      assert text == "." + text[1..];
      SplitDot(text[1..]);
    }
  }

  /** Round trip for written paths: printing field names and indexes behind the root marker,
      parsing the text as the engine does and reading each part gives the same steps back. */
  lemma PathRoundTrip(steps: seq<Step>)
    requires WellFormed(steps)
    ensures PathParts(Written(steps)) == PartsOf(steps)
    ensures forall i :: 0 <= i < |steps| ==>
      match steps[i]
      case Name(n) => PartsOf(steps)[i] == n && !IsIndexPart(n)
      case Index(k) => IsIndexPart(PartsOf(steps)[i]) && IndexOf(PartsOf(steps)[i]) == Some(k)
  {
    var ps := PartsOf(steps);
    forall i | 0 <= i < |steps|
      ensures IsName(ps[i]) || IsGroup(ps[i])
      ensures match steps[i]
              case Name(n) => ps[i] == n && !IsIndexPart(n)
              case Index(k) => IsIndexPart(ps[i]) && IndexOf(ps[i]) == Some(k)
    {
      match steps[i]
      case Name(n) => assert n[0] in n;
      case Index(k) => IndexPartShape(k);
    }
    assert Canonical(ps);
    SplitPrint(ps);
    PrintedParts(ps);
  }
}
