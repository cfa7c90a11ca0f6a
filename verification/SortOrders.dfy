/**
 The sort order of a quad table, its textual form, and the directory named after it.
 */
module SortOrders {
  import opened Basics
  import opened Quads

  datatype RdfSortOrder = SparqlOrder(components: seq<Component>) | NativeOrder(components: seq<Component>)

  datatype SortOrderError = EmptyComponents | UnknownComponent(c: char) | Duplicated(components: seq<Component>)

  const ALL_COMPONENTS: seq<Component> := [GraphComponent, Subject, Predicate, Object]

  function Letter(c: Component): char {
    match c
    case GraphComponent => 'G'
    case Subject => 'S'
    case Predicate => 'P'
    case Object => 'O'
  }

  function Lower(c: char): char {
    if 'A' <= c <= 'Z' then ((c as int) + 32) as char else c
  }

  function Upper(c: char): char {
    if 'a' <= c <= 'z' then ((c as int) - 32) as char else c
  }

  function FromChar(c: char): Option<Component> {
    match Upper(c)
    case 'G' => Some(GraphComponent)
    case 'S' => Some(Subject)
    case 'P' => Some(Predicate)
    case 'O' => Some(Object)
    case _ => None
  }

  function Letters(components: seq<Component>): (r: string)
    ensures |r| == |components|
  {
    seq(|components|, i requires 0 <= i < |components| => Letter(components[i]))
  }

  function Show(o: RdfSortOrder): string {
    match o
    case SparqlOrder(c) => Letters(c)
    case NativeOrder(c) => "Native(" + Letters(c) + ")"
  }

  function Uppercase(s: string): string {
    seq(|s|, i requires 0 <= i < |s| => Upper(s[i]))
  }

  predicate IsSpace(c: char) {
    c == ' ' || '\t' <= c <= '\r'
  }

  function TrimStart(s: string): string {
    if s != [] && IsSpace(s[0]) then TrimStart(s[1..]) else s
  }

  function Trim(s: string): string {
    if s != [] && IsSpace(s[|s| - 1]) then Trim(s[..|s| - 1]) else TrimStart(s)
  }

  /** The first character that names no component, if any. */
  function FirstUnknown(s: string): (r: Option<char>)
    ensures r.None? <==> forall i :: 0 <= i < |s| ==> FromChar(s[i]).Some?
    ensures r.Some? ==> exists i :: 0 <= i < |s| && s[i] == r.value && FromChar(s[i]).None?
                                    && forall j :: 0 <= j < i ==> FromChar(s[j]).Some?
  {
    if s == [] then None
    else if FromChar(s[0]).None? then Some(s[0])
    else
      var r := FirstUnknown(s[1..]);
      assert s == [s[0]] + s[1..];
      assert r.Some? ==> exists i :: 0 <= i < |s| && s[i] == r.value && FromChar(s[i]).None?
                                     && forall j :: 0 <= j < i ==> FromChar(s[j]).Some? by {
        if r.Some? {
          var i :| 0 <= i < |s[1..]| && s[1..][i] == r.value && FromChar(s[1..][i]).None?
                   && forall j :: 0 <= j < i ==> FromChar(s[1..][j]).Some?;
          assert s[i + 1] == r.value;
          assert forall j :: 0 <= j < i + 1 ==> FromChar(s[j]).Some? by {
            forall j | 0 <= j < i + 1 ensures FromChar(s[j]).Some? {
              if j > 0 { assert s[j] == s[1..][j - 1]; }
            }
          }
        }
      }
      r
  }

  function Named(s: string): (r: seq<Component>)
    requires FirstUnknown(s).None?
    ensures |r| == |s|
  {
    seq(|s|, i requires 0 <= i < |s| => FromChar(s[i]).value)
  }

  function ParsedComponents(s: string): Result<seq<Component>, SortOrderError> {
    if FirstUnknown(s).Some? then Err(UnknownComponent(FirstUnknown(s).value))
    else if s == [] then Err(EmptyComponents)
    else Ok(Named(s))
  }

  /** The components that occur more than once, in their own order. */
  function Duplicates(components: seq<Component>): seq<Component> {
    Filter(c => multiset(components)[c] > 1, ALL_COMPONENTS)
  }

  function Validated(o: RdfSortOrder): Result<RdfSortOrder, SortOrderError> {
    if Duplicates(o.components) == [] then Ok(o) else Err(Duplicated(Duplicates(o.components)))
  }

  predicate IsNativeForm(upper: string) {
    "NATIVE(" <= upper && upper[|upper| - 1] == ')'
  }

  /** What stands between the parentheses of a native form, or the whole text. */
  function Inner(s: string): string {
    var upper := Uppercase(Trim(s));
    if IsNativeForm(upper) && |upper| > 7 then upper[7..|upper| - 1] else s
  }

  function OrderFrom(native: bool, components: seq<Component>): RdfSortOrder {
    if native then NativeOrder(components) else SparqlOrder(components)
  }

  function ParseInner(native: bool, inner: string): Result<RdfSortOrder, SortOrderError> {
    match ParsedComponents(inner)
    case Ok(c) => Validated(OrderFrom(native, c))
    case Err(e) => Err(e)
  }

  function Parse(s: string): Result<RdfSortOrder, SortOrderError> {
    ParseInner(IsNativeForm(Uppercase(Trim(s))), Inner(s))
  }

  // ----- The parser

  method ParseComponents(inner: string) returns (r: Result<seq<Component>, SortOrderError>)
    ensures r == ParsedComponents(inner)
  {
    var components := [];
    for i := 0 to |inner|
      invariant |components| == i
      invariant forall j :: 0 <= j < i ==> FromChar(inner[j]) == Some(components[j])
    {
      var c := FromChar(inner[i]);
      if c.None? {
        FirstUnknownAt(inner, i);
        return Err(UnknownComponent(inner[i]));
      }
      components := components + [c.value];
    }
    if components == [] {
      return Err(EmptyComponents);
    }
    assert components == Named(inner);
    return Ok(components);
  }

  lemma {:induction false} FirstUnknownAt(s: string, i: nat)
    requires i < |s| && FromChar(s[i]).None? && forall j :: 0 <= j < i ==> FromChar(s[j]).Some?
    ensures FirstUnknown(s) == Some(s[i])
  {
    if i > 0 {
      FirstUnknownAt(s[1..], i - 1);
    }
  }

  method Validate(o: RdfSortOrder) returns (r: Result<RdfSortOrder, SortOrderError>)
    ensures r == Validated(o)
    ensures r.Ok? <==> Distinct(o.components)
  {
    var components := o.components;
    var seen: set<Component>, duplicates: set<Component> := {}, {};
    for i := 0 to |components|
      invariant forall c: Component :: c in seen <==> multiset(components[..i])[c] > 0
      invariant forall c: Component :: c in duplicates <==> multiset(components[..i])[c] > 1
    {
      assert components[..i + 1] == components[..i] + [components[i]];
      if components[i] in seen {
        duplicates := duplicates + {components[i]};
      }
      seen := seen + {components[i]};
    }
    assert components[..|components|] == components;
    DuplicatesIff(components);
    if duplicates != {} {
      return Err(Duplicated(InOrder(duplicates, components)));
    }
    return Ok(o);
  }

  /** The set in the order of the components. */
  function InOrder(duplicates: set<Component>, ghost components: seq<Component>): (r: seq<Component>)
    requires forall c: Component :: c in duplicates <==> multiset(components)[c] > 1
    ensures r == Duplicates(components)
  {
    FilterAgree(c => c in duplicates, c => multiset(components)[c] > 1, ALL_COMPONENTS);
    Filter(c => c in duplicates, ALL_COMPONENTS)
  }

  lemma AllComponentsListed(c: Component)
    ensures c in ALL_COMPONENTS
  {
    match c {
      case GraphComponent => assert ALL_COMPONENTS[0] == c;
      case Subject => assert ALL_COMPONENTS[1] == c;
      case Predicate => assert ALL_COMPONENTS[2] == c;
      case Object => assert ALL_COMPONENTS[3] == c;
    }
  }

  lemma DuplicatesIff(components: seq<Component>)
    ensures forall c: Component :: c in Duplicates(components) <==> multiset(components)[c] > 1
    ensures Duplicates(components) == [] <==> Distinct(components)
  {
    forall c: Component ensures c in Duplicates(components) <==> multiset(components)[c] > 1 {
      AllComponentsListed(c);
    }
    DistinctIffCount(components);
    if Duplicates(components) != [] {
      assert Duplicates(components)[0] in Duplicates(components);
    }
  }

  method FromStr(s: string) returns (r: Result<RdfSortOrder, SortOrderError>)
    ensures r == Parse(s)
  {
    var native := IsNativeForm(Uppercase(Trim(s)));
    var c := ParseComponents(Inner(s));
    if c.Err? {
      return Err(c.error);
    }
    r := Validate(OrderFrom(native, c.value));
  }

  // ----- Printing and parsing

  ghost predicate IsValidOrder(o: RdfSortOrder) {
    o.components != [] && Distinct(o.components)
  }

  lemma LettersParse(components: seq<Component>)
    ensures FirstUnknown(Letters(components)).None? && Named(Letters(components)) == components
    ensures Uppercase(Letters(components)) == Letters(components)
  {
    forall i | 0 <= i < |components| ensures FromChar(Letters(components)[i]) == Some(components[i]) {
    }
  }

  lemma TrimSolid(s: string)
    requires s != [] ==> !IsSpace(s[0]) && !IsSpace(s[|s| - 1])
    ensures Trim(s) == s
  {
  }

  lemma UppercaseConcat(a: string, b: string)
    ensures Uppercase(a + b) == Uppercase(a) + Uppercase(b)
  {
  }

  lemma NativeFormOf(components: seq<Component>)
    ensures IsNativeForm(Uppercase(Trim(Show(NativeOrder(components)))))
    ensures Inner(Show(NativeOrder(components))) == Letters(components)
  {
    var letters, shown := Letters(components), Show(NativeOrder(components));
    assert shown[0] == 'N' && shown[|shown| - 1] == ')';
    TrimSolid(shown);
    UppercaseConcat("Native(" + letters, ")");
    UppercaseConcat("Native(", letters);
    LettersParse(components);
    assert Uppercase("Native(") == "NATIVE(";
    assert Uppercase(")") == ")";
    var upper := Uppercase(shown);
    assert upper == "NATIVE(" + letters + ")";
    assert upper[7..|upper| - 1] == letters;
  }

  lemma SparqlFormOf(components: seq<Component>)
    ensures !IsNativeForm(Uppercase(Trim(Show(SparqlOrder(components)))))
    ensures Inner(Show(SparqlOrder(components))) == Letters(components)
  {
    var shown := Letters(components);
    if components != [] {
      assert shown[0] == Letter(components[0]);
      assert shown[|shown| - 1] == Letter(components[|components| - 1]);
    }
    TrimSolid(shown);
    LettersParse(components);
    assert "NATIVE("[0] == 'N';
  }

  lemma ParseLetters(native: bool, components: seq<Component>)
    ensures var o := OrderFrom(native, components);
            if IsValidOrder(o) then ParseInner(native, Letters(components)) == Ok(o)
            else ParseInner(native, Letters(components)).Err?
  {
    LettersParse(components);
    DuplicatesIff(components);
  }

  /** What is printed is parsed back exactly if the order has components and repeats none. */
  lemma ShowParseIff(o: RdfSortOrder)
    ensures Parse(Show(o)) == Ok(o) <==> IsValidOrder(o)
    ensures Parse(Show(o)).Err? <==> !IsValidOrder(o)
  {
    ParseLetters(o.NativeOrder?, o.components);
    if o.NativeOrder? {
      NativeFormOf(o.components);
    } else {
      SparqlFormOf(o.components);
    }
  }

  lemma ParsedComponentsIsValid(native: bool, inner: string)
    requires ParseInner(native, inner).Ok?
    ensures IsValidOrder(ParseInner(native, inner).value)
  {
    DuplicatesIff(ParsedComponents(inner).value);
  }

  /** Only valid orders are parsed. */
  lemma ParsedIsValid(s: string)
    requires Parse(s).Ok?
    ensures IsValidOrder(Parse(s).value)
  {
    ParsedComponentsIsValid(IsNativeForm(Uppercase(Trim(s))), Inner(s));
  }

  // ----- Directories

  function DirectoryLetters(components: seq<Component>): string {
    seq(|components|, i requires 0 <= i < |components| => Lower(Letter(components[i])))
  }

  function DirectoryFor(order: Option<RdfSortOrder>): string {
    match order
    case None => "quads/"
    case Some(NativeOrder(c)) => DirectoryLetters(c) + "/"
    case Some(SparqlOrder(c)) => "sparql-" + DirectoryLetters(c) + "/"
  }

  lemma DirectoryLettersDiffer(a: seq<Component>, b: seq<Component>)
    requires a != b
    ensures DirectoryLetters(a) != DirectoryLetters(b)
  {
    if |a| == |b| {
      var i :| 0 <= i < |a| && a[i] != b[i];
      assert DirectoryLetters(a)[i] != DirectoryLetters(b)[i];
    } else {
      assert |DirectoryLetters(a)| != |DirectoryLetters(b)|;
    }
  }

  lemma DifferInside(prefix: string, a: string, b: string)
    requires a != b
    ensures prefix + a + "/" != prefix + b + "/"
  {
    if |a| == |b| {
      var i :| 0 <= i < |a| && a[i] != b[i];
      assert (prefix + a + "/")[|prefix| + i] != (prefix + b + "/")[|prefix| + i];
    } else {
      assert |prefix + a + "/"| != |prefix + b + "/"|;
    }
  }

  /** No component letter is a `q` or an `a`. */
  lemma NativeIsNotOther(c: seq<Component>, order: Option<RdfSortOrder>)
    requires order.None? || order.value.SparqlOrder?
    ensures DirectoryFor(Some(NativeOrder(c))) != DirectoryFor(order)
  {
    var mine, other := DirectoryFor(Some(NativeOrder(c))), DirectoryFor(order);
    if |mine| == |other| {
      var i := if order.None? then 0 else 2;
      assert other[i] == if order.None? then 'q' else 'a';
      assert mine[i] == Lower(Letter(c[i]));
    }
  }

  /** The names that the documentation of the dataset format uses. */
  lemma DirectoryNames()
    ensures DirectoryFor(None) == "quads/"
    ensures DirectoryFor(Some(NativeOrder([GraphComponent, Predicate, Object, Subject]))) == "gpos/"
    ensures DirectoryFor(Some(SparqlOrder([Subject, Predicate, Object]))) == "sparql-spo/"
    ensures Show(NativeOrder([GraphComponent, Predicate, Object, Subject])) == "Native(GPOS)"
  {
    assert DirectoryLetters([GraphComponent, Predicate, Object, Subject]) == "gpos";
    assert DirectoryLetters([Subject, Predicate, Object]) == "spo";
    assert Letters([GraphComponent, Predicate, Object, Subject]) == "GPOS";
  }

  /** Different sort orders have different directories. */
  lemma DirectoriesDiffer(a: Option<RdfSortOrder>, b: Option<RdfSortOrder>)
    requires a != b
    ensures DirectoryFor(a) != DirectoryFor(b)
  {
    match (a, b) {
      case (Some(NativeOrder(x)), Some(NativeOrder(y))) =>
        DirectoryLettersDiffer(x, y);
        DifferInside("", DirectoryLetters(x), DirectoryLetters(y));
        assert "" + DirectoryLetters(x) == DirectoryLetters(x) && "" + DirectoryLetters(y) == DirectoryLetters(y);
      case (Some(SparqlOrder(x)), Some(SparqlOrder(y))) =>
        DirectoryLettersDiffer(x, y);
        DifferInside("sparql-", DirectoryLetters(x), DirectoryLetters(y));
      case (Some(NativeOrder(x)), _) => NativeIsNotOther(x, b);
      case (_, Some(NativeOrder(y))) => NativeIsNotOther(y, a);
      case (None, Some(SparqlOrder(y))) => assert DirectoryFor(a)[0] != DirectoryFor(b)[0];
      case (Some(SparqlOrder(x)), None) => assert DirectoryFor(a)[0] != DirectoryFor(b)[0];
    }
  }
}
