/**
 Switching a planned scan to another quad table when a hash join has completed its dynamic
 filter: finding the values the filter allows for a column, finding a table that can look
 them up, and executing the partitions of either scan.
 */
module Switch {
  import opened Basics
  import opened Quads
  import opened Sorting
  import opened OperationLog
  import opened StoreProtocol
  import DeltaLog
  import ScanPlan

  // ----- Dynamic filters

  datatype Truth = True | False | Unknown

  datatype Operand = ColumnRef(c: Component) | Computed(id: nat)

  datatype Item = Constant(value: Option<Term>) | NotConstant(id: nat)

  /**
   The physical expressions the search looks into. A `Case` has the branches `thens` and
   possibly an ELSE branch, and chooses one in any way. Other expressions are opaque.
   */
  datatype PhysicalExpr =
    | Conj(left: PhysicalExpr, right: PhysicalExpr)
    | InList(operand: Operand, list: seq<Item>, negated: bool)
    | Case(choice: nat, thens: seq<PhysicalExpr>, otherwise: Option<PhysicalExpr>)
    | BoolLiteral(value: Option<bool>)
    | Opaque(id: nat)

  /** What the parts of a filter that the search does not look into mean. */
  datatype Meaning = Meaning(operand: (nat, Quad) -> Option<Term>, branch: (nat, Quad) -> nat,
                             truth: (nat, Quad) -> Truth)

  function OperandValue(o: Operand, m: Meaning, row: Quad): Option<Term> {
    match o
    case ColumnRef(c) => Column(row, c)
    case Computed(id) => (m.operand)(id, row)
  }

  function ItemValue(item: Item, m: Meaning, row: Quad): Option<Term> {
    match item
    case Constant(v) => v
    case NotConstant(id) => (m.operand)(id, row)
  }

  function Eval(e: PhysicalExpr, m: Meaning, row: Quad): Truth {
    match e
    case Conj(l, r) =>
      var x, y := Eval(l, m, row), Eval(r, m, row);
      if x.False? || y.False? then False else if x.True? && y.True? then True else Unknown
    case InList(o, list, negated) =>
      var v := OperandValue(o, m, row);
      if v.None? then Unknown
      else if exists i :: 0 <= i < |list| && ItemValue(list[i], m, row) == v then (if negated then False else True)
      else if exists i :: 0 <= i < |list| && ItemValue(list[i], m, row).None? then Unknown
      else if negated then True else False
    case Case(id, thens, otherwise) =>
      var b := (m.branch)(id, row);
      if b < |thens| then Eval(thens[b], m, row)
      else if otherwise.Some? then Eval(otherwise.value, m, row)
      else Unknown
    case BoolLiteral(v) => if v.None? then Unknown else if v.value then True else False
    case Opaque(id) => (m.truth)(id, row)
  }

  // ----- The IN lists a filter requires

  datatype Condition = Condition(column: Component, values: seq<Term>)

  predicate Satisfies(row: Quad, c: Condition) {
    Column(row, c.column).Some? && Column(row, c.column).value in c.values
  }

  predicate IsFalse(e: PhysicalExpr) {
    e == BoolLiteral(Some(false))
  }

  function NonNull(list: seq<Item>): seq<Term>
    requires forall i :: 0 <= i < |list| ==> list[i].Constant?
  {
    if list == [] then []
    else (if list[0].value.Some? then [list[0].value.value] else []) + NonNull(list[1..])
  }

  function Dedup(values: seq<Term>): (r: seq<Term>)
    ensures forall v :: v in r <==> v in values
    ensures Distinct(r)
  {
    if values == [] then []
    else
      var rest := Dedup(values[..|values| - 1]);
      var last := values[|values| - 1];
      assert values == values[..|values| - 1] + [last];
      if last in rest then rest else rest + [last]
  }

  function FindColumn(conditions: seq<Condition>, column: Component): (r: Option<Condition>)
    ensures r.Some? ==> r.value in conditions && r.value.column == column
    ensures r.None? ==> forall c | c in conditions :: c.column != column
  {
    if conditions == [] then None
    else if conditions[0].column == column then Some(conditions[0])
    else FindColumn(conditions[1..], column)
  }

  /** The values of one column in all branches, if every branch restricts it. */
  function Gather(column: Component, branches: seq<seq<Condition>>): Option<seq<Term>> {
    if branches == [] then Some([])
    else
      var found := FindColumn(branches[0], column);
      var rest := Gather(column, branches[1..]);
      if found.None? || rest.None? then None else Some(found.value.values + rest.value)
  }

  /** A condition with the values of all branches, if every branch restricts its column. */
  function Widened(c: Condition, rest: seq<seq<Condition>>): seq<Condition> {
    var others := Gather(c.column, rest);
    if others.None? then [] else [Condition(c.column, Dedup(c.values + others.value))]
  }

  /** The conditions of the first branch, widened by the other branches. */
  function Union(first: seq<Condition>, rest: seq<seq<Condition>>): seq<Condition> {
    if first == [] then [] else Widened(first[0], rest) + Union(first[1..], rest)
  }

  function InListConditions(e: PhysicalExpr): seq<Condition>
    decreases e, 0
  {
    match e
    case Conj(l, r) => InListConditions(l) + InListConditions(r)
    case InList(o, list, negated) =>
      if !negated && o.ColumnRef? && forall i :: 0 <= i < |list| ==> list[i].Constant?
      then [Condition(o.c, NonNull(list))]
      else []
    case Case(_, thens, otherwise) =>
      var branches := CaseConditions(e, |thens|)
                      + if otherwise.Some? && !IsFalse(otherwise.value) then [InListConditions(otherwise.value)]
                        else [];
      if branches == [] then [] else Union(branches[0], branches[1..])
    case _ => []
  }

  /** The conditions of the first `n` branches that are not constantly false. */
  function CaseConditions(e: PhysicalExpr, n: nat): seq<seq<Condition>>
    requires e.Case? && n <= |e.thens|
    decreases e, 0, n
  {
    if n == 0 then []
    else CaseConditions(e, n - 1) + if IsFalse(e.thens[n - 1]) then [] else [InListConditions(e.thens[n - 1])]
  }

  lemma {:induction false} NonNullMembers(list: seq<Item>, v: Term)
    requires forall i :: 0 <= i < |list| ==> list[i].Constant?
    ensures v in NonNull(list) <==> Constant(Some(v)) in list
  {
    if list != [] {
      NonNullMembers(list[1..], v);
      assert list == [list[0]] + list[1..];
    }
  }

  /** A row that satisfies some branch's conditions satisfies every gathered one. */
  lemma {:induction false} GatherSound(column: Component, branches: seq<seq<Condition>>, j: nat, row: Quad)
    requires j < |branches| && Gather(column, branches).Some?
    requires forall c | c in branches[j] :: Satisfies(row, c)
    ensures Satisfies(row, Condition(column, Gather(column, branches).value))
  {
    if j > 0 {
      GatherSound(column, branches[1..], j - 1, row);
    }
  }

  lemma {:induction false} UnionSound(first: seq<Condition>, rest: seq<seq<Condition>>, j: nat, row: Quad)
    requires j <= |rest|
    requires forall c | c in (if j == 0 then first else rest[j - 1]) :: Satisfies(row, c)
    ensures forall c | c in Union(first, rest) :: Satisfies(row, c)
  {
    if first != [] {
      if j == 0 {
        assert forall c | c in first[1..] :: Satisfies(row, c);
      }
      UnionSound(first[1..], rest, j, row);
      var others := Gather(first[0].column, rest);
      if others.Some? {
        if j == 0 {
          assert Satisfies(row, first[0]);
        } else {
          GatherSound(first[0].column, rest, j - 1, row);
        }
      }
    }
  }

  lemma {:induction false} CaseConditionsMember(e: PhysicalExpr, n: nat, b: nat)
    requires e.Case? && b < n <= |e.thens| && !IsFalse(e.thens[b])
    ensures InListConditions(e.thens[b]) in CaseConditions(e, n)
  {
    var before := CaseConditions(e, n - 1);
    var here := if IsFalse(e.thens[n - 1]) then [] else [InListConditions(e.thens[n - 1])];
    var all := before + here;
    assert CaseConditions(e, n) == all;
    if b < n - 1 {
      CaseConditionsMember(e, n - 1, b);
      var k :| 0 <= k < |before| && before[k] == InListConditions(e.thens[b]);
      assert all[k] == before[k];
    } else {
      assert all[|before|] == InListConditions(e.thens[b]);
    }
  }

  function CaseBranches(e: PhysicalExpr): seq<seq<Condition>>
    requires e.Case?
  {
    CaseConditions(e, |e.thens|)
    + if e.otherwise.Some? && !IsFalse(e.otherwise.value) then [InListConditions(e.otherwise.value)] else []
  }

  lemma CaseUnion(e: PhysicalExpr, chosen: seq<Condition>, row: Quad)
    requires e.Case? && chosen in CaseBranches(e)
    requires forall c | c in chosen :: Satisfies(row, c)
    ensures forall c | c in InListConditions(e) :: Satisfies(row, c)
  {
    var branches := CaseBranches(e);
    var j :| 0 <= j < |branches| && branches[j] == chosen;
    assert j > 0 ==> branches[1..][j - 1] == chosen;
    UnionSound(branches[0], branches[1..], j, row);
  }

  /** Every row that matches the filter satisfies every condition found. */
  lemma {:induction false} ConditionsNecessary(e: PhysicalExpr, m: Meaning, row: Quad)
    requires Eval(e, m, row).True?
    ensures forall c | c in InListConditions(e) :: Satisfies(row, c)
  {
    match e
    case Conj(l, r) =>
      ConditionsNecessary(l, m, row);
      ConditionsNecessary(r, m, row);
    case InList(o, list, negated) =>
      if !negated && o.ColumnRef? && forall i :: 0 <= i < |list| ==> list[i].Constant? {
        var v := Column(row, o.c);
        var i :| 0 <= i < |list| && ItemValue(list[i], m, row) == v;
        assert list[i] == Constant(Some(v.value));
        NonNullMembers(list, v.value);
      }
    case Case(id, thens, otherwise) =>
      var b := (m.branch)(id, row);
      if b < |thens| {
        ConditionsNecessary(thens[b], m, row);
        CaseConditionsMember(e, |thens|, b);
        CaseUnion(e, InListConditions(thens[b]), row);
      } else {
        ConditionsNecessary(otherwise.value, m, row);
        CaseUnion(e, InListConditions(otherwise.value), row);
      }
    case _ =>
  }

  /** Every matching row has one of a list of constants in the column, whichever branch it takes. */
  predicate Restricts(e: PhysicalExpr, column: Component)
    decreases e, 1
  {
    match e
    case Conj(l, r) => Restricts(l, column) || Restricts(r, column)
    case InList(o, list, negated) =>
      !negated && o == ColumnRef(column) && forall i :: 0 <= i < |list| ==> list[i].Constant?
    case Case(_, thens, otherwise) =>
      && CaseRestricts(e, |thens|, column)
      && (otherwise.Some? ==> IsFalse(otherwise.value) || Restricts(otherwise.value, column))
      && ((exists i :: 0 <= i < |thens| && !IsFalse(thens[i])) || (otherwise.Some? && !IsFalse(otherwise.value)))
    case _ => false
  }

  /** Each of the first `n` branches is constantly false or restricts the column. */
  predicate CaseRestricts(e: PhysicalExpr, n: nat, column: Component)
    requires e.Case? && n <= |e.thens|
    decreases e, 0, n
  {
    n > 0 ==> CaseRestricts(e, n - 1, column) && (IsFalse(e.thens[n - 1]) || Restricts(e.thens[n - 1], column))
  }

  predicate HasColumn(conditions: seq<Condition>, column: Component) {
    exists c :: c in conditions && c.column == column
  }

  lemma {:induction false} GatherFound(column: Component, branches: seq<seq<Condition>>)
    ensures Gather(column, branches).Some? <==> AllHave(branches, column)
  {
    if branches != [] {
      GatherFound(column, branches[1..]);
      AllHaveConcat([branches[0]], branches[1..], column);
      AllHaveSingleton(branches[0], column);
      assert branches == [branches[0]] + branches[1..];
    }
  }

  lemma {:induction false} UnionFound(first: seq<Condition>, rest: seq<seq<Condition>>, column: Component)
    ensures HasColumn(Union(first, rest), column)
       <==> HasColumn(first, column) && AllHave(rest, column)
  {
    if first != [] {
      UnionFound(first[1..], rest, column);
      GatherFound(first[0].column, rest);
      HasColumnConcat([first[0]], first[1..], column);
      assert first == [first[0]] + first[1..];
      var others, here := Gather(first[0].column, rest), Widened(first[0], rest);
      HasColumnConcat(here, Union(first[1..], rest), column);
      assert HasColumn([first[0]], column) <==> first[0].column == column by {
        assert [first[0]][0] == first[0];
      }
      if others.Some? {
        assert here[0].column == first[0].column;
      }
    }
  }

  lemma HasColumnConcat(a: seq<Condition>, b: seq<Condition>, column: Component)
    ensures HasColumn(a + b, column) <==> HasColumn(a, column) || HasColumn(b, column)
  {
    if HasColumn(a, column) {
      var c :| c in a && c.column == column;
      assert c in a + b;
    }
    if HasColumn(b, column) {
      var c :| c in b && c.column == column;
      assert c in a + b;
    }
  }

  predicate AllHave(branches: seq<seq<Condition>>, column: Component) {
    forall j :: 0 <= j < |branches| ==> HasColumn(branches[j], column)
  }

  lemma AllHaveConcat(a: seq<seq<Condition>>, b: seq<seq<Condition>>, column: Component)
    ensures AllHave(a + b, column) <==> AllHave(a, column) && AllHave(b, column)
  {
    if AllHave(a + b, column) {
      forall j | 0 <= j < |a| ensures HasColumn(a[j], column) { assert (a + b)[j] == a[j]; }
      forall j | 0 <= j < |b| ensures HasColumn(b[j], column) { assert (a + b)[|a| + j] == b[j]; }
    }
  }

  lemma AllHaveSingleton(b: seq<Condition>, column: Component)
    ensures AllHave([b], column) <==> HasColumn(b, column)
  {
    assert [b][0] == b;
  }

  lemma {:induction false} CaseConditionsFound(e: PhysicalExpr, n: nat, column: Component)
    requires e.Case? && n <= |e.thens|
    ensures AllHave(CaseConditions(e, n), column) <==> CaseRestricts(e, n, column)
    ensures CaseConditions(e, n) == [] <==> forall i :: 0 <= i < n ==> IsFalse(e.thens[i])
    decreases e, 0, n
  {
    if n > 0 {
      CaseConditionsFound(e, n - 1, column);
      ConditionsFoundIff(e.thens[n - 1], column);
      OneMoreBranch(e, n, CaseConditions(e, n - 1), InListConditions(e.thens[n - 1]), column);
    }
  }

  lemma OneMoreBranch(e: PhysicalExpr, n: nat, before: seq<seq<Condition>>, last: seq<Condition>, column: Component)
    requires e.Case? && 0 < n <= |e.thens|
    requires before == CaseConditions(e, n - 1) && last == InListConditions(e.thens[n - 1])
    ensures AllHave(CaseConditions(e, n), column)
       <==> AllHave(before, column) && (IsFalse(e.thens[n - 1]) || HasColumn(last, column))
    ensures CaseConditions(e, n) == [] <==> before == [] && IsFalse(e.thens[n - 1])
  {
    var here := if IsFalse(e.thens[n - 1]) then [] else [last];
    assert CaseConditions(e, n) == before + here;
    AllHaveConcat(before, here, column);
    AllHaveSingleton(last, column);
  }

  /** A condition is found on exactly the columns that the filter restricts. */
  lemma {:induction false} ConditionsFoundIff(e: PhysicalExpr, column: Component)
    ensures HasColumn(InListConditions(e), column) <==> Restricts(e, column)
    decreases e, 0
  {
    match e
    case Conj(l, r) =>
      ConditionsFoundIff(l, column);
      ConditionsFoundIff(r, column);
      HasColumnConcat(InListConditions(l), InListConditions(r), column);
    case InList(o, list, negated) =>
      if !negated && o.ColumnRef? && forall i :: 0 <= i < |list| ==> list[i].Constant? {
        assert InListConditions(e)[0].column == o.c;
      }
    case Case(_, thens, otherwise) =>
      CaseConditionsFound(e, |thens|, column);
      if otherwise.Some? {
        ConditionsFoundIff(otherwise.value, column);
      }
      CaseFound(e, column);
    case _ =>
  }

  lemma CaseFound(e: PhysicalExpr, column: Component)
    requires e.Case?
    requires AllHave(CaseConditions(e, |e.thens|), column) <==> CaseRestricts(e, |e.thens|, column)
    requires CaseConditions(e, |e.thens|) == [] <==> forall i :: 0 <= i < |e.thens| ==> IsFalse(e.thens[i])
    requires e.otherwise.Some? ==>
        (HasColumn(InListConditions(e.otherwise.value), column) <==> Restricts(e.otherwise.value, column))
    ensures HasColumn(InListConditions(e), column) <==> Restricts(e, column)
  {
    var cases, extra := CaseConditions(e, |e.thens|), [];
    if e.otherwise.Some? && !IsFalse(e.otherwise.value) {
      extra := [InListConditions(e.otherwise.value)];
      AllHaveSingleton(extra[0], column);
    }
    AllHaveConcat(cases, extra, column);
    RestrictsCase(e, column);
    assert CaseBranches(e) == cases + extra;
    CaseBranchesFound(e, column);
  }

  lemma CaseIsUnion(e: PhysicalExpr)
    requires e.Case?
    ensures InListConditions(e) == if CaseBranches(e) == [] then [] else Union(CaseBranches(e)[0], CaseBranches(e)[1..])
  {
  }

  lemma UnionOfBranches(branches: seq<seq<Condition>>, column: Component)
    requires branches != []
    ensures HasColumn(Union(branches[0], branches[1..]), column) <==> AllHave(branches, column)
  {
    UnionFound(branches[0], branches[1..], column);
    AllHaveConcat([branches[0]], branches[1..], column);
    AllHaveSingleton(branches[0], column);
    assert branches == [branches[0]] + branches[1..];
  }

  lemma CaseBranchesFound(e: PhysicalExpr, column: Component)
    requires e.Case?
    ensures HasColumn(InListConditions(e), column) <==> CaseBranches(e) != [] && AllHave(CaseBranches(e), column)
  {
    CaseIsUnion(e);
    if CaseBranches(e) != [] {
      UnionOfBranches(CaseBranches(e), column);
    }
  }

  lemma RestrictsCase(e: PhysicalExpr, column: Component)
    requires e.Case?
    ensures Restricts(e, column) <==>
              && CaseRestricts(e, |e.thens|, column)
              && (e.otherwise.Some? ==> IsFalse(e.otherwise.value) || Restricts(e.otherwise.value, column))
              && (!(forall i :: 0 <= i < |e.thens| ==> IsFalse(e.thens[i]))
                || (e.otherwise.Some? && !IsFalse(e.otherwise.value)))
  {
  }

  // ----- No values but those of the filter

  /** The value stands in an IN list on the column somewhere in the filter. */
  predicate Mentions(e: PhysicalExpr, column: Component, v: Term)
    decreases e, 0
  {
    match e
    case Conj(l, r) => Mentions(l, column, v) || Mentions(r, column, v)
    case InList(o, list, _) => o == ColumnRef(column) && Constant(Some(v)) in list
    case Case(_, thens, otherwise) =>
      || (exists i :: 0 <= i < |thens| && Mentions(thens[i], column, v))
      || (otherwise.Some? && Mentions(otherwise.value, column, v))
    case _ => false
  }

  predicate Lists(conditions: seq<Condition>, column: Component, v: Term) {
    exists c :: c in conditions && c.column == column && v in c.values
  }

  lemma {:induction false} GatherLists(column: Component, branches: seq<seq<Condition>>, v: Term) returns (j: nat)
    requires Gather(column, branches).Some? && v in Gather(column, branches).value
    ensures j < |branches| && Lists(branches[j], column, v)
  {
    if v in FindColumn(branches[0], column).value.values {
      j := 0;
    } else {
      j := GatherLists(column, branches[1..], v);
      j := j + 1;
    }
  }

  lemma WidenedLists(c: Condition, rest: seq<seq<Condition>>, v: Term) returns (j: nat)
    requires Lists(Widened(c, rest), c.column, v)
    ensures j <= |rest| && if j == 0 then v in c.values else Lists(rest[j - 1], c.column, v)
  {
    if v in c.values {
      j := 0;
    } else {
      j := GatherLists(c.column, rest, v);
      j := j + 1;
    }
  }

  lemma ListsOfConcat(a: seq<Condition>, b: seq<Condition>, column: Component, v: Term)
    ensures Lists(a + b, column, v) <==> Lists(a, column, v) || Lists(b, column, v)
  {
    if Lists(a, column, v) {
      var c :| c in a && c.column == column && v in c.values;
      assert c in a + b;
    }
    if Lists(b, column, v) {
      var c :| c in b && c.column == column && v in c.values;
      assert c in a + b;
    }
  }

  lemma {:induction false} UnionLists(first: seq<Condition>, rest: seq<seq<Condition>>, column: Component, v: Term)
    returns (j: nat)
    requires Lists(Union(first, rest), column, v)
    ensures j <= |rest| && Lists(if j == 0 then first else rest[j - 1], column, v)
  {
    var c, tail := first[0], first[1..];
    ListsOfConcat(Widened(c, rest), Union(tail, rest), column, v);
    if Lists(Widened(c, rest), column, v) {
      j := WidenedLists(c, rest, v);
      if j == 0 {
        assert c in first && c.column == column && v in c.values;
      }
    } else {
      j := UnionLists(tail, rest, column, v);
      if j == 0 {
        var d :| d in tail && d.column == column && v in d.values;
        assert d in first;
      }
    }
  }

  lemma {:induction false} CaseConditionsOf(e: PhysicalExpr, n: nat, j: nat) returns (b: nat)
    requires e.Case? && n <= |e.thens| && j < |CaseConditions(e, n)|
    ensures b < n && CaseConditions(e, n)[j] == InListConditions(e.thens[b])
  {
    if j < |CaseConditions(e, n - 1)| {
      b := CaseConditionsOf(e, n - 1, j);
    } else {
      b := n - 1;
    }
  }

  /** Every value of a condition stands in an IN list of the filter on the condition's column. */
  lemma {:induction false} ConditionsMention(e: PhysicalExpr, column: Component, v: Term)
    requires Lists(InListConditions(e), column, v)
    ensures Mentions(e, column, v)
  {
    match e
    case Conj(l, r) =>
      ListsOfConcat(InListConditions(l), InListConditions(r), column, v);
      if Lists(InListConditions(l), column, v) {
        ConditionsMention(l, column, v);
      } else {
        ConditionsMention(r, column, v);
      }
    case InList(_, list, _) =>
      NonNullMembers(list, v);
    case Case(_, thens, otherwise) =>
      var branches := CaseBranches(e);
      CaseIsUnion(e);
      var j := UnionLists(branches[0], branches[1..], column, v);
      assert Lists(branches[j], column, v);
      if j < |CaseConditions(e, |thens|)| {
        var b := CaseConditionsOf(e, |thens|, j);
        ConditionsMention(thens[b], column, v);
      } else {
        ConditionsMention(otherwise.value, column, v);
      }
    case _ =>
  }

  // ----- The lookup filter

  datatype LookupFilter = Equality(c: Component, value: Term) | Either(left: LookupFilter, right: LookupFilter) | Never

  function EvalLookup(f: LookupFilter, row: Quad): Truth {
    match f
    case Equality(c, v) => if Column(row, c).None? then Unknown else if Column(row, c).value == v then True else False
    case Either(l, r) =>
      var x, y := EvalLookup(l, row), EvalLookup(r, row);
      if x.True? || y.True? then True else if x.False? && y.False? then False else Unknown
    case Never => False
  }

  /** The disjunction of equalities with the values. */
  function MakeLookup(c: Component, values: seq<Term>): LookupFilter {
    if values == [] then Never
    else if |values| == 1 then Equality(c, values[0])
    else Either(MakeLookup(c, values[..|values| - 1]), Equality(c, values[|values| - 1]))
  }

  lemma {:induction false} LookupIsCondition(c: Component, values: seq<Term>, row: Quad)
    ensures EvalLookup(MakeLookup(c, values), row).True? <==> Satisfies(row, Condition(c, values))
  {
    if |values| > 1 {
      LookupIsCondition(c, values[..|values| - 1], row);
      assert values == values[..|values| - 1] + [values[|values| - 1]];
    }
  }

  // ----- The table to look up in

  function LeadingCount(order: seq<Component>, leads: Component -> bool): (r: nat)
    ensures r <= |order| && forall i :: 0 <= i < r ==> leads(order[i])
    ensures r < |order| ==> !leads(order[r])
  {
    if order == [] || !leads(order[0]) then 0 else 1 + LeadingCount(order[1..], leads)
  }

  /** The number of leading components that are bound or looked up, if the one looked up is among them. */
  function LookupPrefix(order: Option<seq<Component>>, bound: Component -> bool, c: Component): (r: Option<nat>)
    ensures r.Some? <==> order.Some? && exists k :: 0 <= k < |order.value| && Reaches(order.value, bound, c, k)
    ensures r.Some? ==> && r.value <= |order.value|
                        && (forall i :: 0 <= i < r.value ==> order.value[i] == c || bound(order.value[i]))
                        && (r.value < |order.value| ==>
                              order.value[r.value] != c && !bound(order.value[r.value]))
  {
    if order.None? then None
    else
      var n := LeadingCount(order.value, x => x == c || bound(x));
      if c in order.value[..n] then
        var k :| 0 <= k < n && order.value[..n][k] == c;
        assert Reaches(order.value, bound, c, k);
        Some(n)
      else
        assert forall k :: 0 <= k < n ==> order.value[k] == order.value[..n][k] != c;
        None
  }

  /** The `k`-th component is the one looked up, and the components before it are bound or looked up. */
  predicate Reaches(order: seq<Component>, bound: Component -> bool, c: Component, k: nat)
    requires k < |order|
  {
    order[k] == c && forall i :: 0 <= i < k ==> order[i] == c || bound(order[i])
  }

  /** The table with the longest prefix among the first `n`, the first one on ties. */
  function BestLookup(orders: seq<Option<seq<Component>>>, bound: Component -> bool, c: Component,
                      n: nat): (r: Option<nat>)
    requires n <= |orders|
    ensures r.None? <==> forall i :: 0 <= i < n ==> LookupPrefix(orders[i], bound, c).None?
    ensures r.Some? ==> r.value < n && LookupPrefix(orders[r.value], bound, c).Some?
    ensures r.Some? ==> forall i :: 0 <= i < n && LookupPrefix(orders[i], bound, c).Some? ==>
                          LookupPrefix(orders[i], bound, c).value <= LookupPrefix(orders[r.value], bound, c).value
    ensures r.Some? ==> forall i :: 0 <= i < r.value && LookupPrefix(orders[i], bound, c).Some? ==>
                          LookupPrefix(orders[i], bound, c).value < LookupPrefix(orders[r.value], bound, c).value
  {
    if n == 0 then None
    else
      var best, last := BestLookup(orders, bound, c, n - 1), LookupPrefix(orders[n - 1], bound, c);
      if last.None? then best
      else if best.None? || LookupPrefix(orders[best.value], bound, c).value < last.value then Some(n - 1)
      else best
  }

  function LookupTable(orders: seq<Option<seq<Component>>>, planned: nat, bound: Component -> bool,
                       c: Component): (r: Option<nat>)
    requires planned < |orders|
    ensures r.None? <==> LookupPrefix(orders[planned], bound, c).Some?
                         || forall i :: 0 <= i < |orders| ==> LookupPrefix(orders[i], bound, c).None?
    ensures r.Some? ==> r.value < |orders| && r.value != planned && LookupPrefix(orders[r.value], bound, c).Some?
    ensures r.Some? ==> forall i :: 0 <= i < |orders| && LookupPrefix(orders[i], bound, c).Some? ==>
                          LookupPrefix(orders[i], bound, c).value <= LookupPrefix(orders[r.value], bound, c).value
  {
    if LookupPrefix(orders[planned], bound, c).Some? then None else BestLookup(orders, bound, c, |orders|)
  }

  /** The table to look a component up in, if there is one. */
  type Tables = Component -> Option<nat>

  function LookupTables(orders: seq<Option<seq<Component>>>, planned: nat, bound: Component -> bool): Tables
    requires planned < |orders|
  {
    (c: Component) => LookupTable(orders, planned, bound, c)
  }

  lemma {:induction false} BetweenAgrees(order: seq<Component>, n: nat, a: Quad, b: Quad, c: Quad)
    requires n <= |order| && Less(order, a, b) && Less(order, b, c) && AgreeOn(order[..n], a, c)
    ensures AgreeOn(order[..n], a, b)
  {
    if n > 0 {
      assert order[..n][0] == order[0];
      assert Column(a, order[0]) == Column(b, order[0]) == Column(c, order[0]);
      assert order[..n] == [order[0]] + order[1..][..n - 1];
      BetweenAgrees(order[1..], n - 1, a, b, c);
    }
  }

  /**
   In a table sorted by an order whose leading components are bound or looked up, the rows
   of one combination of values lie next to each other.
   */
  lemma LookupIsOneRun(order: seq<Component>, bound: Component -> bool, c: Component, rows: seq<Quad>, i: nat, j: nat,
                       k: nat)
    requires LookupPrefix(Some(order), bound, c).Some?
    requires StrictlySorted(ScanPlan.OrderOf(order), rows) && i < j < k < |rows|
    requires AgreeOn(order[..LookupPrefix(Some(order), bound, c).value], rows[i], rows[k])
    ensures AgreeOn(order[..LookupPrefix(Some(order), bound, c).value], rows[i], rows[j])
    ensures Column(rows[j], c) == Column(rows[i], c)
  {
    var n := LookupPrefix(Some(order), bound, c).value;
    BetweenAgrees(order, n, rows[i], rows[j], rows[k]);
    var p :| 0 <= p < n && order[..n][p] == c;
    assert Column(rows[i], order[..n][p]) == Column(rows[j], order[..n][p]);
  }

  // ----- Switching

  const SWITCH_FACTOR: nat := 4

  const MAX_USIZE: nat := 0xFFFF_FFFF_FFFF_FFFF

  function SaturatingMul(a: nat, b: nat): nat {
    if a * b <= MAX_USIZE then a * b else MAX_USIZE
  }

  /** A scan: its partitions and the estimate of its rows. */
  datatype PartitionedScan = PartitionedScan(partitions: seq<seq<Quad>>, estimate: Option<nat>)

  datatype Decision = Kept | Switched(scan: PartitionedScan)

  datatype DynamicFilter = DynamicFilter(complete: bool, current: PhysicalExpr)

  datatype Lookup = Lookup(component: Component, values: seq<Term>, table: nat)

  /** The lookups that complete filters allow, in the order in which they are found. */
  function Candidates(filters: seq<DynamicFilter>, bound: Component -> bool): seq<Condition> {
    if filters == [] then []
    else
      (if filters[0].complete then Filter((c: Condition) => !bound(c.column), InListConditions(filters[0].current))
        else [])
      + Candidates(filters[1..], bound)
  }

  /** The candidates are the conditions of the complete filters on columns that the pattern leaves open. */
  lemma {:induction false} CandidatesAre(filters: seq<DynamicFilter>, bound: Component -> bool, c: Condition)
    ensures c in Candidates(filters, bound)
       <==> !bound(c.column) && exists f | f in filters :: f.complete && c in InListConditions(f.current)
  {
    if filters != [] {
      CandidatesAre(filters[1..], bound, c);
      assert filters == [filters[0]] + filters[1..];
    }
  }

  /** The row matches all filters. */
  ghost predicate MatchesAll(filters: seq<DynamicFilter>, m: Meaning, row: Quad) {
    forall i :: 0 <= i < |filters| ==> Eval(filters[i].current, m, row).True?
  }

  /** Every row that matches all filters satisfies every candidate. */
  lemma {:induction false} CandidatesNecessary(filters: seq<DynamicFilter>, bound: Component -> bool, m: Meaning,
                                               row: Quad)
    requires MatchesAll(filters, m, row)
    ensures forall c | c in Candidates(filters, bound) :: Satisfies(row, c)
  {
    if filters != [] {
      CandidatesNecessary(filters[1..], bound, m, row);
      ConditionsNecessary(filters[0].current, m, row);
    }
  }

  /** Candidate `i` has a table to look it up in, fewer values than those before it, and no more than those after it. */
  predicate IsFewest(candidates: seq<Condition>, tables: Tables, i: nat)
    requires i < |candidates|
  {
    && tables(candidates[i].column).Some?
    && forall j :: 0 <= j < |candidates| && tables(candidates[j].column).Some? ==>
                     |candidates[i].values| <= |candidates[j].values|
                     && (j < i ==> |candidates[i].values| < |candidates[j].values|)
  }

  /** The lookup of the first candidate with the fewest values among those that some table can look up. */
  ghost predicate IsChosen(l: Lookup, candidates: seq<Condition>, tables: Tables) {
    && tables(l.component) == Some(l.table)
    && exists i :: 0 <= i < |candidates| && candidates[i] == Condition(l.component, l.values)
                   && IsFewest(candidates, tables, i)
  }

  function ChooseLookup(candidates: seq<Condition>, tables: Tables): (r: Option<Lookup>)
    ensures r.None? <==> forall c | c in candidates :: tables(c.column).None?
    ensures r.Some? ==> IsChosen(r.value, candidates, tables)
  {
    if candidates == [] then None
    else
      var c, rest := candidates[0], ChooseLookup(candidates[1..], tables);
      ChooseFirst(candidates, tables, rest);
      if tables(c.column).Some? && (rest.None? || |c.values| <= |rest.value.values|)
        then Some(Lookup(c.column, c.values, tables(c.column).value))
      else rest
  }

  lemma ChooseFirst(candidates: seq<Condition>, tables: Tables, rest: Option<Lookup>)
    requires candidates != []
    requires rest.None? <==> forall c | c in candidates[1..] :: tables(c.column).None?
    requires rest.Some? ==> IsChosen(rest.value, candidates[1..], tables)
    ensures var c := candidates[0];
            if tables(c.column).Some? && (rest.None? || |c.values| <= |rest.value.values|)
            then IsChosen(Lookup(c.column, c.values, tables(c.column).value), candidates, tables)
            else rest.Some? ==> IsChosen(rest.value, candidates, tables)
  {
    var tail := candidates[1..];
    assert forall j :: 0 < j < |candidates| ==> candidates[j] == tail[j - 1];
    if rest.Some? {
      var i :| && 0 <= i < |tail| && tail[i] == Condition(rest.value.component, rest.value.values)
               && IsFewest(tail, tables, i);
      if tables(candidates[0].column).None? || |rest.value.values| < |candidates[0].values| {
        assert IsFewest(candidates, tables, i + 1);
      } else {
        assert IsFewest(candidates, tables, 0);
      }
    } else if tables(candidates[0].column).Some? {
      assert forall j :: 0 <= j < |tail| ==> tail[j] in tail;
      assert IsFewest(candidates, tables, 0);
    }
  }

  lemma ChosenIsOne(l: Lookup, candidates: seq<Condition>, tables: Tables)
    requires IsChosen(l, candidates, tables)
    ensures forall k :: IsChosen(k, candidates, tables) ==> k == l
  {
    forall k | IsChosen(k, candidates, tables) ensures k == l {
      var i :| && 0 <= i < |candidates| && candidates[i] == Condition(l.component, l.values)
               && IsFewest(candidates, tables, i);
      var j :| && 0 <= j < |candidates| && candidates[j] == Condition(k.component, k.values)
               && IsFewest(candidates, tables, j);
    }
  }

  /** The planned scan reads at least `SWITCH_FACTOR` times the rows; products saturate. */
  predicate ClearlyFewer(rows: nat, plannedRows: nat) {
    rows * SWITCH_FACTOR <= plannedRows || plannedRows >= MAX_USIZE
  }

  lemma SaturatingComparison(a: nat, b: nat, plannedRows: nat)
    ensures SaturatingMul(a, SWITCH_FACTOR) <= plannedRows <==> ClearlyFewer(a, plannedRows)
    ensures SaturatingMul(SaturatingMul(a, b), SWITCH_FACTOR) <= plannedRows <==> ClearlyFewer(a * b, plannedRows)
  {
  }

  function EstimatedRows(scan: PartitionedScan): nat {
    if scan.estimate.Some? then scan.estimate.value else MAX_USIZE
  }

  /** The lookup builds `scan`, which fits the planned scan; the page bound and its estimate are clearly fewer. */
  predicate Pays(l: Lookup, scan: PartitionedScan, planned: PartitionedScan, rowsPerPage: Component -> Option<nat>,
                 build: Lookup -> Option<PartitionedScan>) {
    && build(l) == Some(scan) && |scan.partitions| <= |planned.partitions|
    && planned.estimate.Some? && rowsPerPage(l.component).Some?
    && ClearlyFewer(|l.values| * rowsPerPage(l.component).value, planned.estimate.value)
    && ClearlyFewer(EstimatedRows(scan), planned.estimate.value)
  }

  /**
   The decision for a planned scan: it switches exactly if the scan is neither limited nor
   ordered and the first lookup with the fewest values pays. `build` builds the scan of a
   table for a lookup, and it and `rowsPerPage` may fail.
   */
  function Decide(planned: PartitionedScan, filters: seq<DynamicFilter>, limitedOrOrdered: bool,
                  orders: seq<Option<seq<Component>>>, plannedTable: nat, bound: Component -> bool,
                  rowsPerPage: Component -> Option<nat>, build: Lookup -> Option<PartitionedScan>): (r: Decision)
    requires plannedTable < |orders|
    ensures forall scan ::
              r == Switched(scan) <==>
              && !limitedOrOrdered
              && exists l :: && IsChosen(l, Candidates(filters, bound), LookupTables(orders, plannedTable, bound))
                             && Pays(l, scan, planned, rowsPerPage, build)
  {
    if filters == [] || limitedOrOrdered then Kept
    else
      var candidates, tables := Candidates(filters, bound), LookupTables(orders, plannedTable, bound);
      var lookup := ChooseLookup(candidates, tables);
      if lookup.None? || planned.estimate.None? then Kept
      else
        ChosenIsOne(lookup.value, candidates, tables);
        var perPage := rowsPerPage(lookup.value.component);
        if perPage.None? then Kept
        else
          var values := |lookup.value.values|;
          SaturatingComparison(values, perPage.value, planned.estimate.value);
          if SaturatingMul(SaturatingMul(values, perPage.value), SWITCH_FACTOR) > planned.estimate.value then Kept
          else
            var r := TrySwitch(build(lookup.value), planned);
            assert forall scan :: r == Switched(scan) <==> Pays(lookup.value, scan, planned, rowsPerPage, build);
            r
  }

  /** The alternative, if it has been built, fits and is clearly cheaper. */
  function TrySwitch(alternative: Option<PartitionedScan>, planned: PartitionedScan): (r: Decision)
    requires planned.estimate.Some?
    ensures forall scan ::
              r == Switched(scan) <==> && alternative == Some(scan) && |scan.partitions| <= |planned.partitions|
                                       && ClearlyFewer(EstimatedRows(scan), planned.estimate.value)
  {
    if alternative.None? || |alternative.value.partitions| > |planned.partitions| then Kept
    else
      SaturatingComparison(EstimatedRows(alternative.value), 1, planned.estimate.value);
      if SaturatingMul(EstimatedRows(alternative.value), SWITCH_FACTOR) > planned.estimate.value then Kept
      else Switched(alternative.value)
  }

  /**
   A switch must happen if some candidate has a lookup table and every such candidate pays,
   however the candidates are listed.
   */
  lemma MustSwitch(planned: PartitionedScan, filters: seq<DynamicFilter>, orders: seq<Option<seq<Component>>>,
                   plannedTable: nat, bound: Component -> bool, rowsPerPage: Component -> Option<nat>,
                   build: Lookup -> Option<PartitionedScan>)
    requires plannedTable < |orders|
    requires exists c | c in Candidates(filters, bound) :: LookupTables(orders, plannedTable, bound)(c.column).Some?
    requires forall l | IsLookup(l, Candidates(filters, bound), LookupTables(orders, plannedTable, bound)) ::
               exists scan :: Pays(l, scan, planned, rowsPerPage, build)
    ensures Decide(planned, filters, false, orders, plannedTable, bound, rowsPerPage, build).Switched?
  {
    var l := SomeChosen(Candidates(filters, bound), LookupTables(orders, plannedTable, bound));
    var scan :| Pays(l, scan, planned, rowsPerPage, build);
    assert Decide(planned, filters, false, orders, plannedTable, bound, rowsPerPage, build) == Switched(scan);
  }

  /** A lookup of one of the candidates in its table. */
  predicate IsLookup(l: Lookup, candidates: seq<Condition>, tables: Tables) {
    Condition(l.component, l.values) in candidates && tables(l.component) == Some(l.table)
  }

  lemma SomeChosen(candidates: seq<Condition>, tables: Tables) returns (l: Lookup)
    requires exists c | c in candidates :: tables(c.column).Some?
    ensures IsChosen(l, candidates, tables) && IsLookup(l, candidates, tables)
  {
    l := ChooseLookup(candidates, tables).value;
  }

  // ----- Filters that the scan absorbed

  datatype PushedDown = Yes | No

  /** The filters of a parent that the scan reported as pushed down: nothing above applies them any more. */
  function Absorbed(filters: seq<PhysicalExpr>, reports: seq<PushedDown>): seq<PhysicalExpr>
    requires |reports| == |filters|
  {
    if filters == [] then []
    else (if reports[0].Yes? then [filters[0]] else []) + Absorbed(filters[1..], reports[1..])
  }

  /** The filters that stay above the scan. */
  function LeftAbove(filters: seq<PhysicalExpr>, reports: seq<PushedDown>): seq<PhysicalExpr>
    requires |reports| == |filters|
  {
    if filters == [] then []
    else (if reports[0].No? then [filters[0]] else []) + LeftAbove(filters[1..], reports[1..])
  }

  predicate KeepsEach(filters: seq<PhysicalExpr>, m: Meaning, row: Quad) {
    forall f | f in filters :: Eval(f, m, row).True?
  }

  lemma {:induction false} ReportsSplit(filters: seq<PhysicalExpr>, reports: seq<PushedDown>, m: Meaning, row: Quad)
    requires |reports| == |filters|
    ensures KeepsEach(filters, m, row)
       <==> KeepsEach(Absorbed(filters, reports), m, row) && KeepsEach(LeftAbove(filters, reports), m, row)
  {
    if filters != [] {
      ReportsSplit(filters[1..], reports[1..], m, row);
      assert filters == [filters[0]] + filters[1..];
    }
  }

  /** The rows of the planned scan: those of its table that match the pattern and the absorbed filters. */
  function PlannedRows(pattern: Quad -> bool, absorbed: seq<PhysicalExpr>, m: Meaning, table: seq<Quad>): seq<Quad> {
    Filter((q: Quad) => pattern(q) && KeepsEach(absorbed, m, q), table)
  }

  /** The rows of the alternative scan, which is built from the pattern and the lookup alone. */
  function SwitchedRows(pattern: Quad -> bool, c: Condition, table: seq<Quad>): seq<Quad> {
    Filter((q: Quad) => pattern(q) && EvalLookup(MakeLookup(c.column, c.values), q).True?, table)
  }

  /** Without a switch, absorbing filters changes nothing: what is left above completes them. */
  lemma PushdownKeepsRows(pattern: Quad -> bool, filters: seq<PhysicalExpr>, reports: seq<PushedDown>, m: Meaning,
                          table: seq<Quad>)
    requires |reports| == |filters|
    ensures Filter((q: Quad) => KeepsEach(LeftAbove(filters, reports), m, q),
                   PlannedRows(pattern, Absorbed(filters, reports), m, table))
         == Filter((q: Quad) => KeepsEach(filters, m, q), Filter(pattern, table))
  {
    var above := (q: Quad) => KeepsEach(LeftAbove(filters, reports), m, q);
    var inside := (q: Quad) => pattern(q) && KeepsEach(Absorbed(filters, reports), m, q);
    var all := (q: Quad) => KeepsEach(filters, m, q);
    var both := (q: Quad) => pattern(q) && all(q);
    forall q: Quad ensures both(q) == (inside(q) && above(q)) {
      ReportsSplit(filters, reports, m, q);
    }
    FilterFilter(above, inside, both, table);
    FilterFilter(all, pattern, both, table);
  }

  /** After what is left above both scans, the switched scan returns the rows of the planned one. */
  ghost predicate SwitchedRightly(pattern: Quad -> bool, absorbed: seq<PhysicalExpr>, m: Meaning, keep: Quad -> bool,
                                  c: Condition, mine: seq<Quad>, other: seq<Quad>) {
    multiset(Filter(keep, SwitchedRows(pattern, c, other)))
    == multiset(Filter(keep, PlannedRows(pattern, absorbed, m, mine)))
  }

  /** A row that is left above although the scan should have filtered it. */
  ghost predicate Slips(pattern: Quad -> bool, absorbed: seq<PhysicalExpr>, m: Meaning, keep: Quad -> bool, q: Quad) {
    pattern(q) && keep(q) && !KeepsEach(absorbed, m, q)
  }

  lemma KeptCounts(pattern: Quad -> bool, absorbed: seq<PhysicalExpr>, filters: seq<DynamicFilter>,
                   bound: Component -> bool, m: Meaning, keep: Quad -> bool, c: Condition,
                   mine: seq<Quad>, other: seq<Quad>, q: Quad)
    requires c in Candidates(filters, bound) && forall q :: keep(q) ==> MatchesAll(filters, m, q)
    ensures multiset(Filter(keep, SwitchedRows(pattern, c, other)))[q]
         == if pattern(q) && keep(q) then multiset(other)[q] else 0
    ensures multiset(Filter(keep, PlannedRows(pattern, absorbed, m, mine)))[q]
         == if pattern(q) && keep(q) && KeepsEach(absorbed, m, q) then multiset(mine)[q] else 0
    ensures multiset(SwitchedRows(pattern, c, other))[q] <= multiset(Filter(pattern, other))[q]
  {
    FilterCount((q: Quad) => pattern(q) && EvalLookup(MakeLookup(c.column, c.values), q).True?, other, q);
    FilterCount((q: Quad) => pattern(q) && KeepsEach(absorbed, m, q), mine, q);
    FilterCount(keep, SwitchedRows(pattern, c, other), q);
    FilterCount(keep, PlannedRows(pattern, absorbed, m, mine), q);
    FilterCount(pattern, other, q);
    LookupIsCondition(c.column, c.values, q);
    if keep(q) {
      CandidatesNecessary(filters, bound, m, q);
    }
  }

  /**
   A switch is right for all tables with the same quads if and only if the pattern and what
   is left above already imply the filters that the planned scan absorbed.
   */
  lemma SwitchRightIff(pattern: Quad -> bool, absorbed: seq<PhysicalExpr>, filters: seq<DynamicFilter>,
                       bound: Component -> bool, m: Meaning, keep: Quad -> bool, c: Condition)
    requires c in Candidates(filters, bound) && forall q :: keep(q) ==> MatchesAll(filters, m, q)
    ensures (forall mine, other | multiset(mine) == multiset(other) ::
               SwitchedRightly(pattern, absorbed, m, keep, c, mine, other))
       <==> (forall q :: !Slips(pattern, absorbed, m, keep, q))
  {
    if forall q :: !Slips(pattern, absorbed, m, keep, q) {
      forall mine, other | multiset(mine) == multiset(other)
        ensures SwitchedRightly(pattern, absorbed, m, keep, c, mine, other)
      {
        forall q: Quad
          ensures multiset(Filter(keep, SwitchedRows(pattern, c, other)))[q]
               == multiset(Filter(keep, PlannedRows(pattern, absorbed, m, mine)))[q]
        {
          assert !Slips(pattern, absorbed, m, keep, q);
          KeptCounts(pattern, absorbed, filters, bound, m, keep, c, mine, other, q);
        }
      }
    } else {
      var q :| Slips(pattern, absorbed, m, keep, q);
      KeptCounts(pattern, absorbed, filters, bound, m, keep, c, [q], [q], q);
      assert multiset([q])[q] == 1;
      assert !SwitchedRightly(pattern, absorbed, m, keep, c, [q], [q]);
    }
  }

  /** What a caller can check: apart from the pattern, the scan absorbed nothing but the join's dynamic filters. */
  predicate OnlyDynamic(absorbed: seq<PhysicalExpr>, filters: seq<DynamicFilter>) {
    forall f | f in absorbed :: exists i :: 0 <= i < |filters| && filters[i].current == f
  }

  lemma OnlyDynamicIsImplied(absorbed: seq<PhysicalExpr>, filters: seq<DynamicFilter>, m: Meaning, row: Quad)
    requires OnlyDynamic(absorbed, filters) && MatchesAll(filters, m, row)
    ensures KeepsEach(absorbed, m, row)
  {
  }

  /**
   If the scan absorbed nothing but dynamic filters, looking the values up in another table
   that holds the same quads loses no row that the join keeps, adds none, and never returns a
   row more often than the pattern does.
   */
  lemma SwitchKeepsRows(pattern: Quad -> bool, absorbed: seq<PhysicalExpr>, filters: seq<DynamicFilter>,
                        bound: Component -> bool, m: Meaning, keep: Quad -> bool, c: Condition,
                        mine: seq<Quad>, other: seq<Quad>)
    requires multiset(mine) == multiset(other) && OnlyDynamic(absorbed, filters)
    requires c in Candidates(filters, bound) && forall q :: keep(q) ==> MatchesAll(filters, m, q)
    ensures SwitchedRightly(pattern, absorbed, m, keep, c, mine, other)
    ensures multiset(SwitchedRows(pattern, c, other)) <= multiset(Filter(pattern, mine))
  {
    forall q ensures !Slips(pattern, absorbed, m, keep, q) {
      if keep(q) {
        OnlyDynamicIsImplied(absorbed, filters, m, q);
      }
    }
    SwitchRightIff(pattern, absorbed, filters, bound, m, keep, c);
    forall q: Quad ensures multiset(SwitchedRows(pattern, c, other))[q] <= multiset(Filter(pattern, mine))[q] {
      KeptCounts(pattern, absorbed, filters, bound, m, keep, c, mine, other, q);
      FilterCount(pattern, other, q);
      FilterCount(pattern, mine, q);
    }
  }

  /** The filter `object = 5`, absorbed by the scan of `?s 7 ?o`, and a join that allows the subject 1. */
  const OBJECT_FILTER: PhysicalExpr := InList(ColumnRef(Object), [Constant(Some(5))], false)

  const SUBJECT_FILTER: DynamicFilter := DynamicFilter(true, InList(ColumnRef(Subject), [Constant(Some(1))], false))

  const NO_MEANING: Meaning := Meaning((_, _) => None, (_, _) => 0, (_, _) => Unknown)

  lemma SingleCondition(c: Component, list: seq<Item>)
    requires forall i :: 0 <= i < |list| ==> list[i].Constant?
    ensures InListConditions(InList(ColumnRef(c), list, false)) == [Condition(c, NonNull(list))]
  {
  }

  lemma ConstantMembership(e: PhysicalExpr, c: Component, v: Term, row: Quad)
    requires e == InList(ColumnRef(c), [Constant(Some(v))], false)
    ensures Eval(e, NO_MEANING, row).True? <==> Column(row, c) == Some(v)
    ensures InListConditions(e) == [Condition(c, [v])]
  {
    var list := e.list;
    assert ItemValue(list[0], NO_MEANING, row) == Some(v);
    assert list[1..] == [] && NonNull(list[1..]) == [];
    assert NonNull(list) == [v];
    SingleCondition(c, list);
  }

  lemma SubjectCandidates()
    ensures Candidates([SUBJECT_FILTER], c => c == Predicate) == [Condition(Subject, [1])]
  {
    var bound := (c: Component) => c == Predicate;
    ConstantMembership(SUBJECT_FILTER.current, Subject, 1, Quad(None, 0, 0, 0));
    var conditions := InListConditions(SUBJECT_FILTER.current);
    assert Filter((c: Condition) => !bound(c.column), conditions)
        == [conditions[0]] + Filter((c: Condition) => !bound(c.column), conditions[1..]);
    assert [SUBJECT_FILTER][1..] == [];
    assert Candidates([SUBJECT_FILTER][1..], bound) == [];
  }

  /**
   The switch loses a filter that the scan absorbed: the planned scan returns nothing, the
   switched scan a row with another object, and nothing above removes it.
   */
  lemma SwitchLosesAbsorbedFilter(row: Quad)
    requires row == Quad(None, 1, 7, 6)
    ensures var pattern, keep := (q: Quad) => q.pred == 7, (q: Quad) => q.subj == 1;
            var c := Condition(Subject, [1]);
            && c in Candidates([SUBJECT_FILTER], c => c == Predicate)
            && (forall q :: keep(q) ==> MatchesAll([SUBJECT_FILTER], NO_MEANING, q))
            && Absorbed([OBJECT_FILTER], [Yes]) == [OBJECT_FILTER] && LeftAbove([OBJECT_FILTER], [Yes]) == []
            && Slips(pattern, [OBJECT_FILTER], NO_MEANING, keep, row)
            && Filter(keep, PlannedRows(pattern, [OBJECT_FILTER], NO_MEANING, [row])) == []
            && Filter(keep, SwitchedRows(pattern, c, [row])) == [row]
  {
    SubjectCandidates();
    assert [OBJECT_FILTER][1..] == [];
    assert Absorbed([OBJECT_FILTER], [Yes]) == [OBJECT_FILTER] + Absorbed([], []);
    ConstantMembership(OBJECT_FILTER, Object, 5, row);
    assert OBJECT_FILTER in [OBJECT_FILTER];
    forall q: Quad | q.subj == 1 ensures MatchesAll([SUBJECT_FILTER], NO_MEANING, q) {
      ConstantMembership(SUBJECT_FILTER.current, Subject, 1, q);
    }
    assert MakeLookup(Subject, [1]) == Equality(Subject, 1);
    FilterSingleton((q: Quad) => q.pred == 7 && KeepsEach([OBJECT_FILTER], NO_MEANING, q), row);
    FilterSingleton((q: Quad) => q.pred == 7 && EvalLookup(MakeLookup(Subject, [1]), q).True?, row);
    FilterSingleton((q: Quad) => q.subj == 1, row);
  }

  // ----- Switching below a changeset

  /**
   What a scan lays over its table: nothing if the table is at the snapshot's version, the
   changeset up to it, or the changeset of the whole log and a transaction's calls.
   */
  ghost predicate IsOverlay(log: seq<seq<Op>>, tableVersion: nat, version: nat, cs: Option<Changeset>, pending: seq<Op>)
    requires tableVersion <= version < |log|
  {
    if cs.None? then tableVersion == version && pending == []
    else
      || (tableVersion < version && pending == []
        && Represents(cs.value, DeltaLog.OpsBetween(log, tableVersion, version)))
      || Represents(cs.value, DeltaLog.OpsBetween(log, 0, version) + pending)
  }

  function Overlay(base: set<Quad>, cs: Option<Changeset>): set<Quad> {
    if cs.None? then base else ApplyChangeset(base, cs.value)
  }

  /** What is left of a scan's quads after the pattern and the join. */
  function Joined(quads: set<Quad>, pattern: Quad -> bool, keep: Quad -> bool): set<Quad> {
    set q | q in quads && pattern(q) && keep(q)
  }

  /** The quads of a table that the pattern and the absorbed filters let through. */
  function Matching(quads: set<Quad>, pattern: Quad -> bool, absorbed: seq<PhysicalExpr>, m: Meaning): set<Quad> {
    set q | q in quads && pattern(q) && KeepsEach(absorbed, m, q)
  }

  /** The quads of a table that the pattern and the lookup let through. */
  function LookedUp(quads: set<Quad>, pattern: Quad -> bool, c: Condition): set<Quad> {
    set q | q in quads && pattern(q) && EvalLookup(MakeLookup(c.column, c.values), q).True?
  }

  lemma JoinedAgree(a: set<Quad>, b: set<Quad>, pattern: Quad -> bool, keep: Quad -> bool)
    requires forall q: Quad | pattern(q) && keep(q) :: q in a <==> q in b
    ensures Joined(a, pattern, keep) == Joined(b, pattern, keep)
  {
  }

  lemma OverlayIsReplay(log: seq<seq<Op>>, t: Table, version: nat, cs: Option<Changeset>, pending: seq<Op>)
    requires version < |log| && Consistent(log, t, version) && IsOverlay(log, t.version, version, cs, pending)
    ensures Overlay(t.quads, cs) == Replay(StateAt(log, version), pending)
  {
    if cs.Some? && Represents(cs.value, DeltaLog.OpsBetween(log, 0, version) + pending) {
      TransactionScanIsReplay(log, t, version, pending, cs.value);
    } else {
      assert IsScan(log, t, version, Overlay(t.quads, cs));
      ScanIsReplay(log, t, version, Overlay(t.quads, cs));
    }
  }

  /**
   If the scan absorbed nothing but dynamic filters, switching below the changeset to another
   table of the same version loses and adds no row that the join keeps. The tables only have
   to be consistent: where they differ, the changeset decides.
   */
  lemma SwitchBelowChangeset(log: seq<seq<Op>>, version: nat, mine: Table, other: Table, cs: Option<Changeset>,
                             pending: seq<Op>, pattern: Quad -> bool, absorbed: seq<PhysicalExpr>,
                             filters: seq<DynamicFilter>, bound: Component -> bool, m: Meaning,
                             keep: Quad -> bool, c: Condition)
    requires OnlyDynamic(absorbed, filters)
    requires version < |log| && Consistent(log, mine, version) && Consistent(log, other, version)
    requires mine.version == other.version && IsOverlay(log, mine.version, version, cs, pending)
    requires c in Candidates(filters, bound) && forall q :: keep(q) ==> MatchesAll(filters, m, q)
    ensures Joined(Overlay(LookedUp(other.quads, pattern, c), cs), pattern, keep)
         == Joined(Overlay(Matching(mine.quads, pattern, absorbed, m), cs), pattern, keep)
    ensures Joined(Overlay(LookedUp(other.quads, pattern, c), cs), pattern, keep)
         == Joined(Replay(StateAt(log, version), pending), pattern, keep)
  {
    var matching, lookedUp := Matching(mine.quads, pattern, absorbed, m), LookedUp(other.quads, pattern, c);
    OverlayIsReplay(log, mine, version, cs, pending);
    OverlayIsReplay(log, other, version, cs, pending);
    forall q: Quad | pattern(q) && keep(q)
      ensures q in Overlay(lookedUp, cs) <==> q in Overlay(other.quads, cs)
      ensures q in Overlay(matching, cs) <==> q in Overlay(mine.quads, cs)
    {
      CandidatesNecessary(filters, bound, m, q);
      LookupIsCondition(c.column, c.values, q);
      OnlyDynamicIsImplied(absorbed, filters, m, q);
    }
    JoinedAgree(Overlay(lookedUp, cs), Overlay(other.quads, cs), pattern, keep);
    JoinedAgree(Overlay(matching, cs), Overlay(mine.quads, cs), pattern, keep);
  }

  /**
   In every guarded run, a scan of any snapshot that absorbed nothing but dynamic filters may
   switch among its tables of one version.
   */
  lemma EverySwitchKeepsRows(states: seq<Store>, events: seq<Event>, i: nat, id: nat, a: nat, b: nat,
                             cs: Option<Changeset>, pending: seq<Op>, pattern: Quad -> bool,
                             absorbed: seq<PhysicalExpr>, filters: seq<DynamicFilter>, bound: Component -> bool,
                             m: Meaning, keep: Quad -> bool, c: Condition)
    requires OnlyDynamic(absorbed, filters)
    requires IsGuardedRun(states, events) && i < |states|
    requires id < |states[i].snapshots| && states[i].snapshots[id].Taken?
    requires a < |states[i].snapshots[id].tables| && b < |states[i].snapshots[id].tables|
    requires states[i].snapshots[id].tables[a].version == states[i].snapshots[id].tables[b].version
    requires c in Candidates(filters, bound) && forall q :: keep(q) ==> MatchesAll(filters, m, q)
    ensures var log, snapshot := states[i].log, states[i].snapshots[id];
            var mine, other := snapshot.tables[a], snapshot.tables[b];
            && mine.version <= snapshot.version < |log|
            && (IsOverlay(log, mine.version, snapshot.version, cs, pending) ==>
                  Joined(Overlay(LookedUp(other.quads, pattern, c), cs), pattern, keep)
                  == Joined(Overlay(Matching(mine.quads, pattern, absorbed, m), cs), pattern, keep)
                  == Joined(Replay(StateAt(log, snapshot.version), pending), pattern, keep))
  {
    RunKeepsInv(states, events, i);
    var log, snapshot := states[i].log, states[i].snapshots[id];
    assert SnapshotInv(states[i], snapshot);
    if IsOverlay(log, snapshot.tables[a].version, snapshot.version, cs, pending) {
      SwitchBelowChangeset(log, snapshot.version, snapshot.tables[a], snapshot.tables[b], cs, pending,
                           pattern, absorbed, filters, bound, m, keep, c);
    }
  }

  /** The shared decision: made once, by whichever partition is polled first. */
  class QuadTableSwitch {
    var decision: Option<Decision>

    constructor ()
      ensures decision == None
    {
      decision := None;
    }

    method GetOrInit(proposal: Decision) returns (d: Decision)
      modifies this
      ensures decision == Some(d) && d == if old(decision).Some? then old(decision).value else proposal
    {
      if decision.None? {
        decision := Some(proposal);
      }
      d := decision.value;
    }
  }

  /** The rows of one partition under a decision. */
  method ExecutePartition(planned: PartitionedScan, d: Decision, partition: nat) returns (rows: seq<Quad>)
    requires partition < |planned.partitions|
    ensures rows == PartitionOf(planned, d, partition)
  {
    if d.Switched? {
      if partition < |d.scan.partitions| {
        rows := d.scan.partitions[partition];
      } else {
        rows := [];
      }
    } else {
      rows := planned.partitions[partition];
    }
  }

  function PartitionOf(planned: PartitionedScan, d: Decision, partition: nat): seq<Quad>
    requires partition < |planned.partitions|
  {
    var source := if d.Switched? then d.scan.partitions else planned.partitions;
    if partition < |source| then source[partition] else []
  }

  function AllPartitions(planned: PartitionedScan, d: Decision): seq<seq<Quad>> {
    seq(|planned.partitions|, p requires 0 <= p < |planned.partitions| => PartitionOf(planned, d, p))
  }

  lemma {:induction false} FlattenPadded<T>(ss: seq<seq<T>>, n: nat)
    ensures Flatten(ss + seq(n, _ => [])) == Flatten(ss)
  {
    if n == 0 {
      assert ss + seq(n, _ => []) == ss;
    } else {
      FlattenPadded(ss, n - 1);
      assert ss + seq(n, _ => []) == (ss + seq(n - 1, _ => [])) + [[]];
      FlattenConcat(ss + seq(n - 1, _ => []), [[]]);
      FlattenSingleton<T>([]);
    }
  }

  /** All partitions together return each row of the chosen scan once. */
  lemma PartitionsAreScan(planned: PartitionedScan, d: Decision)
    requires d.Switched? ==> |d.scan.partitions| <= |planned.partitions|
    ensures Flatten(AllPartitions(planned, d)) == Flatten(if d.Switched? then d.scan.partitions else planned.partitions)
  {
    var source := if d.Switched? then d.scan.partitions else planned.partitions;
    FlattenPadded(source, |planned.partitions| - |source|);
    assert AllPartitions(planned, d) == source + seq(|planned.partitions| - |source|, _ => []);
  }

  /**
   Executes the partitions in any order, each proposing its own decision: together they
   return the rows of one scan, never a mixture of two.
   */
  method ExecuteAll(planned: PartitionedScan, switch: QuadTableSwitch, order: seq<nat>, proposals: seq<Decision>)
    returns (out: map<nat, seq<Quad>>, d: Decision)
    requires switch.decision == None && |order| == |proposals| && 0 < |order|
    requires forall k | 0 <= k < |order| :: order[k] < |planned.partitions|
    requires forall p: nat | p < |planned.partitions| :: p in order
    requires forall k | 0 <= k < |proposals| && proposals[k].Switched? ::
        |proposals[k].scan.partitions| <= |planned.partitions|
    modifies switch
    ensures d == proposals[0]
    ensures forall p: nat :: p in out <==> p < |planned.partitions|
    ensures Flatten(seq(|planned.partitions|, p requires 0 <= p < |planned.partitions| && p in out => out[p]))
         == Flatten(if d.Switched? then d.scan.partitions else planned.partitions)
  {
    out, d := map[], proposals[0];
    for k := 0 to |order|
      invariant switch.decision == if k == 0 then None else Some(proposals[0])
      invariant d == proposals[0]
      invariant forall p: nat :: p in out <==> p in order[..k]
      invariant forall p: nat | p in out :: p < |planned.partitions| && out[p] == PartitionOf(planned, d, p)
    {
      d := switch.GetOrInit(proposals[k]);
      var rows := ExecutePartition(planned, d, order[k]);
      out := out[order[k] := rows];
    }
    assert order[..|order|] == order;
    PartitionsAreScan(planned, d);
    assert AllPartitions(planned, d)
        == seq(|planned.partitions|, p requires 0 <= p < |planned.partitions| && p in out => out[p]);
  }

  // ----- Pushing further filters into the scan

  /** The filters without user-defined functions. */
  function Pushable<F>(filters: seq<F>, udf: F -> bool): seq<F> {
    if filters == [] then []
    else
      var last := filters[|filters| - 1];
      Pushable(filters[..|filters| - 1], udf) + if udf(last) then [] else [last]
  }

  lemma {:induction false} PushablePrefix<F>(filters: seq<F>, udf: F -> bool, i: nat)
    requires i <= |filters|
    ensures Pushable(filters[..i], udf) <= Pushable(filters, udf)
  {
    if i < |filters| {
      PushablePrefix(filters[..|filters| - 1], udf, i);
      assert filters[..|filters| - 1][..i] == filters[..i];
    } else {
      assert filters[..i] == filters;
    }
  }

  lemma PushableNext<F>(filters: seq<F>, udf: F -> bool, i: nat)
    requires i < |filters|
    ensures Pushable(filters[..i + 1], udf)
         == Pushable(filters[..i], udf) + if udf(filters[i]) then [] else [filters[i]]
    ensures !udf(filters[i]) ==> var offered, k := Pushable(filters, udf), |Pushable(filters[..i], udf)|;
                                 k < |offered| && offered[k] == filters[i]
  {
    assert filters[..i + 1][..i] == filters[..i];
    PushablePrefix(filters, udf, i + 1);
    var upTo, offered, k := Pushable(filters[..i + 1], udf), Pushable(filters, udf), |Pushable(filters[..i], udf)|;
    if !udf(filters[i]) {
      assert upTo[k] == filters[i];
      assert offered[..|upTo|] == upTo;
    }
  }

  /**
   What is reported for the `i`-th filter: the answer given to it, at its place among the
   offered ones, unless it was not offered.
   */
  predicate Reported<F(==)>(filters: seq<F>, udf: F -> bool, answers: seq<PushedDown>, i: nat, report: PushedDown)
    requires i < |filters|
  {
    if udf(filters[i]) then report == No
    else
      var offered, k := Pushable(filters, udf), |Pushable(filters[..i], udf)|;
      k < |offered| == |answers| && offered[k] == filters[i] && report == answers[k]
  }

  method Distribute<F(==)>(filters: seq<F>, udf: F -> bool, answers: seq<PushedDown>) returns (r: seq<PushedDown>)
    requires |answers| == |Pushable(filters, udf)|
    ensures |r| == |filters|
    ensures forall i :: 0 <= i < |filters| ==> Reported(filters, udf, answers, i, r[i])
  {
    r := [];
    var next: nat := 0;
    for i := 0 to |filters|
      invariant |r| == i && next == |Pushable(filters[..i], udf)|
      invariant forall j :: 0 <= j < i ==> Reported(filters, udf, answers, j, r[j])
    {
      PushableNext(filters, udf, i);
      if udf(filters[i]) {
        r := r + [No];
      } else {
        r := r + [answers[next]];
        next := next + 1;
      }
    }
  }

  /**
   Offers the filters without user-defined functions to the inner scan, and reports for
   each filter what the inner scan answered for that very filter.
   */
  method HandlePushdown<F(==)>(filters: seq<F>, udf: F -> bool, inner: seq<F> -> seq<PushedDown>)
    returns (r: seq<PushedDown>)
    requires forall fs :: |inner(fs)| == |fs|
    ensures |r| == |filters|
    ensures forall i :: 0 <= i < |filters| ==> Reported(filters, udf, inner(Pushable(filters, udf)), i, r[i])
  {
    var offered := Pushable(filters, udf);
    if offered == [] {
      forall i | 0 <= i < |filters| ensures udf(filters[i]) { PushableNext(filters, udf, i); }
      r := seq(|filters|, _ => No);
    } else {
      r := Distribute(filters, udf, inner(offered));
    }
  }

  lemma {:induction false} AbsorbedMember(filters: seq<PhysicalExpr>, reports: seq<PushedDown>, f: PhysicalExpr)
    returns (i: nat)
    requires |reports| == |filters| && f in Absorbed(filters, reports)
    ensures i < |filters| && filters[i] == f && reports[i].Yes?
  {
    if reports[0].Yes? && filters[0] == f {
      i := 0;
    } else {
      i := AbsorbedMember(filters[1..], reports[1..], f);
      i := i + 1;
    }
  }

  /** What the scan absorbs through the pushdown calls no user-defined functions, and the inner scan accepted it. */
  lemma AbsorbedByPushdown(filters: seq<PhysicalExpr>, udf: PhysicalExpr -> bool, answers: seq<PushedDown>,
                           reports: seq<PushedDown>, f: PhysicalExpr)
    returns (k: nat)
    requires |reports| == |filters| && f in Absorbed(filters, reports)
    requires forall i :: 0 <= i < |filters| ==> Reported(filters, udf, answers, i, reports[i])
    ensures !udf(f) && k < |Pushable(filters, udf)| == |answers| && Pushable(filters, udf)[k] == f && answers[k].Yes?
  {
    var i := AbsorbedMember(filters, reports, f);
    assert Reported(filters, udf, answers, i, reports[i]);
    k := |Pushable(filters[..i], udf)|;
  }
}
