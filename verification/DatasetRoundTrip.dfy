/**
 Reading back what was written yields the normal form of a description: tables and files
 sorted, inexact counts dropped, and null bounds for columns that hold only nulls.
 */
module DatasetRoundTrip {
  import opened Basics
  import opened Sorting
  import opened SortOrders
  import opened Dataset

  // ----- The normal form

  function NormalNumber(v: Precision<U64>): Precision<U64> {
    if v.Exact? then v else Absent
  }

  function NormalBound(v: Precision<Scalar>, allNull: bool): Precision<Scalar> {
    var b := StringBound(v);
    if b.Some? then (if b.value.1 then Exact(Utf8(Some(b.value.0))) else Inexact(Utf8(Some(b.value.0))))
    else if allNull then Exact(Utf8(None))
    else Absent
  }

  function NormalColumn(c: ColumnStatistics, numRows: Precision<U64>): ColumnStatistics {
    var allNull := c.nullCount.Exact? && c.nullCount == numRows;
    ColumnStatistics(NormalNumber(c.nullCount), NormalBound(c.min, allNull), NormalBound(c.max, allNull), Absent)
  }

  function NormalColumns(columns: seq<ColumnStatistics>, schema: Schema,
                         numRows: Precision<U64>): seq<ColumnStatistics> {
    seq(|schema|, i requires 0 <= i < |schema| =>
      if i < |columns| then NormalColumn(columns[i], numRows) else UNKNOWN_COLUMN)
  }

  function NormalFile(f: FileDescription, schema: Schema): FileDescription {
    f.(statistics := Statistics(NormalNumber(f.statistics.numRows), NormalNumber(f.statistics.totalByteSize),
                                NormalColumns(f.statistics.columns, schema, f.statistics.numRows)))
  }

  function NormalFiles(files: seq<FileDescription>, schema: Schema): seq<FileDescription> {
    seq(|files|, i requires 0 <= i < |files| => NormalFile(files[i], schema))
  }

  function NormalTable(t: TableDescription, schema: Schema): TableDescription {
    t.(files := Sort(PathLess(), NormalFiles(t.files, schema)))
  }

  function NormalTables(tables: seq<TableDescription>, schema: Schema): seq<TableDescription> {
    seq(|tables|, i requires 0 <= i < |tables| => NormalTable(tables[i], schema))
  }

  function Normal(d: DatasetDescription, schema: Schema): DatasetDescription {
    DatasetDescription(d.encoding, Sort(DirectoryLess(), NormalTables(d.tables, schema)))
  }

  ghost predicate DistinctPaths(files: seq<FileDescription>) {
    forall i, j :: 0 <= i < j < |files| ==> files[i].path != files[j].path
  }

  ghost predicate DistinctDirectories(tables: seq<TableDescription>) {
    forall i, j :: 0 <= i < j < |tables| ==> tables[i].directory != tables[j].directory
  }

  /** Directories and paths are distinct and not empty, and sort orders can be printed. */
  ghost predicate WellFormed(d: DatasetDescription) {
    && DistinctDirectories(d.tables)
    && DistinctPaths(AllFiles(d.tables, |d.tables|))
    && (forall t | t in d.tables :: t.directory != "" && (t.sortOrder.Some? ==> IsValidOrder(t.sortOrder.value)))
    && (forall f | f in AllFiles(d.tables, |d.tables|) :: f.path != "")
  }

  // ----- Order of strings

  lemma {:induction false} StringLessOrder(a: string, b: string, c: string)
    ensures !StringLess(a, a)
    ensures StringLess(a, b) && StringLess(b, c) ==> StringLess(a, c)
    ensures StringLess(a, c) ==> StringLess(a, b) || StringLess(b, c)
    decreases |a| + |b| + |c|
  {
    if a != [] {
      StringLessOrder(a[1..], if b == [] then [] else b[1..], if c == [] then [] else c[1..]);
    }
  }

  lemma {:induction false} StringLessTotal(a: string, b: string)
    ensures a == b || StringLess(a, b) || StringLess(b, a)
  {
    if a != [] && b != [] && a[0] == b[0] {
      StringLessTotal(a[1..], b[1..]);
      assert a == [a[0]] + a[1..] && b == [b[0]] + b[1..];
    }
  }

  lemma PathOrder()
    ensures StrictWeakOrder(PathLess())
  {
    forall a, b, c
      ensures !PathLess()(a, a)
      ensures PathLess()(a, b) && PathLess()(b, c) ==> PathLess()(a, c)
      ensures PathLess()(a, c) ==> PathLess()(a, b) || PathLess()(b, c)
    {
      StringLessOrder(a.path, b.path, c.path);
    }
  }

  lemma DirectoryOrder()
    ensures StrictWeakOrder(DirectoryLess())
  {
    forall a, b, c
      ensures !DirectoryLess()(a, a)
      ensures DirectoryLess()(a, b) && DirectoryLess()(b, c) ==> DirectoryLess()(a, c)
      ensures DirectoryLess()(a, c) ==> DirectoryLess()(a, b) || DirectoryLess()(b, c)
    {
      StringLessOrder(a.directory, b.directory, c.directory);
    }
  }

  ghost predicate Comparable<T(!new)>(less: (T, T) -> bool, s: set<T>) {
    forall x, y | x in s && y in s :: x == y || less(x, y) || less(y, x)
  }

  lemma EmptyOrFirst<T>(s: seq<T>)
    ensures s == [] || s[0] in s
  {
  }

  lemma {:induction false} StrictlySortedEqual<T(!new)>(less: (T, T) -> bool, a: seq<T>, b: seq<T>)
    requires StrictWeakOrder(less) && StrictlySorted(less, a) && StrictlySorted(less, b)
    requires forall x :: x in a <==> x in b
    ensures a == b
  {
    EmptyOrFirst(b);
    if a != [] {
      assert a[0] in b;
      var j :| 0 <= j < |b| && b[j] == a[0];
      assert b[0] in a;
      var i :| 0 <= i < |a| && a[i] == b[0];
      assert a[0] == b[0];
      assert a == [a[0]] + a[1..] && b == [b[0]] + b[1..];
      forall x ensures x in a[1..] <==> x in b[1..] {
        assert x in a[1..] <==> x in a && x != a[0];
        assert x in b[1..] <==> x in b && x != b[0];
      }
      StrictlySortedEqual(less, a[1..], b[1..]);
    }
  }

  lemma SortStrict<T(!new)>(less: (T, T) -> bool, s: seq<T>)
    requires StrictWeakOrder(less) && Distinct(s) && Comparable(less, ToSet(s))
    ensures StrictlySorted(less, Sort(less, s)) && forall x :: x in Sort(less, s) <==> x in s
  {
    SortSpec(less, s);
    var r := Sort(less, s);
    SameElements(r, s);
    assert forall x :: x in r <==> x in ToSet(r);
    assert forall x :: x in s <==> x in ToSet(s);
    DistinctIffCount(s);
    DistinctIffCount(r);
    forall i, j | 0 <= i < j < |r| ensures less(r[i], r[j]) {
      assert r[i] in ToSet(s) && r[j] in ToSet(s);
    }
  }

  /** Sorting the same elements gives the same sequence, whatever order they come in. */
  lemma SortUnique<T(!new)>(less: (T, T) -> bool, a: seq<T>, b: seq<T>)
    requires StrictWeakOrder(less) && Distinct(a) && Distinct(b) && ToSet(a) == ToSet(b) && Comparable(less, ToSet(a))
    ensures Sort(less, a) == Sort(less, b)
  {
    SortStrict(less, a);
    SortStrict(less, b);
    forall x ensures x in Sort(less, a) <==> x in Sort(less, b) {
      assert x in a <==> x in ToSet(a);
      assert x in b <==> x in ToSet(b);
    }
    StrictlySortedEqual(less, Sort(less, a), Sort(less, b));
  }

  // ----- Lookups

  lemma SingleLiteral(r: Reader, s: Term, p: Property, x: string)
    requires IsEnumeration(r.enumerate) && Objects(r.graph, s, p) == {Literal(x)}
    ensures LiteralOf(r, s, p) == Some(x)
  {
    var objects := (r.enumerate)(Objects(r.graph, s, p));
    assert Literal(x) in objects;
    assert objects[0] in objects;
  }

  lemma NoObject(r: Reader, s: Term, p: Property)
    requires IsEnumeration(r.enumerate) && Objects(r.graph, s, p) == {}
    ensures LiteralOf(r, s, p) == None && NodesOf(r, s, p) == []
  {
    var objects := (r.enumerate)(Objects(r.graph, s, p));
    EmptyOrFirst(objects);
  }

  /** Looking up a literal of which at most one was written. */
  lemma LookUpLiteral(r: Reader, s: Term, p: Property, found: set<Term>, x: Option<string>)
    requires IsEnumeration(r.enumerate) && Objects(r.graph, s, p) == found
    requires found == AsObjects(x)
    ensures LiteralOf(r, s, p) == x
  {
    if x.Some? {
      SingleLiteral(r, s, p, x.value);
    } else {
      NoObject(r, s, p);
    }
  }

  /** Looking up nodes yields exactly those that were written, each once. */
  lemma LookUpNodes(r: Reader, s: Term, p: Property, found: set<Term>)
    requires IsEnumeration(r.enumerate) && Objects(r.graph, s, p) == found
    requires forall t | t in found :: !t.Literal?
    ensures Distinct(NodesOf(r, s, p)) && forall t :: t in NodesOf(r, s, p) <==> t in found
  {
    var objects := (r.enumerate)(Objects(r.graph, s, p));
    FilterDistinct((t: Term) => !t.Literal?, objects);
    forall t ensures t in NodesOf(r, s, p) <==> t in found {
      assert t in objects <==> t in found;
    }
  }

  // ----- What is written where

  function Level(p: Property): nat {
    match p
    case FormatVersion | Encoding | QuadTable => 0
    case SortOrder | File => 1
    case SizeInBytes | WrittenAt | NumRows | TotalByteSize | ColumnStats => 2
    case _ => 3
  }

  lemma PropertyShape(blank: Term, c: ColumnStatistics)
    ensures forall t | t in PropertyTriples(blank, c) :: t.subj == blank && Level(t.prop) == 3 && t.prop != ColumnName
  {
  }

  lemma ColumnShape(node: Term, blank: Term, name: string, c: ColumnStatistics)
    ensures forall t | t in ColumnTriples(node, blank, name, c) ::
              (t.subj == node && t.prop == ColumnStats) || (t.subj == blank && Level(t.prop) == 3)
  {
    PropertyShape(blank, c);
  }

  lemma ColumnsShape(node: Term, k: nat, schema: Schema, columns: seq<ColumnStatistics>)
    ensures forall t | t in ColumnsTriples(node, k, schema, columns) ::
              (t.subj == node && t.prop == ColumnStats) || (t.subj.Blank? && t.subj.file == k && Level(t.prop) == 3)
  {
    var parts := ColumnParts(node, k, schema, columns);
    forall t | t in ColumnsTriples(node, k, schema, columns)
      ensures (t.subj == node && t.prop == ColumnStats) || (t.subj.Blank? && t.subj.file == k && Level(t.prop) == 3)
    {
      JoinMember(parts, |parts|, t);
      var i :| 0 <= i < |parts| && t in parts[i];
      ColumnShape(node, Blank(k, i), schema[i], columns[i]);
    }
  }

  lemma FileShape(directory: string, f: FileDescription, k: nat, schema: Schema, show: int -> string)
    ensures forall t | t in FileTriples(directory, f, k, schema, show) ::
              (t.subj == Resolve(directory, f.path) && Level(t.prop) == 2)
                || (t.subj.Blank? && t.subj.file == k && Level(t.prop) == 3)
  {
    var node := Resolve(directory, f.path);
    var head, rest := FileHead(node, f, show), ColumnsTriples(node, k, schema, f.statistics.columns);
    FileHeadShape(node, f, show);
    ColumnsShape(node, k, schema, f.statistics.columns);
    forall t | t in FileTriples(directory, f, k, schema, show) ensures t in head || t in rest {
      assert FileTriples(directory, f, k, schema, show) == head + rest;
    }
  }

  lemma {:induction false} TableLinksShape(base: string, tables: seq<TableDescription>, n: nat)
    requires n <= |tables|
    ensures forall t | t in TableLinks(base, tables, n) :: t.prop == QuadTable
  {
    if n > 0 {
      TableLinksShape(base, tables, n - 1);
    }
  }

  lemma {:induction false} FileLinksShape(directory: string, table: TableDescription, n: nat)
    requires n <= |table.files|
    ensures forall t | t in FileLinks(directory, table, n) ::
        t.subj == Resolve(directory, table.directory) && t.prop == File
  {
    if n > 0 {
      FileLinksShape(directory, table, n - 1);
    }
  }

  lemma TableShape(directory: string, table: TableDescription)
    ensures forall t | t in TableTriples(directory, table) ::
        t.subj == Resolve(directory, table.directory) && Level(t.prop) == 1
  {
    FileLinksShape(directory, table, |table.files|);
  }

  lemma TablesLevel(directory: string, tables: seq<TableDescription>, t: Triple)
    requires t in TablesTriples(directory, tables)
    ensures Level(t.prop) == 1
  {
    var parts := TableParts(directory, tables);
    JoinMember(parts, |parts|, t);
    var i :| 0 <= i < |parts| && t in parts[i];
    TableShape(directory, tables[i]);
  }

  lemma FilesLevel(directory: string, files: seq<FileDescription>, schema: Schema, show: int -> string, t: Triple)
    requires t in FilesTriples(directory, files, schema, show)
    ensures Level(t.prop) >= 2
  {
    var parts := FileParts(directory, files, schema, show);
    JoinMember(parts, |parts|, t);
    var k :| 0 <= k < |parts| && t in parts[k];
    FileShape(directory, files[k], k, schema, show);
  }

  /** The subject belongs to the `k`-th file, and the property may be asked of it. */
  ghost predicate BelongsTo(directory: string, files: seq<FileDescription>, k: nat, s: Term, p: Property)
    requires k < |files|
  {
    (s == Resolve(directory, files[k].path) && Level(p) == 2) || (s.Blank? && s.file == k && Level(p) == 3)
  }

  lemma NotInOtherFile(directory: string, files: seq<FileDescription>, k: nat, j: nat, s: Term, p: Property,
                       schema: Schema, show: int -> string)
    requires DistinctPaths(files) && k < |files| && j < |files| && j != k && BelongsTo(directory, files, k, s, p)
    ensures Found(FileTriples(directory, files[j], j, schema, show), s, p) == {}
  {
    FileShape(directory, files[j], j, schema, show);
    ResolveInjective(directory, files[j].path, files[k].path);
    NothingFound(FileTriples(directory, files[j], j, schema, show), s, p);
  }

  /** What is written about a file is found among its own triples. */
  lemma FilesFound(directory: string, files: seq<FileDescription>, k: nat, s: Term, p: Property, schema: Schema,
                   show: int -> string)
    requires DistinctPaths(files) && k < |files| && BelongsTo(directory, files, k, s, p)
    ensures Found(FilesTriples(directory, files, schema, show), s, p)
        == Found(FileTriples(directory, files[k], k, schema, show), s, p)
  {
    var parts := FileParts(directory, files, schema, show);
    forall j | 0 <= j < |files| && j != k ensures Found(parts[j], s, p) == {} {
      NotInOtherFile(directory, files, k, j, s, p, schema, show);
    }
    FoundInPart(parts, |files|, k, s, p);
  }

  lemma TablesFound(directory: string, tables: seq<TableDescription>, k: nat, p: Property)
    requires DistinctDirectories(tables) && k < |tables|
    ensures var s := Resolve(directory, tables[k].directory);
            Found(TablesTriples(directory, tables), s, p) == Found(TableTriples(directory, tables[k]), s, p)
  {
    var parts, s := TableParts(directory, tables), Resolve(directory, tables[k].directory);
    forall j | 0 <= j < |tables| && j != k ensures Found(parts[j], s, p) == {} {
      TableShape(directory, tables[j]);
      ResolveInjective(directory, tables[j].directory, tables[k].directory);
      NothingFound(parts[j], s, p);
    }
    FoundInPart(parts, |tables|, k, s, p);
  }

  /** In the whole description, a property is found in the part of its level. */
  lemma DatasetFound(base: string, d: DatasetDescription, schema: Schema, show: int -> string, s: Term, p: Property)
    ensures Found(DatasetTriples(base, d, schema, show), s, p) ==
            if Level(p) == 0 then Found(HeaderTriples(base, d), s, p)
            else if Level(p) == 1 then Found(TablesTriples(DirectoryOf(base), d.tables), s, p)
            else Found(FilesTriples(DirectoryOf(base), AllFiles(d.tables, |d.tables|), schema, show), s, p)
  {
    var files := AllFiles(d.tables, |d.tables|);
    var header, tables, rest := HeaderTriples(base, d), TablesTriples(DirectoryOf(base), d.tables),
                                FilesTriples(DirectoryOf(base), files, schema, show);
    HeaderLevel(base, d);
    forall t | t in tables ensures Level(t.prop) == 1 { TablesLevel(DirectoryOf(base), d.tables, t); }
    forall t | t in rest ensures Level(t.prop) >= 2 { FilesLevel(DirectoryOf(base), files, schema, show, t); }
    FoundByLevel(header, tables, rest, s, p);
  }

  lemma HeaderLevel(base: string, d: DatasetDescription)
    ensures forall t | t in HeaderTriples(base, d) :: Level(t.prop) == 0
  {
    TableLinksShape(base, d.tables, |d.tables|);
  }

  lemma FoundByLevel(a: seq<Triple>, b: seq<Triple>, c: seq<Triple>, s: Term, p: Property)
    requires forall t | t in a :: Level(t.prop) == 0
    requires forall t | t in b :: Level(t.prop) == 1
    requires forall t | t in c :: Level(t.prop) >= 2
    ensures Found(a + b + c, s, p) ==
            if Level(p) == 0 then Found(a, s, p) else if Level(p) == 1 then Found(b, s, p) else Found(c, s, p)
  {
    ThreeParts(a, b, c, s, p);
    OtherLevel(a, s, p);
    OtherLevel(b, s, p);
    OtherLevel(c, s, p);
  }

  lemma OtherLevel(ts: seq<Triple>, s: Term, p: Property)
    ensures (forall t | t in ts :: Level(t.prop) != Level(p)) ==> Found(ts, s, p) == {}
  {
    if forall t | t in ts :: Level(t.prop) != Level(p) {
      NothingFound(ts, s, p);
    }
  }

  lemma ThreeParts(a: seq<Triple>, b: seq<Triple>, c: seq<Triple>, s: Term, p: Property)
    ensures Found(a + b + c, s, p) == Found(a, s, p) + Found(b, s, p) + Found(c, s, p)
  {
    FoundConcat(a + b, c, s, p);
    FoundConcat(a, b, s, p);
  }

  // ----- Reading a column

  function ShownNumber(v: Precision<U64>): Option<string> {
    if v.Exact? then Some(ShowNat(v.value)) else None
  }

  function ShownBound(v: Precision<Scalar>): Option<string> {
    if StringBound(v).Some? then Some(StringBound(v).value.0) else None
  }

  function ShownExact(v: Precision<Scalar>): Option<string> {
    if StringBound(v).Some? then Some(ShowBool(StringBound(v).value.1)) else None
  }

  function AsObjects(x: Option<string>): set<Term> {
    if x.Some? then {Literal(x.value)} else {}
  }

  lemma FoundOne(t: Triple, s: Term, p: Property)
    ensures Found([t], s, p) == if t.subj == s && t.prop == p then {t.obj} else {}
  {
    assert [t][1..] == [];
  }

  lemma NumberFound(s: Term, q: Property, v: Precision<U64>, p: Property)
    ensures Found(NumberTriple(s, q, v), s, p) == if p == q then AsObjects(ShownNumber(v)) else {}
  {
    if v.Exact? {
      FoundOne(Triple(s, q, Literal(ShowNat(v.value))), s, p);
    }
  }

  lemma BoundFound(s: Term, q: Property, exact: Property, v: Precision<Scalar>, p: Property)
    requires q != exact
    ensures Found(BoundTriples(s, q, exact, v), s, p)
         == if p == q then AsObjects(ShownBound(v)) else if p == exact then AsObjects(ShownExact(v)) else {}
  {
    var b := StringBound(v);
    if b.Some? {
      var x, y := Triple(s, q, Literal(b.value.0)), Triple(s, exact, Literal(ShowBool(b.value.1)));
      FoundConcat([x], [y], s, p);
      FoundOne(x, s, p);
      FoundOne(y, s, p);
      assert BoundTriples(s, q, exact, v) == [x] + [y];
    }
  }

  /** What is written about a column under a property. */
  function ColumnObject(c: ColumnStatistics, name: string, p: Property): Option<string> {
    match p
    case ColumnName => Some(name)
    case NullCount => ShownNumber(c.nullCount)
    case MinValue => ShownBound(c.min)
    case MinValueExact => ShownExact(c.min)
    case MaxValue => ShownBound(c.max)
    case MaxValueExact => ShownExact(c.max)
    case _ => None
  }

  lemma PropertiesFound(s: Term, c: ColumnStatistics, p: Property)
    requires Level(p) == 3 && p != ColumnName
    ensures Found(PropertyTriples(s, c), s, p) == AsObjects(ColumnObject(c, "", p))
  {
    var number, min, max := NumberTriple(s, NullCount, c.nullCount), BoundTriples(s, MinValue, MinValueExact, c.min),
                            BoundTriples(s, MaxValue, MaxValueExact, c.max);
    FoundConcat(number + min, max, s, p);
    FoundConcat(number, min, s, p);
    NumberFound(s, NullCount, c.nullCount, p);
    BoundFound(s, MinValue, MinValueExact, c.min, p);
    BoundFound(s, MaxValue, MaxValueExact, c.max, p);
  }

  lemma ColumnFound(node: Term, blank: Term, name: string, c: ColumnStatistics, p: Property)
    requires Level(p) == 3 && node != blank && PropertyTriples(blank, c) != []
    ensures Found(ColumnTriples(node, blank, name, c), blank, p) == AsObjects(ColumnObject(c, name, p))
  {
    var x, y := Triple(node, ColumnStats, blank), Triple(blank, ColumnName, Literal(name));
    FoundConcat([x, y], PropertyTriples(blank, c), blank, p);
    FoundConcat([x], [y], blank, p);
    assert [x, y] == [x] + [y];
    FoundOne(x, blank, p);
    FoundOne(y, blank, p);
    if p == ColumnName {
      PropertyShape(blank, c);
      NothingFound(PropertyTriples(blank, c), blank, p);
    } else {
      PropertiesFound(blank, c, p);
    }
  }

  lemma ColumnsFound(node: Term, k: nat, schema: Schema, columns: seq<ColumnStatistics>, i: nat, p: Property)
    requires i < Zipped(schema, columns) && Level(p) == 3 && !node.Blank?
    requires PropertyTriples(Blank(k, i), columns[i]) != []
    ensures Found(ColumnsTriples(node, k, schema, columns), Blank(k, i), p)
        == AsObjects(ColumnObject(columns[i], schema[i], p))
  {
    var parts := ColumnParts(node, k, schema, columns);
    forall j | 0 <= j < |parts| && j != i ensures Found(parts[j], Blank(k, i), p) == {} {
      OtherColumnFound(node, Blank(k, j), Blank(k, i), schema[j], columns[j], p);
    }
    FoundInPart(parts, |parts|, i, Blank(k, i), p);
    ColumnFound(node, Blank(k, i), schema[i], columns[i], p);
  }

  lemma OtherColumnFound(node: Term, blank: Term, other: Term, name: string, c: ColumnStatistics, p: Property)
    requires other != blank && other != node
    ensures Found(ColumnTriples(node, blank, name, c), other, p) == {}
  {
    NothingFound(ColumnTriples(node, blank, name, c), other, p);
  }

  lemma ColumnNodeFound(node: Term, blank: Term, name: string, c: ColumnStatistics)
    requires node != blank
    ensures Found(ColumnTriples(node, blank, name, c), node, ColumnStats)
         == if PropertyTriples(blank, c) == [] then {} else {blank}
  {
    if PropertyTriples(blank, c) != [] {
      var x := Triple(node, ColumnStats, blank);
      var rest := [Triple(blank, ColumnName, Literal(name))] + PropertyTriples(blank, c);
      assert ColumnTriples(node, blank, name, c) == [x] + rest;
      FoundConcat([x], rest, node, ColumnStats);
      FoundOne(x, node, ColumnStats);
      NoColumnNode(rest, node, blank, name, c);
    }
  }

  lemma NoColumnNode(rest: seq<Triple>, node: Term, blank: Term, name: string, c: ColumnStatistics)
    requires rest == [Triple(blank, ColumnName, Literal(name))] + PropertyTriples(blank, c)
    ensures Found(rest, node, ColumnStats) == {}
  {
    PropertyShape(blank, c);
    NothingFound(rest, node, ColumnStats);
  }

  /** A node with statistics of a column of the `k`-th file. */
  ghost predicate IsColumnNode(k: nat, schema: Schema, columns: seq<ColumnStatistics>, t: Term) {
    t.Blank? && t.file == k && t.column < Zipped(schema, columns) && PropertyTriples(t, columns[t.column]) != []
  }

  lemma {:induction false} NodesInJoin(parts: seq<seq<Triple>>, n: nat, s: Term, p: Property, t: Term)
    requires n <= |parts|
    ensures t in Found(Join(parts, n), s, p) <==> exists j :: 0 <= j < n && t in Found(parts[j], s, p)
  {
    if n > 0 {
      NodesInJoin(parts, n - 1, s, p, t);
      var before, last := Join(parts, n - 1), parts[n - 1];
      FoundConcat(before, last, s, p);
      assert t in Found(Join(parts, n), s, p) <==> t in Found(before, s, p) || t in Found(last, s, p);
    }
  }

  /** The statistics nodes of a file: those of the columns that have any. */
  lemma ColumnNodesFound(node: Term, k: nat, schema: Schema, columns: seq<ColumnStatistics>, t: Term)
    requires !node.Blank?
    ensures t in Found(ColumnsTriples(node, k, schema, columns), node, ColumnStats)
        <==> IsColumnNode(k, schema, columns, t)
  {
    var parts := ColumnParts(node, k, schema, columns);
    NodesInJoin(parts, |parts|, node, ColumnStats, t);
    forall j | 0 <= j < |parts|
      ensures Found(parts[j], node, ColumnStats)
           == if PropertyTriples(Blank(k, j), columns[j]) == [] then {} else {Blank(k, j)}
    {
      ColumnNodeFound(node, Blank(k, j), schema[j], columns[j]);
    }
    if IsColumnNode(k, schema, columns, t) {
      assert t == Blank(k, t.column);
      assert t in Found(parts[t.column], node, ColumnStats);
    }
  }

  /** The graph holds the triples of one file where this file's reader looks. */
  ghost predicate HoldsFile(r: Reader, f: FileDescription, k: nat, schema: Schema, show: int -> string) {
    && IsEnumeration(r.enumerate)
    && (forall p | Level(p) == 2 ::
          Objects(r.graph, Resolve(r.directory, f.path), p)
          == Found(FileTriples(r.directory, f, k, schema, show), Resolve(r.directory, f.path), p))
    && (forall i, p | Level(p) == 3 ::
          Objects(r.graph, Blank(k, i), p) == Found(FileTriples(r.directory, f, k, schema, show), Blank(k, i), p))
  }

  lemma FileHeadShape(node: Term, f: FileDescription, show: int -> string)
    ensures forall t | t in FileHead(node, f, show) :: t.subj == node && Level(t.prop) == 2 && t.prop != ColumnStats
  {
  }

  lemma FileBlankFound(directory: string, f: FileDescription, k: nat, schema: Schema, show: int -> string, i: nat,
                       p: Property)
    requires i < Zipped(schema, f.statistics.columns) && Level(p) == 3
    requires PropertyTriples(Blank(k, i), f.statistics.columns[i]) != []
    ensures Found(FileTriples(directory, f, k, schema, show), Blank(k, i), p)
         == AsObjects(ColumnObject(f.statistics.columns[i], schema[i], p))
  {
    var node := Resolve(directory, f.path);
    FoundConcat(FileHead(node, f, show), ColumnsTriples(node, k, schema, f.statistics.columns), Blank(k, i), p);
    FileHeadShape(node, f, show);
    NothingFound(FileHead(node, f, show), Blank(k, i), p);
    ColumnsFound(node, k, schema, f.statistics.columns, i, p);
  }

  lemma ColumnLiteral(r: Reader, f: FileDescription, k: nat, schema: Schema, show: int -> string, i: nat, p: Property)
    requires HoldsFile(r, f, k, schema, show) && i < Zipped(schema, f.statistics.columns) && Level(p) == 3
    requires PropertyTriples(Blank(k, i), f.statistics.columns[i]) != []
    ensures LiteralOf(r, Blank(k, i), p) == ColumnObject(f.statistics.columns[i], schema[i], p)
  {
    FileBlankFound(r.directory, f, k, schema, show, i, p);
    var x := ColumnObject(f.statistics.columns[i], schema[i], p);
    LookUpLiteral(r, Blank(k, i), p, AsObjects(x), x);
  }

  function ExactNumber(v: Precision<U64>): Option<U64> {
    if v.Exact? then Some(v.value) else None
  }

  lemma NumberRead(r: Reader, s: Term, p: Property, v: Precision<U64>)
    requires LiteralOf(r, s, p) == ShownNumber(v)
    ensures NumberOf(r, s, p) == Ok(ExactNumber(v))
  {
    if v.Exact? {
      NumberRoundTrip(v.value);
    }
  }

  lemma BoundRead(r: Reader, s: Term, p: Property, exact: Property, v: Precision<Scalar>, allNull: bool)
    requires LiteralOf(r, s, p) == ShownBound(v) && LiteralOf(r, s, exact) == ShownExact(v)
    ensures BoundOf(r, s, p, exact, allNull) == NormalBound(v, allNull)
  {
    assert "true"[0] != "false"[0];
  }

  lemma MinRead(r: Reader, f: FileDescription, k: nat, schema: Schema, show: int -> string, i: nat, allNull: bool)
    requires HoldsFile(r, f, k, schema, show) && i < Zipped(schema, f.statistics.columns)
    requires PropertyTriples(Blank(k, i), f.statistics.columns[i]) != []
    ensures BoundOf(r, Blank(k, i), MinValue, MinValueExact, allNull)
        == NormalBound(f.statistics.columns[i].min, allNull)
  {
    ColumnLiteral(r, f, k, schema, show, i, MinValue);
    ColumnLiteral(r, f, k, schema, show, i, MinValueExact);
    BoundRead(r, Blank(k, i), MinValue, MinValueExact, f.statistics.columns[i].min, allNull);
  }

  lemma MaxRead(r: Reader, f: FileDescription, k: nat, schema: Schema, show: int -> string, i: nat, allNull: bool)
    requires HoldsFile(r, f, k, schema, show) && i < Zipped(schema, f.statistics.columns)
    requires PropertyTriples(Blank(k, i), f.statistics.columns[i]) != []
    ensures BoundOf(r, Blank(k, i), MaxValue, MaxValueExact, allNull)
        == NormalBound(f.statistics.columns[i].max, allNull)
  {
    ColumnLiteral(r, f, k, schema, show, i, MaxValue);
    ColumnLiteral(r, f, k, schema, show, i, MaxValueExact);
    BoundRead(r, Blank(k, i), MaxValue, MaxValueExact, f.statistics.columns[i].max, allNull);
  }

  lemma AllNullRead(nullCount: Precision<U64>, numRows: Precision<U64>)
    ensures (nullCount.Exact? && nullCount == numRows)
        == (ExactNumber(nullCount).Some? && ExactNumber(nullCount) == ExactNumber(numRows))
  {
  }

  /** Reading the statistics node of a column yields the column's normal form. */
  lemma ColumnRead(r: Reader, f: FileDescription, k: nat, schema: Schema, show: int -> string, i: nat)
    requires HoldsFile(r, f, k, schema, show) && i < Zipped(schema, f.statistics.columns)
    requires PropertyTriples(Blank(k, i), f.statistics.columns[i]) != []
    ensures LiteralOf(r, Blank(k, i), ColumnName) == Some(schema[i])
    ensures NumberOf(r, Blank(k, i), NullCount) == Ok(ExactNumber(f.statistics.columns[i].nullCount))
    ensures ColumnFrom(r, Blank(k, i), ExactNumber(f.statistics.columns[i].nullCount),
                       ExactNumber(f.statistics.numRows))
         == NormalColumn(f.statistics.columns[i], f.statistics.numRows)
  {
    var nullCount, rows := f.statistics.columns[i].nullCount, f.statistics.numRows;
    ColumnLiteral(r, f, k, schema, show, i, ColumnName);
    ColumnLiteral(r, f, k, schema, show, i, NullCount);
    NumberRead(r, Blank(k, i), NullCount, nullCount);
    AllNullRead(nullCount, rows);
    MinRead(r, f, k, schema, show, i, nullCount.Exact? && nullCount == rows);
    MaxRead(r, f, k, schema, show, i, nullCount.Exact? && nullCount == rows);
  }

  lemma {:induction false} IndexOfDistinct(schema: Schema, i: nat)
    requires Distinct(schema) && i < |schema|
    ensures IndexOf(schema, schema[i]) == Some(i)
  {
    if i > 0 {
      IndexOfDistinct(schema[1..], i - 1);
    }
  }

  lemma StepRead(r: Reader, f: FileDescription, k: nat, schema: Schema, show: int -> string, t: Term,
                 columns: seq<ColumnStatistics>)
    requires HoldsFile(r, f, k, schema, show) && Distinct(schema) && |columns| == |schema|
    requires IsColumnNode(k, schema, f.statistics.columns, t)
    ensures StepColumn(r, t, schema, ExactNumber(f.statistics.numRows), columns)
         == Ok(columns[t.column := NormalColumn(f.statistics.columns[t.column], f.statistics.numRows)])
  {
    assert t == Blank(k, t.column);
    ColumnRead(r, f, k, schema, show, t.column);
    IndexOfDistinct(schema, t.column);
  }

  /** The columns after reading some nodes: normal where there was a node, unknown elsewhere. */
  lemma {:induction false} ColumnsRead(r: Reader, f: FileDescription, k: nat, schema: Schema, show: int -> string,
                                       nodes: seq<Term>)
    requires HoldsFile(r, f, k, schema, show) && Distinct(schema)
    requires forall t | t in nodes :: IsColumnNode(k, schema, f.statistics.columns, t)
    ensures var columns := ReadColumns(r, nodes, schema, ExactNumber(f.statistics.numRows));
            columns.Ok? && forall i: nat | i < |schema| ::
              columns.value[i] ==
              if Blank(k, i) in nodes && i < |f.statistics.columns|
              then NormalColumn(f.statistics.columns[i], f.statistics.numRows) else UNKNOWN_COLUMN
  {
    if nodes != [] {
      var init, last := nodes[..|nodes| - 1], nodes[|nodes| - 1];
      assert nodes == init + [last];
      assert last in nodes;
      assert forall t | t in init :: t in nodes;
      ColumnsRead(r, f, k, schema, show, init);
      StepRead(r, f, k, schema, show, last, ReadColumns(r, init, schema, ExactNumber(f.statistics.numRows)).value);
    }
  }

  lemma NothingWrittenIsUnknown(blank: Term, c: ColumnStatistics, numRows: Precision<U64>)
    requires PropertyTriples(blank, c) == []
    ensures NormalColumn(c, numRows) == UNKNOWN_COLUMN
  {
    assert NumberTriple(blank, NullCount, c.nullCount) == [];
    assert BoundTriples(blank, MinValue, MinValueExact, c.min) == [];
    assert BoundTriples(blank, MaxValue, MaxValueExact, c.max) == [];
  }

  lemma StatisticsNodes(r: Reader, f: FileDescription, k: nat, schema: Schema, show: int -> string)
    requires HoldsFile(r, f, k, schema, show)
    ensures forall t ::
              t in NodesOf(r, Resolve(r.directory, f.path), ColumnStats)
              <==> IsColumnNode(k, schema, f.statistics.columns, t)
  {
    var node, columns := Resolve(r.directory, f.path), f.statistics.columns;
    var head, rest := FileHead(node, f, show), ColumnsTriples(node, k, schema, columns);
    FoundConcat(head, rest, node, ColumnStats);
    FileHeadShape(node, f, show);
    NothingFound(head, node, ColumnStats);
    var found := Found(rest, node, ColumnStats);
    forall t ensures t in found <==> IsColumnNode(k, schema, columns, t) {
      ColumnNodesFound(node, k, schema, columns, t);
    }
    LookUpNodes(r, node, ColumnStats, found);
  }

  lemma FileColumnsRead(r: Reader, f: FileDescription, k: nat, schema: Schema, show: int -> string)
    requires HoldsFile(r, f, k, schema, show) && Distinct(schema)
    ensures ReadColumns(r, NodesOf(r, Resolve(r.directory, f.path), ColumnStats), schema,
                        ExactNumber(f.statistics.numRows))
         == Ok(NormalColumns(f.statistics.columns, schema, f.statistics.numRows))
  {
    StatisticsNodes(r, f, k, schema, show);
    var nodes := NodesOf(r, Resolve(r.directory, f.path), ColumnStats);
    ColumnsRead(r, f, k, schema, show, nodes);
    ColumnsAreNormal(ReadColumns(r, nodes, schema, ExactNumber(f.statistics.numRows)).value, f.statistics.columns,
                     schema, f.statistics.numRows, k, nodes);
  }

  lemma ColumnsAreNormal(got: seq<ColumnStatistics>, columns: seq<ColumnStatistics>, schema: Schema,
                         numRows: Precision<U64>, k: nat, nodes: seq<Term>)
    requires |got| == |schema| && forall t :: t in nodes <==> IsColumnNode(k, schema, columns, t)
    requires forall i: nat | i < |schema| ::
               got[i] ==
               if Blank(k, i) in nodes && i < |columns| then NormalColumn(columns[i], numRows) else UNKNOWN_COLUMN
    ensures got == NormalColumns(columns, schema, numRows)
  {
    forall i: nat | i < |schema| ensures got[i] == NormalColumns(columns, schema, numRows)[i] {
      if i < |columns| && Blank(k, i) !in nodes {
        assert !IsColumnNode(k, schema, columns, Blank(k, i));
        NothingWrittenIsUnknown(Blank(k, i), columns[i], numRows);
      }
    }
  }

  // ----- Reading a file

  function FileObject(f: FileDescription, show: int -> string, p: Property): Option<string> {
    match p
    case SizeInBytes => Some(ShowNat(f.size))
    case WrittenAt => if f.writtenAt.Some? then Some(show(f.writtenAt.value)) else None
    case NumRows => ShownNumber(f.statistics.numRows)
    case TotalByteSize => ShownNumber(f.statistics.totalByteSize)
    case _ => None
  }

  lemma FileHeadFound(node: Term, f: FileDescription, show: int -> string, p: Property)
    requires Level(p) == 2 && p != ColumnStats
    ensures Found(FileHead(node, f, show), node, p) == AsObjects(FileObject(f, show, p))
  {
    var size := [Triple(node, SizeInBytes, Literal(ShowNat(f.size)))];
    var time := if f.writtenAt.Some? then [Triple(node, WrittenAt, Literal(show(f.writtenAt.value)))] else [];
    var rows, bytes := NumberTriple(node, NumRows, f.statistics.numRows),
                       NumberTriple(node, TotalByteSize, f.statistics.totalByteSize);
    TextFound(size, node, SizeInBytes, FileObject(f, show, SizeInBytes), p);
    TextFound(time, node, WrittenAt, FileObject(f, show, WrittenAt), p);
    TextFound(rows, node, NumRows, FileObject(f, show, NumRows), p);
    TextFound(bytes, node, TotalByteSize, FileObject(f, show, TotalByteSize), p);
    assert FileHead(node, f, show) == size + time + rows + bytes;
    FourParts(size, time, rows, bytes, node, p);
  }

  lemma FourParts(a: seq<Triple>, b: seq<Triple>, c: seq<Triple>, d: seq<Triple>, s: Term, p: Property)
    ensures Found(a + b + c + d, s, p) == Found(a, s, p) + Found(b, s, p) + Found(c, s, p) + Found(d, s, p)
  {
    FoundConcat(a + b + c, d, s, p);
    ThreeParts(a, b, c, s, p);
  }

  lemma TextFound(ts: seq<Triple>, s: Term, q: Property, x: Option<string>, p: Property)
    requires ts == if x.Some? then [Triple(s, q, Literal(x.value))] else []
    ensures Found(ts, s, p) == if p == q then AsObjects(x) else {}
  {
    if x.Some? {
      FoundOne(ts[0], s, p);
    }
  }

  lemma FileLiteral(r: Reader, f: FileDescription, k: nat, schema: Schema, show: int -> string, p: Property)
    requires HoldsFile(r, f, k, schema, show) && Level(p) == 2 && p != ColumnStats
    ensures LiteralOf(r, Resolve(r.directory, f.path), p) == FileObject(f, show, p)
  {
    var node := Resolve(r.directory, f.path);
    FoundConcat(FileHead(node, f, show), ColumnsTriples(node, k, schema, f.statistics.columns), node, p);
    FileHeadFound(node, f, show, p);
    ColumnsShape(node, k, schema, f.statistics.columns);
    NothingFound(ColumnsTriples(node, k, schema, f.statistics.columns), node, p);
    LookUpLiteral(r, node, p, AsObjects(FileObject(f, show, p)), FileObject(f, show, p));
  }

  /** The printed form of every time is parsed back. */
  ghost predicate TimesRoundTrip(show: int -> string, parse: string -> Option<int>) {
    forall t :: parse(show(t)) == Some(t)
  }

  lemma TimeRead(show: int -> string, parse: string -> Option<int>, t: int)
    requires TimesRoundTrip(show, parse)
    ensures parse(show(t)) == Some(t)
  {
  }

  lemma FileTimeRead(r: Reader, f: FileDescription, k: nat, schema: Schema, show: int -> string)
    requires HoldsFile(r, f, k, schema, show) && TimesRoundTrip(show, r.parseTime)
    ensures TimeOf(r, Resolve(r.directory, f.path)) == Ok(f.writtenAt)
  {
    FileLiteral(r, f, k, schema, show, WrittenAt);
    if f.writtenAt.Some? {
      TimeRead(show, r.parseTime, f.writtenAt.value);
    }
  }

  lemma FileNumberRead(r: Reader, f: FileDescription, k: nat, schema: Schema, show: int -> string, p: Property,
                       v: Precision<U64>)
    requires HoldsFile(r, f, k, schema, show) && Level(p) == 2 && p != ColumnStats
        && FileObject(f, show, p) == ShownNumber(v)
    ensures NumberOf(r, Resolve(r.directory, f.path), p) == Ok(ExactNumber(v))
  {
    FileLiteral(r, f, k, schema, show, p);
    NumberRead(r, Resolve(r.directory, f.path), p, v);
  }

  lemma HeadRead(r: Reader, f: FileDescription, k: nat, schema: Schema, show: int -> string)
    requires HoldsFile(r, f, k, schema, show) && TimesRoundTrip(show, r.parseTime)
    ensures ReadHead(r, Resolve(r.directory, f.path))
         == Ok((f.size, f.writtenAt, ExactNumber(f.statistics.numRows), ExactNumber(f.statistics.totalByteSize)))
  {
    FileNumberRead(r, f, k, schema, show, SizeInBytes, Exact(f.size));
    FileTimeRead(r, f, k, schema, show);
    FileNumberRead(r, f, k, schema, show, NumRows, f.statistics.numRows);
    FileNumberRead(r, f, k, schema, show, TotalByteSize, f.statistics.totalByteSize);
  }

  /** Reading a file yields its normal form. */
  lemma FileRead(r: Reader, f: FileDescription, k: nat, schema: Schema, show: int -> string)
    requires HoldsFile(r, f, k, schema, show) && TimesRoundTrip(show, r.parseTime) && Distinct(schema) && f.path != ""
    ensures ReadFile(r, Resolve(r.directory, f.path), schema) == Ok(NormalFile(f, schema))
  {
    HeadRead(r, f, k, schema, show);
    FileColumnsRead(r, f, k, schema, show);
    PathRoundTrip(r.directory, f.path);
  }

  // ----- Reading nodes in any order

  lemma {:induction false} ReadAllOk<T>(nodes: seq<Term>, read: Term -> Result<T, Error>)
    requires forall n | n in nodes :: read(n).Ok?
    ensures var xs := ReadAll(nodes, read);
            xs.Ok? && |xs.value| == |nodes| && forall i :: 0 <= i < |nodes| ==> read(nodes[i]) == Ok(xs.value[i])
  {
    if nodes != [] {
      var init, last := nodes[..|nodes| - 1], nodes[|nodes| - 1];
      assert nodes == init + [last];
      assert last in nodes;
      assert forall n | n in init :: n in nodes;
      ReadAllOk(init, read);
    }
  }

  /** Each node stands for one element, and reading it yields that element. */
  ghost predicate Readable<T>(elements: seq<T>, key: T -> Term, read: Term -> Result<T, Error>, nodes: seq<Term>) {
    && Distinct(nodes)
    && (forall x | x in elements :: key(x) in nodes && read(key(x)) == Ok(x))
    && (forall n | n in nodes :: exists x :: x in elements && key(x) == n)
  }

  lemma Collect<T(!new)>(elements: seq<T>, key: T -> Term, read: Term -> Result<T, Error>, nodes: seq<Term>)
    requires Readable(elements, key, read, nodes)
    ensures var xs := ReadAll(nodes, read);
            xs.Ok? && Distinct(xs.value) && ToSet(xs.value) == ToSet(elements)
  {
    forall n | n in nodes ensures read(n).Ok? {
      var x :| x in elements && key(x) == n;
    }
    ReadAllOk(nodes, read);
    var xs := ReadAll(nodes, read).value;
    forall i | 0 <= i < |nodes| ensures xs[i] in elements && key(xs[i]) == nodes[i] {
      assert nodes[i] in nodes;
      var x :| x in elements && key(x) == nodes[i];
    }
    forall x | x in elements ensures x in xs {
      var i :| 0 <= i < |nodes| && nodes[i] == key(x);
      assert xs[i] == x;
    }
    assert Distinct(xs) by {
      forall i, j | 0 <= i < j < |xs| ensures xs[i] != xs[j] {
        assert key(xs[i]) == nodes[i] && key(xs[j]) == nodes[j];
      }
    }
  }

  // ----- Reading tables

  lemma {:induction false} AllFilesMember(tables: seq<TableDescription>, n: nat, f: FileDescription)
    requires n <= |tables|
    ensures f in AllFiles(tables, n) <==> exists i :: 0 <= i < n && f in tables[i].files
  {
    if n > 0 {
      AllFilesMember(tables, n - 1, f);
    }
  }

  /** Distinct paths over all tables are distinct within each. */
  lemma {:induction false} PathsWithinTable(tables: seq<TableDescription>, n: nat, i: nat)
    requires i < n <= |tables| && DistinctPaths(AllFiles(tables, n))
    ensures DistinctPaths(tables[i].files)
  {
    var all, before := AllFiles(tables, n), AllFiles(tables, n - 1);
    assert all == before + tables[n - 1].files;
    if i == n - 1 {
      forall a, b | 0 <= a < b < |tables[i].files| ensures tables[i].files[a].path != tables[i].files[b].path {
        assert all[|before| + a] == tables[i].files[a] && all[|before| + b] == tables[i].files[b];
      }
    } else {
      forall a, b | 0 <= a < b < |before| ensures before[a].path != before[b].path {
        assert all[a] == before[a] && all[b] == before[b];
      }
      PathsWithinTable(tables, n - 1, i);
    }
  }

  function FileTerms(directory: string, files: seq<FileDescription>): (r: seq<Term>)
    ensures |r| == |files| && forall j :: 0 <= j < |files| ==> r[j] == Resolve(directory, files[j].path)
  {
    seq(|files|, j requires 0 <= j < |files| => Resolve(directory, files[j].path))
  }

  function TableTerms(directory: string, tables: seq<TableDescription>): (r: seq<Term>)
    ensures |r| == |tables| && forall j :: 0 <= j < |tables| ==> r[j] == Resolve(directory, tables[j].directory)
  {
    seq(|tables|, j requires 0 <= j < |tables| => Resolve(directory, tables[j].directory))
  }

  lemma OneMoreTerm(shorter: seq<Term>, longer: seq<Term>, last: Term)
    requires longer == shorter + [last]
    ensures ToSet(longer) == ToSet(shorter) + {last}
  {
  }

  lemma OneMoreFileTerm(directory: string, files: seq<FileDescription>, n: nat)
    requires n < |files|
    ensures FileTerms(directory, files[..n + 1])
         == FileTerms(directory, files[..n]) + [Resolve(directory, files[n].path)]
  {
  }

  lemma OneMoreTableTerm(directory: string, tables: seq<TableDescription>, n: nat)
    requires n < |tables|
    ensures TableTerms(directory, tables[..n + 1])
         == TableTerms(directory, tables[..n]) + [Resolve(directory, tables[n].directory)]
  {
  }

  lemma {:induction false} FileLinksFound(directory: string, t: TableDescription, n: nat)
    requires n <= |t.files|
    ensures Found(FileLinks(directory, t, n), Resolve(directory, t.directory), File)
         == ToSet(FileTerms(directory, t.files[..n]))
  {
    if n > 0 {
      FileLinksFound(directory, t, n - 1);
      var s, last := Resolve(directory, t.directory),
                     Triple(Resolve(directory, t.directory), File, Resolve(directory, t.files[n - 1].path));
      FoundConcat(FileLinks(directory, t, n - 1), [last], s, File);
      FoundOne(last, s, File);
      OneMoreFileTerm(directory, t.files, n - 1);
      OneMoreTerm(FileTerms(directory, t.files[..n - 1]), FileTerms(directory, t.files[..n]), last.obj);
    }
  }

  lemma {:induction false} TableLinksFound(base: string, tables: seq<TableDescription>, n: nat)
    requires n <= |tables|
    ensures Found(TableLinks(base, tables, n), Iri(base), QuadTable)
         == ToSet(TableTerms(DirectoryOf(base), tables[..n]))
  {
    if n > 0 {
      TableLinksFound(base, tables, n - 1);
      var last := Triple(Iri(base), QuadTable, Resolve(DirectoryOf(base), tables[n - 1].directory));
      FoundConcat(TableLinks(base, tables, n - 1), [last], Iri(base), QuadTable);
      FoundOne(last, Iri(base), QuadTable);
      OneMoreTableTerm(DirectoryOf(base), tables, n - 1);
      OneMoreTerm(TableTerms(DirectoryOf(base), tables[..n - 1]), TableTerms(DirectoryOf(base), tables[..n]), last.obj);
    }
  }

  function ShownOrder(t: TableDescription): Option<string> {
    if t.sortOrder.Some? then Some(Show(t.sortOrder.value)) else None
  }

  lemma TableOrderFound(directory: string, t: TableDescription)
    ensures Found(TableTriples(directory, t), Resolve(directory, t.directory), SortOrder) == AsObjects(ShownOrder(t))
  {
    var s, links := Resolve(directory, t.directory), FileLinks(directory, t, |t.files|);
    var order := if t.sortOrder.Some? then [Triple(s, SortOrder, Literal(Show(t.sortOrder.value)))] else [];
    assert TableTriples(directory, t) == order + links;
    FoundConcat(order, links, s, SortOrder);
    TextFound(order, s, SortOrder, ShownOrder(t), SortOrder);
    FileLinksShape(directory, t, |t.files|);
    NothingFound(links, s, SortOrder);
  }

  lemma TableFilesFound(directory: string, t: TableDescription)
    ensures Found(TableTriples(directory, t), Resolve(directory, t.directory), File)
        == ToSet(FileTerms(directory, t.files))
  {
    var s, links := Resolve(directory, t.directory), FileLinks(directory, t, |t.files|);
    var order := if t.sortOrder.Some? then [Triple(s, SortOrder, Literal(Show(t.sortOrder.value)))] else [];
    assert TableTriples(directory, t) == order + links;
    FoundConcat(order, links, s, File);
    TextFound(order, s, SortOrder, ShownOrder(t), File);
    FileLinksFound(directory, t, |t.files|);
    assert t.files[..|t.files|] == t.files;
  }

  /** The graph holds the links of one table where this table's reader looks, and its files can be read. */
  ghost predicate HoldsTable(r: Reader, t: TableDescription, schema: Schema) {
    var s := Resolve(r.directory, t.directory);
    && IsEnumeration(r.enumerate)
    && Objects(r.graph, s, SortOrder) == AsObjects(ShownOrder(t))
    && Objects(r.graph, s, File) == ToSet(FileTerms(r.directory, t.files))
    && (forall f | f in t.files :: ReadFile(r, Resolve(r.directory, f.path), schema) == Ok(NormalFile(f, schema)))
  }

  function FileKey(directory: string): FileDescription -> Term {
    (f: FileDescription) => Resolve(directory, f.path)
  }

  lemma NormalFilesReadable(r: Reader, t: TableDescription, schema: Schema)
    requires HoldsTable(r, t, schema)
    ensures Readable(NormalFiles(t.files, schema), FileKey(r.directory), FileReader(r, schema),
                     NodesOf(r, Resolve(r.directory, t.directory), File))
  {
    var s, elements, key := Resolve(r.directory, t.directory), NormalFiles(t.files, schema), FileKey(r.directory);
    var found := FileTerms(r.directory, t.files);
    LookUpNodes(r, s, File, ToSet(found));
    var nodes := NodesOf(r, s, File);
    forall x | x in elements ensures key(x) in nodes && FileReader(r, schema)(key(x)) == Ok(x) {
      var j :| 0 <= j < |elements| && elements[j] == x;
      assert t.files[j] in t.files;
      assert found[j] == key(x);
    }
    forall n | n in nodes ensures exists x :: x in elements && key(x) == n {
      var j :| 0 <= j < |found| && found[j] == n;
      assert elements[j] in elements && key(elements[j]) == n;
    }
  }

  lemma NormalFilesComparable(files: seq<FileDescription>, schema: Schema)
    requires DistinctPaths(files)
    ensures Distinct(NormalFiles(files, schema)) && Comparable(PathLess(), ToSet(NormalFiles(files, schema)))
  {
    var elements := NormalFiles(files, schema);
    forall x, y | x in ToSet(elements) && y in ToSet(elements) ensures x == y || PathLess()(x, y) || PathLess()(y, x) {
      var i :| 0 <= i < |elements| && elements[i] == x;
      var j :| 0 <= j < |elements| && elements[j] == y;
      StringLessTotal(x.path, y.path);
      assert x.path == files[i].path && y.path == files[j].path;
    }
    forall i, j | 0 <= i < j < |elements| ensures elements[i] != elements[j] {
      assert elements[i].path == files[i].path && elements[j].path == files[j].path;
    }
  }

  /** Reading a table yields its normal form. */
  lemma TableRead(r: Reader, t: TableDescription, schema: Schema)
    requires HoldsTable(r, t, schema) && DistinctPaths(t.files) && t.directory != ""
    requires t.sortOrder.Some? ==> IsValidOrder(t.sortOrder.value)
    ensures ReadTable(r, Resolve(r.directory, t.directory), schema) == Ok(NormalTable(t, schema))
  {
    var s, elements := Resolve(r.directory, t.directory), NormalFiles(t.files, schema);
    LookUpLiteral(r, s, SortOrder, AsObjects(ShownOrder(t)), ShownOrder(t));
    if t.sortOrder.Some? {
      ShowParseIff(t.sortOrder.value);
    }
    assert ReadOrder(r, s) == Ok(t.sortOrder);
    NormalFilesReadable(r, t, schema);
    Collect(elements, FileKey(r.directory), FileReader(r, schema), NodesOf(r, s, File));
    NormalFilesComparable(t.files, schema);
    PathOrder();
    SortUnique(PathLess(), ReadAll(NodesOf(r, s, File), FileReader(r, schema)).value, elements);
    PathRoundTrip(r.directory, t.directory);
  }

  // ----- Reading the description

  ghost predicate Holds(r: Reader, base: string, d: DatasetDescription, schema: Schema, show: int -> string) {
    && r.graph == ToSet(DatasetTriples(base, d, schema, show)) && r.directory == DirectoryOf(base)
    && IsEnumeration(r.enumerate) && TimesRoundTrip(show, r.parseTime)
  }

  lemma FileHeld(r: Reader, base: string, d: DatasetDescription, schema: Schema, show: int -> string, k: nat)
    requires Holds(r, base, d, schema, show) && WellFormed(d) && k < |AllFiles(d.tables, |d.tables|)|
    ensures HoldsFile(r, AllFiles(d.tables, |d.tables|)[k], k, schema, show)
  {
    var files := AllFiles(d.tables, |d.tables|);
    forall s, p | BelongsTo(r.directory, files, k, s, p)
      ensures Objects(r.graph, s, p) == Found(FileTriples(r.directory, files[k], k, schema, show), s, p)
    {
      ObjectsAreFound(DatasetTriples(base, d, schema, show), s, p);
      DatasetFound(base, d, schema, show, s, p);
      FilesFound(r.directory, files, k, s, p, schema, show);
    }
  }

  lemma TableHeld(r: Reader, base: string, d: DatasetDescription, schema: Schema, show: int -> string, i: nat)
    requires Holds(r, base, d, schema, show) && WellFormed(d) && i < |d.tables| && Distinct(schema)
    ensures HoldsTable(r, d.tables[i], schema)
  {
    var t, files := d.tables[i], AllFiles(d.tables, |d.tables|);
    var s := Resolve(r.directory, t.directory);
    forall p | p == SortOrder || p == File
      ensures Objects(r.graph, s, p) == Found(TableTriples(r.directory, t), s, p)
    {
      ObjectsAreFound(DatasetTriples(base, d, schema, show), s, p);
      DatasetFound(base, d, schema, show, s, p);
      TablesFound(r.directory, d.tables, i, p);
    }
    TableOrderFound(r.directory, t);
    TableFilesFound(r.directory, t);
    forall f | f in t.files ensures ReadFile(r, Resolve(r.directory, f.path), schema) == Ok(NormalFile(f, schema)) {
      AllFilesMember(d.tables, |d.tables|, f);
      var k :| 0 <= k < |files| && files[k] == f;
      FileHeld(r, base, d, schema, show, k);
      FileRead(r, f, k, schema, show);
    }
  }

  lemma HeaderParts(base: string, d: DatasetDescription, p: Property)
    requires Level(p) == 0
    ensures Found(HeaderTriples(base, d), Iri(base), p) ==
            (if p == FormatVersion then {Literal("1")} else {})
            + (if p == Encoding then {Literal(ShowEncoding(d.encoding))} else {})
            + Found(TableLinks(base, d.tables, |d.tables|), Iri(base), p)
  {
    var s, links := Iri(base), TableLinks(base, d.tables, |d.tables|);
    var version, encoding :=
        Triple(s, FormatVersion, Literal("1")), Triple(s, Encoding, Literal(ShowEncoding(d.encoding)));
    assert HeaderTriples(base, d) == [version] + [encoding] + links;
    ThreeParts([version], [encoding], links, s, p);
    FoundOne(version, s, p);
    FoundOne(encoding, s, p);
  }

  lemma HeaderLiteralFound(base: string, d: DatasetDescription, p: Property)
    requires p == FormatVersion || p == Encoding
    ensures Found(HeaderTriples(base, d), Iri(base), p)
        == {Literal(if p == FormatVersion then "1" else ShowEncoding(d.encoding))}
  {
    HeaderParts(base, d, p);
    TableLinksShape(base, d.tables, |d.tables|);
    NothingFound(TableLinks(base, d.tables, |d.tables|), Iri(base), p);
  }

  lemma HeaderLinksFound(base: string, d: DatasetDescription)
    ensures Found(HeaderTriples(base, d), Iri(base), QuadTable) == ToSet(TableTerms(DirectoryOf(base), d.tables))
  {
    HeaderParts(base, d, QuadTable);
    TableLinksFound(base, d.tables, |d.tables|);
    assert d.tables[..|d.tables|] == d.tables;
  }

  lemma HeaderHeld(r: Reader, base: string, d: DatasetDescription, schema: Schema, show: int -> string, p: Property)
    requires Holds(r, base, d, schema, show) && Level(p) == 0
    ensures Objects(r.graph, Iri(base), p) == Found(HeaderTriples(base, d), Iri(base), p)
  {
    ObjectsAreFound(DatasetTriples(base, d, schema, show), Iri(base), p);
    DatasetFound(base, d, schema, show, Iri(base), p);
  }

  lemma HeaderRead(r: Reader, base: string, d: DatasetDescription, schema: Schema, show: int -> string)
    requires Holds(r, base, d, schema, show)
    ensures ReadHeader(r, base) == Ok(d.encoding)
    ensures Objects(r.graph, Iri(base), QuadTable) == ToSet(TableTerms(r.directory, d.tables))
  {
    HeaderHeld(r, base, d, schema, show, FormatVersion);
    HeaderHeld(r, base, d, schema, show, Encoding);
    HeaderHeld(r, base, d, schema, show, QuadTable);
    HeaderLiteralFound(base, d, FormatVersion);
    HeaderLiteralFound(base, d, Encoding);
    HeaderLinksFound(base, d);
    LookUpLiteral(r, Iri(base), FormatVersion, {Literal("1")}, Some("1"));
    LookUpLiteral(r, Iri(base), Encoding, {Literal(ShowEncoding(d.encoding))}, Some(ShowEncoding(d.encoding)));
    assert ShowNat(1) == "1";
    NumberRoundTrip(1);
    EncodingRoundTrip(d.encoding);
  }

  function TableKey(directory: string): TableDescription -> Term {
    (t: TableDescription) => Resolve(directory, t.directory)
  }

  lemma NormalTablesReadable(r: Reader, base: string, d: DatasetDescription, schema: Schema, show: int -> string)
    requires Holds(r, base, d, schema, show) && WellFormed(d) && Distinct(schema)
    ensures Readable(NormalTables(d.tables, schema), TableKey(r.directory), TableReader(r, schema),
                     NodesOf(r, Iri(base), QuadTable))
  {
    HeaderRead(r, base, d, schema, show);
    var found := TableTerms(r.directory, d.tables);
    LookUpNodes(r, Iri(base), QuadTable, ToSet(found));
    var nodes, elements, key := NodesOf(r, Iri(base), QuadTable), NormalTables(d.tables, schema), TableKey(r.directory);
    forall x | x in elements ensures key(x) in nodes && TableReader(r, schema)(key(x)) == Ok(x) {
      var j :| 0 <= j < |elements| && elements[j] == x;
      assert d.tables[j] in d.tables && found[j] == key(x);
      TableHeld(r, base, d, schema, show, j);
      PathsWithinTable(d.tables, |d.tables|, j);
      TableRead(r, d.tables[j], schema);
    }
    forall n | n in nodes ensures exists x :: x in elements && key(x) == n {
      var j :| 0 <= j < |found| && found[j] == n;
      assert elements[j] in elements && key(elements[j]) == n;
    }
  }

  lemma NormalTablesComparable(tables: seq<TableDescription>, schema: Schema)
    requires DistinctDirectories(tables)
    ensures Distinct(NormalTables(tables, schema)) && Comparable(DirectoryLess(), ToSet(NormalTables(tables, schema)))
  {
    var elements := NormalTables(tables, schema);
    forall x, y | x in ToSet(elements) && y in ToSet(elements)
      ensures x == y || DirectoryLess()(x, y) || DirectoryLess()(y, x)
    {
      var i :| 0 <= i < |elements| && elements[i] == x;
      var j :| 0 <= j < |elements| && elements[j] == y;
      StringLessTotal(x.directory, y.directory);
      assert x.directory == tables[i].directory && y.directory == tables[j].directory;
    }
    forall i, j | 0 <= i < j < |elements| ensures elements[i] != elements[j] {
      assert elements[i].directory == tables[i].directory && elements[j].directory == tables[j].directory;
    }
  }

  /**
   Reading what was written yields the normal form of the description, in whatever order
   the graph enumerates its triples.
   */
  lemma RoundTrip(base: string, d: DatasetDescription, schema: Schema, show: int -> string,
                  enumerate: set<Term> -> seq<Term>, parseTime: string -> Option<int>)
    requires WellFormed(d) && Distinct(schema) && IsEnumeration(enumerate) && TimesRoundTrip(show, parseTime)
    ensures ReadDataset(Reader(ToSet(DatasetTriples(base, d, schema, show)), DirectoryOf(base), enumerate, parseTime),
                        base, schema)
         == Ok(Normal(d, schema))
  {
    var r := Reader(ToSet(DatasetTriples(base, d, schema, show)), DirectoryOf(base), enumerate, parseTime);
    var elements, nodes := NormalTables(d.tables, schema), NodesOf(r, Iri(base), QuadTable);
    HeaderRead(r, base, d, schema, show);
    NormalTablesReadable(r, base, d, schema, show);
    Collect(elements, TableKey(r.directory), TableReader(r, schema), nodes);
    NormalTablesComparable(d.tables, schema);
    DirectoryOrder();
    SortUnique(DirectoryLess(), ReadAll(nodes, TableReader(r, schema)).value, elements);
  }

  // ----- The normal form is a fixed point

  lemma NormalColumnIdempotent(c: ColumnStatistics, numRows: Precision<U64>)
    ensures NormalColumn(NormalColumn(c, numRows), NormalNumber(numRows)) == NormalColumn(c, numRows)
  {
  }

  lemma NormalFileIdempotent(f: FileDescription, schema: Schema)
    ensures NormalFile(NormalFile(f, schema), schema) == NormalFile(f, schema)
  {
    var columns, rows := f.statistics.columns, f.statistics.numRows;
    var once := NormalColumns(columns, schema, rows);
    forall i | 0 <= i < |schema| ensures NormalColumns(once, schema, NormalNumber(rows))[i] == once[i] {
      if i < |columns| {
        NormalColumnIdempotent(columns[i], rows);
      }
    }
    assert NormalColumns(once, schema, NormalNumber(rows)) == once;
  }

  lemma SortIdempotent<T(!new)>(less: (T, T) -> bool, s: seq<T>)
    requires StrictWeakOrder(less) && Distinct(s) && Comparable(less, ToSet(s))
    ensures Sort(less, Sort(less, s)) == Sort(less, s)
  {
    SortStrict(less, s);
    SortSpec(less, s);
    SameElements(Sort(less, s), s);
    SortUnique(less, Sort(less, s), s);
  }

  lemma NormalTableIdempotent(t: TableDescription, schema: Schema)
    requires DistinctPaths(t.files)
    ensures NormalTable(NormalTable(t, schema), schema) == NormalTable(t, schema)
  {
    var elements := NormalFiles(t.files, schema);
    NormalFilesComparable(t.files, schema);
    PathOrder();
    SortStrict(PathLess(), elements);
    var once := Sort(PathLess(), elements);
    forall i | 0 <= i < |once| ensures NormalFile(once[i], schema) == once[i] {
      assert once[i] in elements;
      var j :| 0 <= j < |elements| && elements[j] == once[i];
      NormalFileIdempotent(t.files[j], schema);
    }
    assert NormalFiles(once, schema) == once;
    SortIdempotent(PathLess(), elements);
  }

  /** Reading and writing again changes nothing more. */
  lemma NormalIdempotent(d: DatasetDescription, schema: Schema)
    requires WellFormed(d)
    ensures Normal(Normal(d, schema), schema) == Normal(d, schema)
  {
    var elements := NormalTables(d.tables, schema);
    NormalTablesComparable(d.tables, schema);
    DirectoryOrder();
    SortStrict(DirectoryLess(), elements);
    var once := Sort(DirectoryLess(), elements);
    forall i | 0 <= i < |once| ensures NormalTable(once[i], schema) == once[i] {
      assert once[i] in elements;
      var j :| 0 <= j < |elements| && elements[j] == once[i];
      PathsWithinTable(d.tables, |d.tables|, j);
      NormalTableIdempotent(d.tables[j], schema);
    }
    assert NormalTables(once, schema) == once;
    SortIdempotent(DirectoryLess(), elements);
  }

  // ----- When reading any graph succeeds

  /** The literal under a property, if there is one, is an unsigned 64-bit number. */
  predicate MayHaveNumber(r: Reader, s: Term, p: Property) {
    LiteralOf(r, s, p).Some? ==> ParseU64(LiteralOf(r, s, p).value).Some?
  }

  predicate HasNumber(r: Reader, s: Term, p: Property) {
    LiteralOf(r, s, p).Some? && MayHaveNumber(r, s, p)
  }

  /** The node is an IRI below the directory of the dataset. */
  predicate IsWithin(r: Reader, node: Term) {
    node.Iri? && r.directory + "/" <= node.iri && |node.iri| > |r.directory| + 1
  }

  /** The statistics of a column name it, and count nulls in numbers if the column is in the schema. */
  predicate IsReadableColumn(r: Reader, node: Term, schema: Schema) {
    && LiteralOf(r, node, ColumnName).Some?
    && (LiteralOf(r, node, ColumnName).value in schema ==> MayHaveNumber(r, node, NullCount))
  }

  /** A file has a size and lies in the dataset, and whatever else is said of it can be parsed. */
  predicate IsReadableFile(r: Reader, node: Term, schema: Schema) {
    && HasNumber(r, node, SizeInBytes) && MayHaveNumber(r, node, NumRows) && MayHaveNumber(r, node, TotalByteSize)
    && (LiteralOf(r, node, WrittenAt).Some? ==> (r.parseTime)(LiteralOf(r, node, WrittenAt).value).Some?)
    && (forall c | c in NodesOf(r, node, ColumnStats) :: IsReadableColumn(r, c, schema))
    && IsWithin(r, node)
  }

  predicate HasNoUnknownOrder(r: Reader, node: Term) {
    LiteralOf(r, node, SortOrder).Some? ==> Parse(LiteralOf(r, node, SortOrder).value).Ok?
  }

  /** A table lies in the dataset, has no unknown sort order, and its files can be read. */
  predicate IsReadableTable(r: Reader, node: Term, schema: Schema) {
    && IsWithin(r, node)
    && HasNoUnknownOrder(r, node)
    && forall f | f in NodesOf(r, node, File) :: IsReadableFile(r, f, schema)
  }

  /** The format version is 1, the encoding is known, and the tables can be read. */
  predicate IsReadableDataset(r: Reader, base: string, schema: Schema) {
    && HasNumber(r, Iri(base), FormatVersion) && ParseU64(LiteralOf(r, Iri(base), FormatVersion).value) == Some(1)
    && LiteralOf(r, Iri(base), Encoding).Some? && ParseEncoding(LiteralOf(r, Iri(base), Encoding).value).Some?
    && forall node | node in NodesOf(r, Iri(base), QuadTable) :: IsReadableTable(r, node, schema)
  }

  lemma {:induction false} ReadAllSucceedsIff<T>(nodes: seq<Term>, read: Term -> Result<T, Error>)
    ensures ReadAll(nodes, read).Ok? <==> forall node | node in nodes :: read(node).Ok?
    ensures ReadAll(nodes, read).Ok? ==>
              && |ReadAll(nodes, read).value| == |nodes|
              && forall i :: 0 <= i < |nodes| ==> read(nodes[i]) == Ok(ReadAll(nodes, read).value[i])
  {
    if nodes != [] {
      var n := |nodes| - 1;
      ReadAllSucceedsIff(nodes[..n], read);
      assert nodes == nodes[..n] + [nodes[n]];
    }
  }

  lemma {:induction false} ColumnsSucceedIff(r: Reader, nodes: seq<Term>, schema: Schema, numRows: Option<U64>)
    ensures ReadColumns(r, nodes, schema, numRows).Ok? <==> forall c | c in nodes :: IsReadableColumn(r, c, schema)
  {
    if nodes != [] {
      var n := |nodes| - 1;
      ColumnsSucceedIff(r, nodes[..n], schema, numRows);
      assert nodes == nodes[..n] + [nodes[n]];
      var before := ReadColumns(r, nodes[..n], schema, numRows);
      if before.Ok? {
        assert StepColumn(r, nodes[n], schema, numRows, before.value).Ok? <==> IsReadableColumn(r, nodes[n], schema);
      }
    }
  }

  lemma FileSucceedsIff(r: Reader, node: Term, schema: Schema)
    ensures ReadFile(r, node, schema).Ok? <==> IsReadableFile(r, node, schema)
    ensures ReadFile(r, node, schema).Ok? ==>
              var f := ReadFile(r, node, schema).value;
              Some(f.size) == ParseU64(LiteralOf(r, node, SizeInBytes).value) && node == Resolve(r.directory, f.path)
  {
    if ReadHead(r, node).Ok? {
      ColumnsSucceedIff(r, NodesOf(r, node, ColumnStats), schema, ReadHead(r, node).value.2);
    }
  }

  lemma SortKeepsLength<T(!new)>(less: (T, T) -> bool, s: seq<T>)
    requires StrictWeakOrder(less)
    ensures |Sort(less, s)| == |s|
  {
    SortSpec(less, s);
    SameElements(Sort(less, s), s);
  }

  lemma FilesSucceedIff(r: Reader, nodes: seq<Term>, schema: Schema)
    ensures var files := ReadAll(nodes, FileReader(r, schema));
            && (files.Ok? <==> forall f | f in nodes :: IsReadableFile(r, f, schema))
            && (files.Ok? ==> |Sort(PathLess(), files.value)| == |nodes|)
  {
    var read := FileReader(r, schema);
    ReadAllSucceedsIff(nodes, read);
    forall f ensures read(f).Ok? <==> IsReadableFile(r, f, schema) {
      FileSucceedsIff(r, f, schema);
    }
    if ReadAll(nodes, read).Ok? {
      PathOrder();
      SortKeepsLength(PathLess(), ReadAll(nodes, read).value);
    }
  }

  lemma OrderSucceedsIff(r: Reader, node: Term)
    ensures ReadOrder(r, node).Ok? <==> HasNoUnknownOrder(r, node)
  {
  }

  lemma PathSucceedsIff(r: Reader, node: Term)
    ensures RelativePath(r.directory, node).Ok? <==> IsWithin(r, node)
    ensures RelativePath(r.directory, node).Ok? ==>
              node == Resolve(r.directory, RelativePath(r.directory, node).value)
  {
  }

  lemma TableSucceedsIff(r: Reader, node: Term, schema: Schema)
    ensures ReadTable(r, node, schema).Ok? <==> IsReadableTable(r, node, schema)
    ensures ReadTable(r, node, schema).Ok? ==>
              && node == Resolve(r.directory, ReadTable(r, node, schema).value.directory)
              && |ReadTable(r, node, schema).value.files| == |NodesOf(r, node, File)|
  {
    OrderSucceedsIff(r, node);
    PathSucceedsIff(r, node);
    FilesSucceedIff(r, NodesOf(r, node, File), schema);
  }

  /**
   For any graph, reading succeeds exactly if the format version is 1, the encoding is
   known, and every table, file and column is complete; then each table node yields one
   table.
   */
  lemma ReadSucceedsIff(r: Reader, base: string, schema: Schema)
    ensures ReadDataset(r, base, schema).Ok? <==> IsReadableDataset(r, base, schema)
    ensures ReadDataset(r, base, schema).Ok? ==>
              var d := ReadDataset(r, base, schema).value;
              && ParseEncoding(LiteralOf(r, Iri(base), Encoding).value) == Some(d.encoding)
              && |d.tables| == |NodesOf(r, Iri(base), QuadTable)|
  {
    var nodes, read := NodesOf(r, Iri(base), QuadTable), TableReader(r, schema);
    ReadAllSucceedsIff(nodes, read);
    forall node ensures read(node).Ok? <==> IsReadableTable(r, node, schema) {
      TableSucceedsIff(r, node, schema);
    }
    if ReadAll(nodes, read).Ok? {
      DirectoryOrder();
      SortKeepsLength(DirectoryLess(), ReadAll(nodes, read).value);
    }
  }
}
