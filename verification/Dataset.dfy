/**
 The description of a Parquet dataset (`dataset.ttl`): written as triples and read back.

 Turtle is modelled by the triples it stands for. A blank node is labelled by the file and
 the column it describes, so each is fresh. The type of a node, which is never read, is
 left out. Relative IRIs are resolved against the directory of the description.
 */
module Dataset {
  import opened Basics
  import opened Sorting
  import opened SortOrders

  type U64 = n: nat | n < 0x1_0000_0000_0000_0000

  datatype Scalar =
    | Utf8(text: Option<string>)
    | LargeUtf8(text: Option<string>)
    | Utf8View(text: Option<string>)
    | OtherScalar(id: int)

  /** The statistics of a column; `unwritten` stands for those that are never written. */
  datatype ColumnStatistics = ColumnStatistics(nullCount: Precision<U64>, min: Precision<Scalar>,
                                               max: Precision<Scalar>, unwritten: Precision<int>)

  const UNKNOWN_COLUMN: ColumnStatistics := ColumnStatistics(Absent, Absent, Absent, Absent)

  datatype Statistics = Statistics(numRows: Precision<U64>, totalByteSize: Precision<U64>,
                                   columns: seq<ColumnStatistics>)

  datatype FileDescription = FileDescription(path: string, size: U64, writtenAt: Option<int>, statistics: Statistics)

  datatype TableDescription = TableDescription(directory: string, sortOrder: Option<RdfSortOrder>,
                                               files: seq<FileDescription>)

  datatype EncodingName = PlainTerm | ObjectId | StringEncoding

  datatype DatasetDescription = DatasetDescription(encoding: EncodingName, tables: seq<TableDescription>)

  type Schema = seq<string>

  // ----- Graphs

  datatype Term = Iri(iri: string) | Blank(file: nat, column: nat) | Literal(value: string)

  datatype Property =
    | FormatVersion | Encoding | QuadTable
    | SortOrder | File
    | SizeInBytes | WrittenAt | NumRows | TotalByteSize | ColumnStats
    | ColumnName | NullCount | MinValue | MinValueExact | MaxValue | MaxValueExact

  datatype Triple = Triple(subj: Term, prop: Property, obj: Term)

  /** The objects written for a subject and property. */
  function Found(ts: seq<Triple>, s: Term, p: Property): set<Term> {
    set t | t in ts && t.subj == s && t.prop == p :: t.obj
  }

  lemma FoundConcat(a: seq<Triple>, b: seq<Triple>, s: Term, p: Property)
    ensures Found(a + b, s, p) == Found(a, s, p) + Found(b, s, p)
  {
    forall t ensures t in a + b <==> t in a || t in b {
    }
  }

  lemma NothingFound(ts: seq<Triple>, s: Term, p: Property)
    requires forall t | t in ts :: t.subj != s || t.prop != p
    ensures Found(ts, s, p) == {}
  {
  }

  /** The first `n` parts, one after the other. */
  function Join(parts: seq<seq<Triple>>, n: nat): seq<Triple>
    requires n <= |parts|
  {
    if n == 0 then [] else Join(parts, n - 1) + parts[n - 1]
  }

  lemma {:induction false} JoinMember(parts: seq<seq<Triple>>, n: nat, t: Triple)
    requires n <= |parts|
    ensures t in Join(parts, n) <==> exists j :: 0 <= j < n && t in parts[j]
  {
    if n > 0 {
      JoinMember(parts, n - 1, t);
    }
  }

  /** What is found in no other part is found in its own part. */
  lemma {:induction false} FoundInPart(parts: seq<seq<Triple>>, n: nat, k: nat, s: Term, p: Property)
    requires n <= |parts| && k < |parts| && forall j :: 0 <= j < n && j != k ==> Found(parts[j], s, p) == {}
    ensures Found(Join(parts, n), s, p) == if k < n then Found(parts[k], s, p) else {}
  {
    if n > 0 {
      FoundInPart(parts, n - 1, k, s, p);
      FoundConcat(Join(parts, n - 1), parts[n - 1], s, p);
    }
  }

  function Objects(graph: set<Triple>, s: Term, p: Property): set<Term> {
    set t | t in graph && t.subj == s && t.prop == p :: t.obj
  }

  lemma ObjectsAreFound(ts: seq<Triple>, s: Term, p: Property)
    ensures Objects(ToSet(ts), s, p) == Found(ts, s, p)
  {
    forall t ensures t in ToSet(ts) <==> t in ts {
    }
  }

  // ----- Numbers, encodings and paths

  function Digit(d: nat): char
    requires d < 10
  {
    (48 + d) as char
  }

  function ShowNat(n: nat): string {
    if n < 10 then [Digit(n)] else ShowNat(n / 10) + [Digit(n % 10)]
  }

  function DigitsValue(s: string): Option<nat> {
    if s == [] then Some(0)
    else
      var last, rest := s[|s| - 1], DigitsValue(s[..|s| - 1]);
      if rest.None? || !('0' <= last <= '9') then None else Some(rest.value * 10 + (last as int - 48))
  }

  /** Parses an unsigned 64-bit number with an optional plus sign. */
  function ParseU64(s: string): Option<U64> {
    var digits := if s != [] && s[0] == '+' then s[1..] else s;
    var n := DigitsValue(digits);
    if digits == [] || n.None? || n.value >= 0x1_0000_0000_0000_0000 then None else Some(n.value)
  }

  lemma {:induction false} ShowNatDigits(n: nat)
    ensures DigitsValue(ShowNat(n)) == Some(n)
    ensures ShowNat(n) != [] && '0' <= ShowNat(n)[0] <= '9'
  {
    var s := ShowNat(n);
    if n < 10 {
      assert s[..0] == [];
    } else {
      ShowNatDigits(n / 10);
      assert s[..|s| - 1] == ShowNat(n / 10);
      assert s[0] == ShowNat(n / 10)[0];
    }
  }

  lemma NumberRoundTrip(n: U64)
    ensures ParseU64(ShowNat(n)) == Some(n)
  {
    ShowNatDigits(n);
  }

  function ShowEncoding(e: EncodingName): string {
    match e
    case PlainTerm => "PlainTerm"
    case ObjectId => "ObjectId"
    case StringEncoding => "String"
  }

  function Lowercase(s: string): string {
    seq(|s|, i requires 0 <= i < |s| => Lower(s[i]))
  }

  function ParseEncoding(s: string): Option<EncodingName> {
    var lower := Lowercase(s);
    if lower == "plain-term" || lower == "plainterm" then Some(PlainTerm)
    else if lower == "object-id" || lower == "objectid" then Some(ObjectId)
    else if lower == "string" then Some(StringEncoding)
    else None
  }

  lemma EncodingRoundTrip(e: EncodingName)
    ensures ParseEncoding(ShowEncoding(e)) == Some(e)
  {
    match e {
      case PlainTerm => assert Lowercase("PlainTerm") == "plainterm";
      case ObjectId => assert Lowercase("ObjectId") == "objectid";
      case StringEncoding => assert Lowercase("String") == "string";
    }
  }

  /** The part of an IRI before its last slash. */
  function DirectoryOf(iri: string): string {
    if '/' !in iri then iri
    else if iri[|iri| - 1] == '/' then iri[..|iri| - 1]
    else DirectoryOf(iri[..|iri| - 1])
  }

  function Resolve(directory: string, path: string): Term {
    Iri(directory + "/" + path)
  }

  lemma ResolveInjective(directory: string, a: string, b: string)
    requires a != b
    ensures Resolve(directory, a) != Resolve(directory, b)
  {
    var x, y := directory + "/" + a, directory + "/" + b;
    assert x[|directory| + 1..] == a && y[|directory| + 1..] == b;
  }

  datatype Error =
    | MissingProperty(prop: Property) | InvalidNumber(prop: Property) | InvalidTime
    | UnsupportedVersion | InvalidEncoding | InvalidSortOrder | NotAnIri | OutsideOfDataset

  function RelativePath(directory: string, node: Term): Result<string, Error> {
    if !node.Iri? then Err(NotAnIri)
    else if directory + "/" <= node.iri && |node.iri| > |directory| + 1 then Ok(node.iri[|directory| + 1..])
    else Err(OutsideOfDataset)
  }

  lemma PathRoundTrip(directory: string, path: string)
    ensures RelativePath(directory, Resolve(directory, path)) == if path == "" then Err(OutsideOfDataset) else Ok(path)
  {
  }

  // ----- Writing

  function StringBound(v: Precision<Scalar>): Option<(string, bool)> {
    if v.Absent? || v.value.OtherScalar? || v.value.text.None? then None
    else Some((v.value.text.value, v.Exact?))
  }

  function ShowBool(b: bool): string {
    if b then "true" else "false"
  }

  function NumberTriple(s: Term, p: Property, v: Precision<U64>): seq<Triple> {
    if v.Exact? then [Triple(s, p, Literal(ShowNat(v.value)))] else []
  }

  function BoundTriples(s: Term, p: Property, exact: Property, v: Precision<Scalar>): seq<Triple> {
    var b := StringBound(v);
    if b.None? then [] else [Triple(s, p, Literal(b.value.0)), Triple(s, exact, Literal(ShowBool(b.value.1)))]
  }

  function PropertyTriples(s: Term, c: ColumnStatistics): seq<Triple> {
    NumberTriple(s, NullCount, c.nullCount)
    + BoundTriples(s, MinValue, MinValueExact, c.min)
    + BoundTriples(s, MaxValue, MaxValueExact, c.max)
  }

  function ColumnTriples(node: Term, blank: Term, name: string, c: ColumnStatistics): seq<Triple> {
    if PropertyTriples(blank, c) == [] then []
    else [Triple(node, ColumnStats, blank), Triple(blank, ColumnName, Literal(name))] + PropertyTriples(blank, c)
  }

  function Zipped(schema: Schema, columns: seq<ColumnStatistics>): (n: nat)
    ensures n <= |schema| && n <= |columns|
  {
    if |schema| < |columns| then |schema| else |columns|
  }

  /** The columns of the `k`-th file that are in the schema. */
  function ColumnParts(node: Term, k: nat, schema: Schema, columns: seq<ColumnStatistics>): (r: seq<seq<Triple>>)
    ensures |r| == Zipped(schema, columns)
  {
    seq(Zipped(schema, columns),
        i requires 0 <= i < Zipped(schema, columns) => ColumnTriples(node, Blank(k, i), schema[i], columns[i]))
  }

  function ColumnsTriples(node: Term, k: nat, schema: Schema, columns: seq<ColumnStatistics>): seq<Triple> {
    Join(ColumnParts(node, k, schema, columns), Zipped(schema, columns))
  }

  function FileHead(node: Term, f: FileDescription, show: int -> string): seq<Triple> {
    [Triple(node, SizeInBytes, Literal(ShowNat(f.size)))]
    + (if f.writtenAt.Some? then [Triple(node, WrittenAt, Literal(show(f.writtenAt.value)))] else [])
    + NumberTriple(node, NumRows, f.statistics.numRows)
    + NumberTriple(node, TotalByteSize, f.statistics.totalByteSize)
  }

  function FileTriples(directory: string, f: FileDescription, k: nat, schema: Schema,
                       show: int -> string): seq<Triple> {
    var node := Resolve(directory, f.path);
    FileHead(node, f, show) + ColumnsTriples(node, k, schema, f.statistics.columns)
  }

  function FileParts(directory: string, files: seq<FileDescription>, schema: Schema,
                     show: int -> string): (r: seq<seq<Triple>>)
    ensures |r| == |files|
  {
    seq(|files|, k requires 0 <= k < |files| => FileTriples(directory, files[k], k, schema, show))
  }

  /** The files of all tables. */
  function FilesTriples(directory: string, files: seq<FileDescription>, schema: Schema,
                        show: int -> string): seq<Triple> {
    Join(FileParts(directory, files, schema, show), |files|)
  }

  function FileLinks(directory: string, t: TableDescription, n: nat): seq<Triple>
    requires n <= |t.files|
  {
    if n == 0 then []
    else
      FileLinks(directory, t, n - 1)
      + [Triple(Resolve(directory, t.directory), File, Resolve(directory, t.files[n - 1].path))]
  }

  function TableTriples(directory: string, t: TableDescription): seq<Triple> {
    (if t.sortOrder.Some?
     then [Triple(Resolve(directory, t.directory), SortOrder, Literal(Show(t.sortOrder.value)))]
     else [])
    + FileLinks(directory, t, |t.files|)
  }

  function TableParts(directory: string, tables: seq<TableDescription>): (r: seq<seq<Triple>>)
    ensures |r| == |tables|
  {
    seq(|tables|, i requires 0 <= i < |tables| => TableTriples(directory, tables[i]))
  }

  function TablesTriples(directory: string, tables: seq<TableDescription>): seq<Triple> {
    Join(TableParts(directory, tables), |tables|)
  }

  function TableLinks(base: string, tables: seq<TableDescription>, n: nat): seq<Triple>
    requires n <= |tables|
  {
    if n == 0 then []
    else
      TableLinks(base, tables, n - 1)
      + [Triple(Iri(base), QuadTable, Resolve(DirectoryOf(base), tables[n - 1].directory))]
  }

  function HeaderTriples(base: string, d: DatasetDescription): seq<Triple> {
    [Triple(Iri(base), FormatVersion, Literal("1")), Triple(Iri(base), Encoding, Literal(ShowEncoding(d.encoding)))]
    + TableLinks(base, d.tables, |d.tables|)
  }

  function AllFiles(tables: seq<TableDescription>, n: nat): seq<FileDescription>
    requires n <= |tables|
  {
    if n == 0 then [] else AllFiles(tables, n - 1) + tables[n - 1].files
  }

  function DatasetTriples(base: string, d: DatasetDescription, schema: Schema, show: int -> string): seq<Triple> {
    var files := AllFiles(d.tables, |d.tables|);
    HeaderTriples(base, d)
    + TablesTriples(DirectoryOf(base), d.tables)
    + FilesTriples(DirectoryOf(base), files, schema, show)
  }

  /** Writes the statistics of a column to the end of the output, if it has any. */
  method WriteColumn(before: seq<Triple>, node: Term, blank: Term, name: string, c: ColumnStatistics)
    returns (r: seq<Triple>)
    ensures r == before + ColumnTriples(node, blank, name, c)
  {
    var properties := PropertyTriples(blank, c);
    if properties == [] {
      r := before;
    } else {
      r := before + ([Triple(node, ColumnStats, blank), Triple(blank, ColumnName, Literal(name))] + properties);
    }
  }

  method WriteNextColumn(before: seq<Triple>, node: Term, k: nat, schema: Schema, columns: seq<ColumnStatistics>,
                         i: nat, ghost out: seq<Triple>, ghost parts: seq<seq<Triple>>)
    returns (r: seq<Triple>)
    requires i < Zipped(schema, columns) && parts == ColumnParts(node, k, schema, columns)
    requires before == out + Join(parts, i)
    ensures r == out + Join(parts, i + 1)
  {
    r := WriteColumn(before, node, Blank(k, i), schema[i], columns[i]);
    JoinNext(out, parts, i);
  }

  /** Writes the statistics of all columns to the end of the output. */
  method WriteColumns(out: seq<Triple>, node: Term, k: nat, schema: Schema, columns: seq<ColumnStatistics>)
    returns (r: seq<Triple>)
    ensures r == out + ColumnsTriples(node, k, schema, columns)
  {
    r := out;
    ghost var parts := ColumnParts(node, k, schema, columns);
    for i := 0 to Zipped(schema, columns)
      invariant r == out + Join(parts, i)
    {
      r := WriteNextColumn(r, node, k, schema, columns, i, out, parts);
    }
  }

  lemma AppendAssociative(a: seq<Triple>, b: seq<Triple>, c: seq<Triple>)
    ensures (a + b) + c == a + (b + c)
  {
  }

  lemma JoinNext(out: seq<Triple>, parts: seq<seq<Triple>>, k: nat)
    requires k < |parts|
    ensures (out + Join(parts, k)) + parts[k] == out + Join(parts, k + 1)
  {
    AppendAssociative(out, Join(parts, k), parts[k]);
  }

  /** Writes the description of a file to the end of the output. */
  method WriteFile(out: seq<Triple>, directory: string, f: FileDescription, k: nat, schema: Schema, show: int -> string)
    returns (r: seq<Triple>)
    ensures r == out + FileTriples(directory, f, k, schema, show)
  {
    var node := Resolve(directory, f.path);
    r := WriteColumns(out + FileHead(node, f, show), node, k, schema, f.statistics.columns);
    AppendAssociative(out, FileHead(node, f, show),
                      ColumnsTriples(node, k, schema, f.statistics.columns));
  }

  method WriteNextFile(before: seq<Triple>, directory: string, files: seq<FileDescription>, k: nat, schema: Schema,
                       show: int -> string, ghost out: seq<Triple>, ghost parts: seq<seq<Triple>>)
    returns (r: seq<Triple>)
    requires k < |files| == |parts| && before == out + Join(parts, k)
    requires parts[k] == FileTriples(directory, files[k], k, schema, show)
    ensures r == out + Join(parts, k + 1)
  {
    r := WriteFile(before, directory, files[k], k, schema, show);
    JoinNext(out, parts, k);
  }

  method WriteFiles(out: seq<Triple>, directory: string, files: seq<FileDescription>, schema: Schema,
                    show: int -> string)
    returns (r: seq<Triple>)
    ensures r == out + FilesTriples(directory, files, schema, show)
  {
    r := WriteAllFiles(out, directory, files, schema, show, FileParts(directory, files, schema, show));
  }

  method WriteAllFiles(out: seq<Triple>, directory: string, files: seq<FileDescription>, schema: Schema,
                       show: int -> string, ghost parts: seq<seq<Triple>>)
    returns (r: seq<Triple>)
    requires |parts| == |files|
    requires forall k :: 0 <= k < |files| ==> parts[k] == FileTriples(directory, files[k], k, schema, show)
    ensures r == out + Join(parts, |files|)
  {
    r := out;
    assert out + Join(parts, 0) == out;
    for k := 0 to |files|
      invariant r == out + Join(parts, k)
    {
      r := WriteNextFile(r, directory, files, k, schema, show, out, parts);
    }
  }

  method WriteHeader(base: string, d: DatasetDescription) returns (r: seq<Triple>)
    ensures r == HeaderTriples(base, d)
  {
    var start := [Triple(Iri(base), FormatVersion, Literal("1")),
                  Triple(Iri(base), Encoding, Literal(ShowEncoding(d.encoding)))];
    r := start;
    for i := 0 to |d.tables|
      invariant r == start + TableLinks(base, d.tables, i)
    {
      r := r + [Triple(Iri(base), QuadTable, Resolve(DirectoryOf(base), d.tables[i].directory))];
    }
  }

  method WriteTables(out: seq<Triple>, directory: string, tables: seq<TableDescription>) returns (r: seq<Triple>)
    ensures r == out + TablesTriples(directory, tables)
  {
    r := out;
    ghost var parts := TableParts(directory, tables);
    for i := 0 to |tables|
      invariant r == out + Join(parts, i)
    {
      JoinNext(out, parts, i);
      r := WriteTable(r, directory, tables[i]);
    }
  }

  /** Writes a description: the header, the tables, and the files of all tables. */
  method WriteTurtle(base: string, d: DatasetDescription, schema: Schema, show: int -> string)
    returns (out: seq<Triple>)
    ensures out == DatasetTriples(base, d, schema, show)
  {
    out := WriteHeader(base, d);
    out := WriteTables(out, DirectoryOf(base), d.tables);
    out := WriteFiles(out, DirectoryOf(base), AllFiles(d.tables, |d.tables|), schema, show);
  }

  method WriteTable(out: seq<Triple>, directory: string, t: TableDescription) returns (r: seq<Triple>)
    ensures r == out + TableTriples(directory, t)
  {
    r := out;
    if t.sortOrder.Some? {
      r := r + [Triple(Resolve(directory, t.directory), SortOrder, Literal(Show(t.sortOrder.value)))];
    }
    ghost var before := r;
    for i := 0 to |t.files|
      invariant r == before + FileLinks(directory, t, i)
    {
      r := r + [Triple(Resolve(directory, t.directory), File, Resolve(directory, t.files[i].path))];
    }
  }

  // ----- Reading

  /**
   A reader of a graph. The graph enumerates its objects in some order of its own;
   `parseTime` parses a time.
   */
  datatype Reader = Reader(graph: set<Triple>, directory: string, enumerate: set<Term> -> seq<Term>,
                           parseTime: string -> Option<int>)

  ghost predicate IsEnumeration(enumerate: set<Term> -> seq<Term>) {
    forall s :: Distinct(enumerate(s)) && forall x :: x in enumerate(s) <==> x in s
  }

  function LiteralOf(r: Reader, s: Term, p: Property): Option<string> {
    var objects := (r.enumerate)(Objects(r.graph, s, p));
    if objects != [] && objects[0].Literal? then Some(objects[0].value) else None
  }

  function NodesOf(r: Reader, s: Term, p: Property): seq<Term> {
    Filter((t: Term) => !t.Literal?, (r.enumerate)(Objects(r.graph, s, p)))
  }

  function NumberOf(r: Reader, s: Term, p: Property): Result<Option<U64>, Error> {
    match LiteralOf(r, s, p)
    case None => Ok(None)
    case Some(text) => var n := ParseU64(text); if n.None? then Err(InvalidNumber(p)) else Ok(n)
  }

  function TimeOf(r: Reader, s: Term): Result<Option<int>, Error> {
    match LiteralOf(r, s, WrittenAt)
    case None => Ok(None)
    case Some(text) => var t := (r.parseTime)(text); if t.None? then Err(InvalidTime) else Ok(t)
  }

  function BoundOf(r: Reader, s: Term, p: Property, exact: Property, allNull: bool): Precision<Scalar> {
    match LiteralOf(r, s, p)
    case Some(text) =>
      if LiteralOf(r, s, exact) == Some("true") then Exact(Utf8(Some(text))) else Inexact(Utf8(Some(text)))
    case None => if allNull then Exact(Utf8(None)) else Absent
  }

  function ExactOrAbsent(n: Option<U64>): Precision<U64> {
    if n.Some? then Exact(n.value) else Absent
  }

  function IndexOf(schema: Schema, name: string): (r: Option<nat>)
    ensures r.Some? ==> r.value < |schema| && schema[r.value] == name
    ensures r.None? ==> name !in schema
  {
    if schema == [] then None
    else if schema[0] == name then Some(0)
    else
      var rest := IndexOf(schema[1..], name);
      if rest.None? then None else Some(rest.value + 1)
  }

  function ColumnFrom(r: Reader, s: Term, nullCount: Option<U64>, numRows: Option<U64>): ColumnStatistics {
    var allNull := nullCount.Some? && nullCount == numRows;
    ColumnStatistics(ExactOrAbsent(nullCount), BoundOf(r, s, MinValue, MinValueExact, allNull),
                     BoundOf(r, s, MaxValue, MaxValueExact, allNull), Absent)
  }

  /** The columns after one more statistics node has been read. */
  function StepColumn(r: Reader, s: Term, schema: Schema, numRows: Option<U64>,
                      columns: seq<ColumnStatistics>): Result<seq<ColumnStatistics>, Error>
    requires |columns| == |schema|
  {
    match LiteralOf(r, s, ColumnName)
    case None => Err(MissingProperty(ColumnName))
    case Some(name) =>
      var i := IndexOf(schema, name);
      if i.None? then Ok(columns)
      else
        match NumberOf(r, s, NullCount)
        case Err(e) => Err(e)
        case Ok(nullCount) => Ok(columns[i.value := ColumnFrom(r, s, nullCount, numRows)])
  }

  function ReadColumns(r: Reader, nodes: seq<Term>, schema: Schema,
                       numRows: Option<U64>): (result: Result<seq<ColumnStatistics>, Error>)
    ensures result.Ok? ==> |result.value| == |schema|
  {
    if nodes == [] then Ok(seq(|schema|, _ => UNKNOWN_COLUMN))
    else
      match ReadColumns(r, nodes[..|nodes| - 1], schema, numRows)
      case Err(e) => Err(e)
      case Ok(columns) => StepColumn(r, nodes[|nodes| - 1], schema, numRows, columns)
  }

  /** Everything of a file but its columns and path, or the first error. */
  function ReadHead(r: Reader, node: Term): Result<(U64, Option<int>, Option<U64>, Option<U64>), Error> {
    match NumberOf(r, node, SizeInBytes)
    case Err(e) => Err(e)
    case Ok(None) => Err(MissingProperty(SizeInBytes))
    case Ok(Some(size)) =>
      match TimeOf(r, node)
      case Err(e) => Err(e)
      case Ok(time) =>
        match NumberOf(r, node, NumRows)
        case Err(e) => Err(e)
        case Ok(rows) =>
          match NumberOf(r, node, TotalByteSize)
          case Err(e) => Err(e)
          case Ok(bytes) => Ok((size, time, rows, bytes))
  }

  function ReadFile(r: Reader, node: Term, schema: Schema): Result<FileDescription, Error> {
    match ReadHead(r, node)
    case Err(e) => Err(e)
    case Ok((size, time, rows, bytes)) =>
      match ReadColumns(r, NodesOf(r, node, ColumnStats), schema, rows)
      case Err(e) => Err(e)
      case Ok(columns) =>
        match RelativePath(r.directory, node)
        case Err(e) => Err(e)
        case Ok(path) =>
          Ok(FileDescription(path, size, time, Statistics(ExactOrAbsent(rows), ExactOrAbsent(bytes), columns)))
  }

  /** Reads the file of a node, filling in the statistics of its columns one by one. */
  method ReadFileNode(r: Reader, node: Term, schema: Schema) returns (result: Result<FileDescription, Error>)
    ensures result == ReadFile(r, node, schema)
  {
    var head := ReadHead(r, node);
    if head.Err? {
      return Err(head.error);
    }
    var (size, time, rows, bytes) := head.value;
    var columns := seq(|schema|, _ => UNKNOWN_COLUMN);
    var nodes := NodesOf(r, node, ColumnStats);
    for i := 0 to |nodes|
      invariant |columns| == |schema| && ReadColumns(r, nodes[..i], schema, rows) == Ok(columns)
    {
      assert nodes[..i + 1][..i] == nodes[..i];
      var next := StepColumn(r, nodes[i], schema, rows, columns);
      if next.Err? {
        ReadColumnsFails(r, nodes, schema, rows, i + 1);
        return Err(next.error);
      }
      columns := next.value;
    }
    assert nodes[..|nodes|] == nodes;
    var path := RelativePath(r.directory, node);
    if path.Err? {
      return Err(path.error);
    }
    return Ok(FileDescription(path.value, size, time, Statistics(ExactOrAbsent(rows), ExactOrAbsent(bytes), columns)));
  }

  lemma {:induction false} ReadColumnsFails(r: Reader, nodes: seq<Term>, schema: Schema, numRows: Option<U64>, i: nat)
    requires i <= |nodes| && ReadColumns(r, nodes[..i], schema, numRows).Err?
    ensures ReadColumns(r, nodes, schema, numRows) == ReadColumns(r, nodes[..i], schema, numRows)
  {
    if i == |nodes| {
      assert nodes[..i] == nodes;
    } else {
      assert nodes[..|nodes| - 1][..i] == nodes[..i];
      ReadColumnsFails(r, nodes[..|nodes| - 1], schema, numRows, i);
    }
  }

  /** Reads every node, or fails with the first error. */
  function ReadAll<T>(nodes: seq<Term>, read: Term -> Result<T, Error>): Result<seq<T>, Error> {
    if nodes == [] then Ok([])
    else
      match ReadAll(nodes[..|nodes| - 1], read)
      case Err(e) => Err(e)
      case Ok(xs) =>
        match read(nodes[|nodes| - 1])
        case Err(e) => Err(e)
        case Ok(x) => Ok(xs + [x])
  }

  lemma {:induction false} ReadAllFails<T>(nodes: seq<Term>, read: Term -> Result<T, Error>, i: nat)
    requires i <= |nodes| && ReadAll(nodes[..i], read).Err?
    ensures ReadAll(nodes, read) == ReadAll(nodes[..i], read)
  {
    if i == |nodes| {
      assert nodes[..i] == nodes;
    } else {
      assert nodes[..|nodes| - 1][..i] == nodes[..i];
      ReadAllFails(nodes[..|nodes| - 1], read, i);
    }
  }

  lemma ReadAllNext<T>(nodes: seq<Term>, read: Term -> Result<T, Error>, i: nat, xs: seq<T>)
    requires i < |nodes| && ReadAll(nodes[..i], read) == Ok(xs)
    ensures read(nodes[i]).Ok? ==> ReadAll(nodes[..i + 1], read) == Ok(xs + [read(nodes[i]).value])
    ensures read(nodes[i]).Err? ==> ReadAll(nodes, read) == Err(read(nodes[i]).error)
  {
    var more := nodes[..i + 1];
    assert more[..i] == nodes[..i] && more[i] == nodes[i];
    if read(nodes[i]).Err? {
      ReadAllFails(nodes, read, i + 1);
    }
  }

  predicate StringLess(a: string, b: string) {
    b != [] && (a == [] || a[0] < b[0] || (a[0] == b[0] && StringLess(a[1..], b[1..])))
  }

  function PathLess(): (FileDescription, FileDescription) -> bool {
    (a: FileDescription, b: FileDescription) => StringLess(a.path, b.path)
  }

  function DirectoryLess(): (TableDescription, TableDescription) -> bool {
    (a: TableDescription, b: TableDescription) => StringLess(a.directory, b.directory)
  }

  function FileReader(r: Reader, schema: Schema): Term -> Result<FileDescription, Error> {
    (node: Term) => ReadFile(r, node, schema)
  }

  function ReadOrder(r: Reader, node: Term): Result<Option<RdfSortOrder>, Error> {
    match LiteralOf(r, node, SortOrder)
    case None => Ok(None)
    case Some(text) => var o := Parse(text); if o.Ok? then Ok(Some(o.value)) else Err(InvalidSortOrder)
  }

  function ReadTable(r: Reader, node: Term, schema: Schema): Result<TableDescription, Error> {
    match ReadOrder(r, node)
    case Err(e) => Err(e)
    case Ok(order) =>
      match ReadAll(NodesOf(r, node, File), FileReader(r, schema))
      case Err(e) => Err(e)
      case Ok(files) =>
        match RelativePath(r.directory, node)
        case Err(e) => Err(e)
        case Ok(directory) => Ok(TableDescription(directory, order, Sort(PathLess(), files)))
  }

  /** Reads the files of a table. */
  method ReadFileNodes(r: Reader, nodes: seq<Term>, schema: Schema)
    returns (result: Result<seq<FileDescription>, Error>)
    ensures result == ReadAll(nodes, FileReader(r, schema))
  {
    var files := [];
    for i := 0 to |nodes|
      invariant ReadAll(nodes[..i], FileReader(r, schema)) == Ok(files)
    {
      ReadAllNext(nodes, FileReader(r, schema), i, files);
      var file := ReadFileNode(r, nodes[i], schema);
      if file.Err? {
        return Err(file.error);
      }
      files := files + [file.value];
    }
    assert nodes[..|nodes|] == nodes;
    return Ok(files);
  }

  method ReadTableNode(r: Reader, node: Term, schema: Schema) returns (result: Result<TableDescription, Error>)
    ensures result == ReadTable(r, node, schema)
  {
    var order := ReadOrder(r, node);
    if order.Err? {
      return Err(order.error);
    }
    var files := ReadFileNodes(r, NodesOf(r, node, File), schema);
    if files.Err? {
      return Err(files.error);
    }
    var directory := RelativePath(r.directory, node);
    if directory.Err? {
      return Err(directory.error);
    }
    return Ok(TableDescription(directory.value, order.value, Sort(PathLess(), files.value)));
  }

  function TableReader(r: Reader, schema: Schema): Term -> Result<TableDescription, Error> {
    (node: Term) => ReadTable(r, node, schema)
  }

  /** The encoding of a dataset in a supported format version. */
  function ReadHeader(r: Reader, base: string): Result<EncodingName, Error> {
    match NumberOf(r, Iri(base), FormatVersion)
    case Err(e) => Err(e)
    case Ok(version) =>
      if version != Some(1) then Err(UnsupportedVersion)
      else
        match LiteralOf(r, Iri(base), Encoding)
        case None => Err(MissingProperty(Encoding))
        case Some(text) => var e := ParseEncoding(text); if e.None? then Err(InvalidEncoding) else Ok(e.value)
  }

  /** Reads the description of the dataset whose description file is `base`. */
  function ReadDataset(r: Reader, base: string, schema: Schema): Result<DatasetDescription, Error> {
    match ReadHeader(r, base)
    case Err(e) => Err(e)
    case Ok(encoding) =>
      match ReadAll(NodesOf(r, Iri(base), QuadTable), TableReader(r, schema))
      case Err(e) => Err(e)
      case Ok(tables) => Ok(DatasetDescription(encoding, Sort(DirectoryLess(), tables)))
  }

  method FromTurtle(graph: set<Triple>, base: string, schema: Schema, enumerate: set<Term> -> seq<Term>,
                    parseTime: string -> Option<int>)
    returns (result: Result<DatasetDescription, Error>)
    ensures result == ReadDataset(Reader(graph, DirectoryOf(base), enumerate, parseTime), base, schema)
  {
    var r := Reader(graph, DirectoryOf(base), enumerate, parseTime);
    var encoding := ReadHeader(r, base);
    if encoding.Err? {
      return Err(encoding.error);
    }
    var nodes, tables := NodesOf(r, Iri(base), QuadTable), [];
    for i := 0 to |nodes|
      invariant ReadAll(nodes[..i], TableReader(r, schema)) == Ok(tables)
    {
      ReadAllNext(nodes, TableReader(r, schema), i, tables);
      var table := ReadTableNode(r, nodes[i], schema);
      if table.Err? {
        return Err(table.error);
      }
      tables := tables + [table.value];
    }
    assert nodes[..|nodes|] == nodes;
    return Ok(DatasetDescription(encoding.value, Sort(DirectoryLess(), tables)));
  }
}
