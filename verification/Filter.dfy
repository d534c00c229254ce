/** Filter trees and the table of tests the filter language knows. */
module Filter {
  import opened Text

  datatype Field = NoField | Duration | LastPlay | Tag | Artist | Title | Album | Year | Pos

  datatype ValOp = NoOp | Eq | Lt | Le | Gt | Ge | In | Re

  datatype ValType = NumType | StringType | ListType

  datatype Value = Num(n: int) | Str(s: string) | List(vs: seq<Value>)

  datatype Test = Test(field: Field, op: ValOp, val: Value)

  datatype Expr = Self(test: Test) | Not(e: Expr) | And(a: Expr, b: Expr) | Or(a: Expr, b: Expr)

  /** The fields in the order of their enumeration. */
  const FIELDS: seq<Field> := [NoField, Duration, LastPlay, Tag, Artist, Title, Album, Year, Pos]

  function FieldName(f: Field): string
  {
    match f
    case NoField => ""
    case Duration => "duration"
    case LastPlay => "lastplay"
    case Tag => "tag"
    case Artist => "artist"
    case Title => "title"
    case Album => "album"
    case Year => "year"
    case Pos => "pos"
  }

  function OpName(op: ValOp): string
  {
    match op
    case NoOp => ""
    case Eq => "="
    case Lt => "<"
    case Le => "<="
    case Gt => ">"
    case Ge => ">="
    case In => "IN"
    case Re => "~"
  }

  function TypeOf(v: Value): ValType
  {
    match v
    case Num(_) => NumType
    case Str(_) => StringType
    case List(_) => ListType
  }

  /** The field with the given name; the empty name is the name of NoField. */
  function FieldOf(name: string): (r: Option<Field>)
    ensures r.Some? ==> FieldName(r.value) == name
    ensures r.None? ==> forall f: Field :: FieldName(f) != name
  {
    if name == "" then Some(NoField)
    else if name == "duration" then Some(Duration)
    else if name == "lastplay" then Some(LastPlay)
    else if name == "tag" then Some(Tag)
    else if name == "artist" then Some(Artist)
    else if name == "title" then Some(Title)
    else if name == "album" then Some(Album)
    else if name == "year" then Some(Year)
    else if name == "pos" then Some(Pos)
    else None
  }

  lemma FieldOfName(f: Field)
    ensures FieldOf(FieldName(f)) == Some(f)
  {
    var g := FieldOf(FieldName(f)).value;
    assert FieldName(g) == FieldName(f);
    assert |FieldName(f)| > 0 ==> FieldName(f)[0] == FieldName(g)[0];
    assert |FieldName(f)| > 1 ==> FieldName(f)[1] == FieldName(g)[1];
  }

  datatype TestType = TestType(field: Field, op: ValOp, typ: ValType)

  /** The five comparisons of a numeric field. */
  function Comparisons(f: Field): seq<TestType>
  {
    [TestType(f, Eq, NumType), TestType(f, Lt, NumType), TestType(f, Le, NumType),
     TestType(f, Gt, NumType), TestType(f, Ge, NumType)]
  }

  /** The tests of a field that has a name and an id. */
  function Named(f: Field): seq<TestType>
  {
    [TestType(f, Eq, StringType), TestType(f, Eq, NumType), TestType(f, Re, StringType)]
  }

  const TAG_TESTS: seq<TestType> :=
    [TestType(Tag, Eq, NumType), TestType(Tag, Eq, StringType),
     TestType(Tag, Re, StringType), TestType(Tag, In, ListType)]

  const TITLE_TESTS: seq<TestType> := [TestType(Title, Eq, StringType), TestType(Title, Re, StringType)]

  /** Every combination of field, operator and value type that may be written. */
  const TEST_TYPES: seq<TestType> :=
    Comparisons(Duration) + Comparisons(LastPlay) + Comparisons(Year)
    + TAG_TESTS + TITLE_TESTS + Named(Artist) + Named(Album) + Comparisons(Pos)

  predicate Allowed(t: TestType) { t in TEST_TYPES }

  predicate AllowedTest(t: Test) { Allowed(TestType(t.field, t.op, TypeOf(t.val))) }

  lemma ComparisonsMeans(f: Field, t: TestType)
    ensures t in Comparisons(f) <==> t.field == f && t.op in {Eq, Lt, Le, Gt, Ge} && t.typ == NumType
  {
    var c := Comparisons(f);
    assert c[0].op == Eq && c[1].op == Lt && c[2].op == Le && c[3].op == Gt && c[4].op == Ge;
  }

  lemma NamedMeans(f: Field, t: TestType)
    ensures t in Named(f) <==>
      t.field == f && (t.op == Eq || t.op == Re) && (t.typ == StringType || (t.typ == NumType && t.op == Eq))
  {
    var c := Named(f);
    assert c[0] == TestType(f, Eq, StringType) && c[1] == TestType(f, Eq, NumType);
    assert c[2] == TestType(f, Re, StringType);
  }

  /** What the table amounts to: which fields take which operators on which values. */
  lemma AllowedMeans(t: TestType)
    ensures Allowed(t) <==>
      || (t.field in {Duration, LastPlay, Year, Pos} && t.op in {Eq, Lt, Le, Gt, Ge} && t.typ == NumType)
      || (t.field in {Title, Artist, Album, Tag} && t.op in {Eq, Re} && t.typ == StringType)
      || (t.field in {Artist, Album, Tag} && t.op == Eq && t.typ == NumType)
      || (t.field == Tag && t.op == In && t.typ == ListType)
  {
    ComparisonsMeans(Duration, t);
    ComparisonsMeans(LastPlay, t);
    ComparisonsMeans(Year, t);
    ComparisonsMeans(Pos, t);
    NamedMeans(Artist, t);
    NamedMeans(Album, t);
    assert TAG_TESTS[0].typ == NumType && TAG_TESTS[1].op == Eq && TAG_TESTS[2].op == Re && TAG_TESTS[3].op == In;
    assert TITLE_TESTS[0].op == Eq && TITLE_TESTS[1].op == Re;
    assert Allowed(t) <==>
      || t in Comparisons(Duration) || t in Comparisons(LastPlay) || t in Comparisons(Year) || t in TAG_TESTS
      || t in TITLE_TESTS || t in Named(Artist) || t in Named(Album) || t in Comparisons(Pos);
  }

  // ----- trees the parser can return -----

  predicate InInt(n: int) { -INT_MAX - 1 <= n <= INT_MAX }

  predicate AcceptedScalar(v: Value)
  {
    match v
    case Num(n) => InInt(n)
    case Str(s) => IsLowerCase(s)
    case List(_) => false
  }

  predicate AcceptedValue(v: Value)
  {
    if v.List? then v.vs != [] && forall i :: 0 <= i < |v.vs| ==> AcceptedScalar(v.vs[i])
    else AcceptedScalar(v)
  }

  /** Leaves are in the table, lists are flat and not empty, strings are lower case, numbers are ints. */
  predicate Accepted(e: Expr)
  {
    match e
    case Self(t) => AllowedTest(t) && AcceptedValue(t.val)
    case Not(x) => Accepted(x)
    case And(a, b) => Accepted(a) && Accepted(b)
    case Or(a, b) => Accepted(a) && Accepted(b)
  }
}
