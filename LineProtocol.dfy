/**
 * The line-protocol serialiser, `LPMetric.String()`: a metric becomes one line
 * `measurement[,tag=value...][ field=value[,field=value...]] timestamp`.
 */
module LineProtocol {
  import opened Wrappers
  import opened GoFmt
  import opened StringOrder

  datatype SignedKind = Int | Int8 | Int16 | Int32 | Int64

  datatype UnsignedKind = Uint | Uint8 | Uint16 | Uint32 | Uint64 | Uintptr

  datatype FloatKind = Float32 | Float64

  /**
   * The dynamic value a tag or field holds in its `interface{}`, by the Go
   * type it carries. Any type not listed is `Other`, together with what `%v`
   * prints for it.
   */
  datatype Value =
    | Signed(skind: SignedKind, n: int)
    | Unsigned(ukind: UnsignedKind, u: nat)
    | Floating(fkind: FloatKind, f: Float)
    | Text(s: string)
    | Boolean(b: bool)
    | Other(shown: string)

  /**
   * The parts of Go's formatting that depend on tables this model does not
   * carry: Unicode printability above U+00FF (used by `%q`), and the shortest
   * round-tripping text of a float (what `%v` prints for one).
   */
  datatype Printer = Printer(widePrint: char -> bool, shortest: (FloatKind, Float) -> string)

  newtype int64 = x: int | -0x8000_0000_0000_0000 <= x < 0x8000_0000_0000_0000

  /**
   * An `LPMetric`. Go iterates a map of tags in an unspecified order; here the
   * tags are listed in the order iteration visits them.
   */
  datatype Metric = Metric(
    measurement: string,
    tags: seq<(string, Value)>,
    fields: map<string, Value>,
    timestamp: int64)

  /** `%v`: how a tag value, or a field value of no listed kind, is written. */
  function Show(v: Value, p: Printer): (r: string)
    ensures v.Signed? ==> ParseDecimal(r) == Some(v.n)
    ensures v.Unsigned? ==> ParseDecimal(r) == Some(v.u)
    ensures v.Floating? ==> r == p.shortest(v.fkind, v.f)
    ensures v.Text? ==> r == v.s
    ensures v.Boolean? ==> (r == "true" <==> v.b) && (r == "false" <==> !v.b)
    ensures v.Other? ==> r == v.shown
  {
    match v
    case Signed(_, n) => DecimalRoundTrip(n); Decimal(n)
    case Unsigned(_, u) => DecimalRoundTrip(u); Decimal(u)
    case Floating(k, f) => p.shortest(k, f)
    case Text(s) => s
    case Boolean(b) => if b then "true" else "false"
    case Other(shown) => shown
  }

  /** The format the serialiser's type switch picks for a field value. */
  datatype Verb = IntegerI | FixedPoint | Quoted | Generic

  function VerbOf(v: Value): (verb: Verb)
    ensures verb == IntegerI <==> v.Signed? && v.skind != Int8
    ensures verb == FixedPoint <==> v.Floating?
    ensures verb == Quoted <==> v.Text?
  {
    match v
    case Signed(k, _) => if k == Int8 then Generic else IntegerI
    case Floating(_, _) => FixedPoint
    case Text(_) => Quoted
    case _ => Generic
  }

  /** How a field value is written after `key=`: its verb applied to it. */
  function Render(v: Value, p: Printer): (r: string)
    ensures VerbOf(v) == IntegerI ==>
      1 < |r| && r[|r| - 1] == 'i' && ParseDecimal(r[..|r| - 1]) == Some(v.n)
    ensures VerbOf(v) == FixedPoint && v.f.Finite? ==>
      ParseFixed(r).Some? && -0.0000005 <= ParseFixed(r).value - v.f.x <= 0.0000005
    ensures VerbOf(v) == Quoted ==> Unquote(r) == Some(v.s)
    ensures VerbOf(v) == Generic ==> r == Show(v, p)
  {
    match VerbOf(v)
    case IntegerI =>
      var d := Decimal(v.n);
      DecimalRoundTrip(v.n);
      assert (d + "i")[..|d|] == d;
      d + "i"
    case FixedPoint =>
      if v.f.Finite? then FixedIsNearest(v.f.x); FormatFixed(v.f) else FormatFixed(v.f)
    case Quoted => UnquoteQuote(v.s, p.widePrint); Quote(v.s, p.widePrint)
    case Generic => Show(v, p)
  }

  function Shown(tags: seq<(string, Value)>, p: Printer): seq<(string, string)>
  {
    seq(|tags|, i requires 0 <= i < |tags| => (tags[i].0, Show(tags[i].1, p)))
  }

  function Rendered(keys: seq<string>, fields: map<string, Value>, p: Printer): seq<(string, string)>
    requires forall k :: k in keys ==> k in fields
  {
    seq(|keys|, i requires 0 <= i < |keys| => (keys[i], Render(fields[keys[i]], p)))
  }

  /** `,key=value` for each tag, in order. */
  function TagsText(tags: seq<(string, string)>): string
  {
    if tags == [] then ""
    else
      var (k, v) := tags[|tags| - 1];
      TagsText(tags[..|tags| - 1]) + "," + k + "=" + v
  }

  /** `key=value` for each field, a space before the first and a comma before each later one. */
  function FieldsText(fields: seq<(string, string)>): string
  {
    if fields == [] then ""
    else
      var (k, v) := fields[|fields| - 1];
      FieldsText(fields[..|fields| - 1]) + (if |fields| == 1 then " " else ",") + k + "=" + v
  }

  /**
   * The line `LPMetric.String()` returns. It starts with the measurement as
   * given, followed by one `,key=value` per tag in order, and ends with a
   * space and the timestamp.
   */
  function Line(m: Metric, p: Printer): (line: string)
    ensures var head := m.measurement + TagsText(Shown(m.tags, p));
      var tail := " " + Decimal(m.timestamp as int);
      && |head| + |tail| <= |line|
      && line[..|head|] == head
      && line[|line| - |tail|..] == tail
  {
    var head := m.measurement + TagsText(Shown(m.tags, p));
    var mid := FieldsText(Rendered(SortedKeys(m.fields.Keys), m.fields, p));
    var d := Decimal(m.timestamp as int);
    Associative(head + mid, " ", d);
    Framed(head, mid, " " + d);
    m.measurement
    + TagsText(Shown(m.tags, p))
    + FieldsText(Rendered(SortedKeys(m.fields.Keys), m.fields, p))
    + " " + Decimal(m.timestamp as int)
  }

  lemma RenderedSnoc(keys: seq<string>, k: string, fields: map<string, Value>, p: Printer)
    requires forall j :: j in keys ==> j in fields
    requires k in fields
    ensures Rendered(keys + [k], fields, p) == Rendered(keys, fields, p) + [(k, Render(fields[k], p))]
  {
  }

  lemma ShownSnoc(tags: seq<(string, Value)>, k: string, v: Value, p: Printer)
    ensures Shown(tags + [(k, v)], p) == Shown(tags, p) + [(k, Show(v, p))]
  {
  }

  lemma TagsTextSnoc(tags: seq<(string, string)>, k: string, v: string)
    ensures TagsText(tags + [(k, v)]) == TagsText(tags) + ("," + k + "=" + v)
  {
    assert (tags + [(k, v)])[..|tags|] == tags;
  }

  lemma Associative(a: string, b: string, c: string)
    ensures (a + b) + c == a + (b + c)
  {
  }

  lemma FieldsTextSnoc(fields: seq<(string, string)>, k: string, v: string)
    ensures FieldsText(fields + [(k, v)]) == FieldsText(fields) + ((if fields == [] then " " else ",") + k + "=" + v)
  {
    assert (fields + [(k, v)])[..|fields|] == fields;
  }

  lemma TakeOne(rest: set<string>, k: string)
    requires k in rest
    ensures multiset(rest) == multiset(rest - {k}) + multiset{k}
  {
    assert rest == (rest - {k}) + {k};
  }

  /** Collects the keys of a map in the order iteration gives them. */
  method CollectKeys(fields: map<string, Value>) returns (keys: array<string>)
    ensures fresh(keys)
    ensures multiset(keys[..]) == multiset(fields.Keys)
  {
    keys := new string[|fields.Keys|];
    var rest := fields.Keys;
    var n := 0;
    ghost var got: seq<string> := [];
    while rest != {}
      invariant n + |rest| == keys.Length
      invariant keys[..n] == got
      invariant multiset(got) + multiset(rest) == multiset(fields.Keys)
    {
      var k :| k in rest;
      keys[n] := k;
      TakeOne(rest, k);
      got := got + [k];
      n := n + 1;
      rest := rest - {k};
    }
    assert keys[..n] == keys[..];
  }

  /** `LPMetric.String()`: builds the line by appending to it piece by piece. */
  method Format(m: Metric, p: Printer) returns (line: string)
    ensures line == Line(m, p)
  {
    var metric := AppendTags(m.measurement, m.tags, p);
    ghost var head := metric;
    ghost var mid := FieldsText(Rendered(SortedKeys(m.fields.Keys), m.fields, p));
    if |m.fields.Keys| > 0 {
      var keys := CollectKeys(m.fields);
      Sort(keys);
      SortedIsSortedKeys(keys[..], m.fields.Keys);
      metric := AppendFields(metric, keys[..], m.fields, p);
    } else {
      assert m.fields.Keys == {};
    }
    assert metric == head + mid;
    line := metric + " " + Decimal(m.timestamp as int);
  }

  /** The loop over the tags: `,key=value` for each, in iteration order. */
  lemma AppendTagStep(metric: string, tags: seq<(string, Value)>, t: nat, p: Printer)
    requires t < |tags|
    ensures metric + TagsText(Shown(tags[..t + 1], p))
            == metric + TagsText(Shown(tags[..t], p)) + ("," + tags[t].0 + "=" + Show(tags[t].1, p))
  {
    var (k, v) := tags[t];
    var done := Shown(tags[..t], p);
    ShownSnoc(tags[..t], k, v, p);
    assert tags[..t + 1] == tags[..t] + [(k, v)];
    TagsTextSnoc(done, k, Show(v, p));
    Associative(metric, TagsText(done), "," + k + "=" + Show(v, p));
  }

  method AppendTags(metric: string, tags: seq<(string, Value)>, p: Printer) returns (r: string)
    ensures r == metric + TagsText(Shown(tags, p))
  {
    r := metric;
    for t := 0 to |tags|
      invariant r == metric + TagsText(Shown(tags[..t], p))
    {
      var (k, v) := tags[t];
      AppendTagStep(metric, tags, t, p);
      r := r + ("," + k + "=" + Show(v, p));
    }
    assert tags[..|tags|] == tags;
  }

  /**
   * The loop over the sorted keys: a counter tells the first field, written
   * after a space, from the later ones, written after a comma.
   */
  lemma AppendFieldStep(metric: string, keys: seq<string>, j: nat, fields: map<string, Value>, p: Printer)
    requires j < |keys| && forall k :: k in keys ==> k in fields
    ensures metric + FieldsText(Rendered(keys[..j + 1], fields, p))
            == metric + FieldsText(Rendered(keys[..j], fields, p))
               + ((if j == 0 then " " else ",") + keys[j] + "=" + Render(fields[keys[j]], p))
  {
    var done := Rendered(keys[..j], fields, p);
    RenderedSnoc(keys[..j], keys[j], fields, p);
    assert keys[..j + 1] == keys[..j] + [keys[j]];
    FieldsTextSnoc(done, keys[j], Render(fields[keys[j]], p));
    Associative(metric, FieldsText(done), (if j == 0 then " " else ",") + keys[j] + "=" + Render(fields[keys[j]], p));
  }

  method AppendFields(metric: string, keys: seq<string>, fields: map<string, Value>, p: Printer)
    returns (r: string)
    requires forall k :: k in keys ==> k in fields
    ensures r == metric + FieldsText(Rendered(keys, fields, p))
  {
    r := metric;
    var i := 0;
    for j := 0 to |keys|
      invariant i == j
      invariant r == metric + FieldsText(Rendered(keys[..j], fields, p))
    {
      var field := keys[j];
      var value := fields[field];
      AppendFieldStep(metric, keys, j, fields, p);
      if i == 0 {
        r := r + (" " + field + "=" + Render(value, p));
      } else {
        r := r + ("," + field + "=" + Render(value, p));
      }
      i := i + 1;
    }
    assert keys[..|keys|] == keys;
  }

  // ---------------------------------------------------------------------------
  // What the line says
  // ---------------------------------------------------------------------------

  /**
   * A numeric field is written as its decimal digits, followed by `i`
   * exactly when its Go type is int, int16, int32 or int64; int8 and the
   * unsigned types fall to the default case and get no `i`.
   */
  lemma IntegerFieldSuffix(v: Value, p: Printer)
    requires v.Signed? || v.Unsigned?
    ensures var r := Render(v, p);
      && 0 < |r|
      && (r[|r| - 1] == 'i' <==> v.Signed? && v.skind != Int8)
      && r[..|r| - (if r[|r| - 1] == 'i' then 1 else 0)] == Decimal(if v.Signed? then v.n else v.u)
  {
    var d := Decimal(if v.Signed? then v.n else v.u);
    assert IsDigit(d[|d| - 1]) by {
      if d[0] == '-' {
        assert d[|d| - 1] == d[1..][|d| - 2];
      }
    }
    if v.Signed? && v.skind != Int8 {
      assert Render(v, p) == d + "i";
      assert (d + "i")[..|d|] == d;
    } else {
      assert Render(v, p) == d;
    }
  }

  /**
   * A string field is written by `%q`: between double quotes, read back
   * unchanged by unquoting, and for printable ASCII text free of `"` and `\`
   * simply the text between quotes.
   */
  lemma TextFieldQuoted(s: string, p: Printer)
    ensures var r := Render(Text(s), p);
      && 2 <= |r| && r[0] == '"' && r[|r| - 1] == '"'
      && Unquote(r) == Some(s)
      && ((forall i :: 0 <= i < |s| ==> 0x20 <= s[i] as int <= 0x7E && s[i] != '"' && s[i] != '\\')
          ==> r == "\"" + s + "\"")
  {
    UnquoteQuote(s, p.widePrint);
    if forall i :: 0 <= i < |s| ==> 0x20 <= s[i] as int <= 0x7E && s[i] != '"' && s[i] != '\\' {
      QuotePlain(s, p.widePrint);
    }
  }

  lemma Framed(a: string, b: string, c: string)
    ensures |a| + |c| <= |a + b + c|
    ensures (a + b + c)[..|a|] == a && (a + b + c)[|a + b + c| - |c|..] == c
  {
  }

  /** With no fields the field clause is left out: `measurement[,tags] timestamp`. */
  lemma NoFieldsNoClause(m: Metric, p: Printer)
    requires m.fields == map[]
    ensures Line(m, p) == m.measurement + TagsText(Shown(m.tags, p)) + " " + Decimal(m.timestamp as int)
  {
    assert m.fields.Keys == {};
  }

  /** The keys `field1`, `field2`, `field3` are written in that order. */
  lemma SortedExampleKeys()
    ensures SortedKeys({"field1", "field2", "field3"}) == ["field1", "field2", "field3"]
  {
    var s := ["field1", "field2", "field3"];
    assert Less(s[0], s[1]) && Less(s[1], s[2]);
    LessTransitive(s[0], s[1], s[2]);
    assert StrictlyAscending(s);
    AscendingUnique(s, SortedKeys({"field1", "field2", "field3"}));
  }

  /** The tags of the serialiser's test metric. */
  function ExampleTags(): seq<(string, Value)>
  {
    [("mytag1", Text("myvalue1")), ("mytag2", Text("myvalue2"))]
  }

  /** The fields of the serialiser's test metric: a float, an int and a string. */
  function ExampleFields(): map<string, Value>
  {
    map["field1" := Floating(Float64, Finite(1.229999999999999982236431605997495353221893310546875)),
        "field2" := Signed(Int, 4),
        "field3" := Text("abcABC")]
  }

  lemma ExampleTagsText(p: Printer)
    ensures TagsText(Shown(ExampleTags(), p)) == ",mytag1=myvalue1,mytag2=myvalue2"
  {
    assert Shown(ExampleTags(), p) == [("mytag1", "myvalue1"), ("mytag2", "myvalue2")];
    TwoTags("mytag1", "myvalue1", "mytag2", "myvalue2");
    ExampleTagsLiteral();
  }

  lemma ExampleTagsLiteral()
    ensures "," + "mytag1" + "=" + "myvalue1" + "," + "mytag2" + "=" + "myvalue2" == ",mytag1=myvalue1,mytag2=myvalue2"
  {
  }

  lemma TwoTags(k1: string, v1: string, k2: string, v2: string)
    ensures TagsText([(k1, v1), (k2, v2)]) == "," + k1 + "=" + v1 + "," + k2 + "=" + v2
  {
    assert [(k1, v1), (k2, v2)][..1] == [(k1, v1)];
    assert [(k1, v1)][..0] == [];
    assert TagsText([(k1, v1)]) == "" + "," + k1 + "=" + v1;
    assert "" + "," + k1 + "=" + v1 == "," + k1 + "=" + v1;
  }

  lemma ExampleRenders(p: Printer)
    ensures Render(ExampleFields()["field1"], p) == "1.230000"
    ensures Render(ExampleFields()["field2"], p) == "4i"
    ensures Render(ExampleFields()["field3"], p) == "\"abcABC\""
  {
    FloatOnePointTwoThree(p);
    IntegerFour(p);
    TextAbc(p);
  }

  lemma FloatOnePointTwoThree(p: Printer)
    ensures Render(Floating(Float64, Finite(1.229999999999999982236431605997495353221893310546875)), p) == "1.230000"
  {
    FixedOfOnePointTwoThree();
  }

  lemma TextAbc(p: Printer)
    ensures Render(Text("abcABC"), p) == "\"abcABC\""
  {
    AbcPlain(p.widePrint);
    QuotedAbcLiteral();
  }

  lemma AbcPlain(w: char -> bool)
    ensures Quote("abcABC", w) == "\"" + "abcABC" + "\""
  {
    var s := "abcABC";
    assert s == ['a', 'b', 'c', 'A', 'B', 'C'];
    QuotePlain(s, w);
  }

  lemma QuotedAbcLiteral()
    ensures "\"" + "abcABC" + "\"" == "\"abcABC\""
  {
  }

  lemma IntegerFour(p: Printer)
    ensures Render(Signed(Int, 4), p) == "4i"
  {
    assert Decimal(4) == "4";
  }

  lemma ExampleKeys()
    ensures SortedKeys(ExampleFields().Keys) == ["field1", "field2", "field3"]
  {
    assert ExampleFields().Keys == {"field1", "field2", "field3"};
    SortedExampleKeys();
  }

  lemma ExampleRenderedInOrder(p: Printer)
    ensures Rendered(["field1", "field2", "field3"], ExampleFields(), p)
            == [("field1", "1.230000"), ("field2", "4i"), ("field3", "\"abcABC\"")]
  {
    ExampleRenders(p);
    RenderedThree("field1", "field2", "field3", ExampleFields(), p);
  }

  lemma RenderedThree(k1: string, k2: string, k3: string, fields: map<string, Value>, p: Printer)
    requires k1 in fields && k2 in fields && k3 in fields
    ensures Rendered([k1, k2, k3], fields, p)
            == [(k1, Render(fields[k1], p)), (k2, Render(fields[k2], p)), (k3, Render(fields[k3], p))]
  {
  }

  lemma ExampleRendered(p: Printer)
    ensures Rendered(SortedKeys(ExampleFields().Keys), ExampleFields(), p)
            == [("field1", "1.230000"), ("field2", "4i"), ("field3", "\"abcABC\"")]
  {
    ExampleKeys();
    ExampleRenderedInOrder(p);
  }

  lemma ExampleFieldsText()
    ensures FieldsText([("field1", "1.230000"), ("field2", "4i"), ("field3", "\"abcABC\"")])
            == " field1=1.230000,field2=4i,field3=\"abcABC\""
  {
    var rendered := [("field1", "1.230000"), ("field2", "4i"), ("field3", "\"abcABC\"")];
    assert rendered[..2] == [("field1", "1.230000"), ("field2", "4i")];
    assert rendered[..2][..1] == [("field1", "1.230000")];
    assert FieldsText(rendered[..2][..1]) == " field1=1.230000";
    assert FieldsText(rendered[..2]) == " field1=1.230000,field2=4i";
  }

  /**
   * The serialiser's test metric: two string tags, a float, an int and a
   * string field, for any timestamp.
   */
  lemma ExampleLine(t: int64, p: Printer)
    ensures Line(Metric("test-measurement", ExampleTags(), ExampleFields(), t), p)
            == "test-measurement" + ",mytag1=myvalue1,mytag2=myvalue2"
               + " field1=1.230000,field2=4i,field3=\"abcABC\"" + " " + Decimal(t as int)
  {
    ExampleTagsText(p);
    ExampleRendered(p);
    ExampleFieldsText();
  }

  /**
   * Tags are written in the order iteration visits them, and Go leaves that
   * order open: visiting `mytag2` first gives a different line from the one
   * the test metric's expected text spells out.
   */
  lemma TagOrderShows(t: int64, p: Printer)
    ensures Line(Metric("test-measurement", ExampleTags(), ExampleFields(), t), p)
            != Line(Metric("test-measurement", [ExampleTags()[1], ExampleTags()[0]], ExampleFields(), t), p)
  {
    var m1 := Metric("test-measurement", ExampleTags(), ExampleFields(), t);
    var m2 := Metric("test-measurement", [ExampleTags()[1], ExampleTags()[0]], ExampleFields(), t);
    ExampleTagsText(p);
    SwappedTagsText(p);
    TagDigitAt22();
    assert Line(m1, p)[22] != Line(m2, p)[22];
  }

  lemma SwappedTagsText(p: Printer)
    ensures TagsText(Shown([ExampleTags()[1], ExampleTags()[0]], p)) == ",mytag2=myvalue2,mytag1=myvalue1"
  {
    assert Shown([ExampleTags()[1], ExampleTags()[0]], p) == [("mytag2", "myvalue2"), ("mytag1", "myvalue1")];
    TwoTags("mytag2", "myvalue2", "mytag1", "myvalue1");
    SwappedTagsLiteral();
  }

  lemma SwappedTagsLiteral()
    ensures "," + "mytag2" + "=" + "myvalue2" + "," + "mytag1" + "=" + "myvalue1" == ",mytag2=myvalue2,mytag1=myvalue1"
  {
  }

  lemma TagDigitAt22()
    ensures |"test-measurement" + ",mytag1=myvalue1,mytag2=myvalue2"| == 48
    ensures ("test-measurement" + ",mytag1=myvalue1,mytag2=myvalue2")[22] == '1'
    ensures ("test-measurement" + ",mytag2=myvalue2,mytag1=myvalue1")[22] == '2'
  {
  }

  /**
   * Names are not escaped, so a comma inside a measurement reads like a tag:
   * two different metrics can give the same line.
   */
  lemma MeasurementNotEscaped(p: Printer)
    ensures Line(Metric("cpu,host=a", [], map[], 0), p) == Line(Metric("cpu", [("host", Text("a"))], map[], 0), p)
  {
    var d := Decimal(0);
    NoFieldsNoClause(Metric("cpu,host=a", [], map[], 0), p);
    NoFieldsNoClause(Metric("cpu", [("host", Text("a"))], map[], 0), p);
    assert Shown([("host", Text("a"))], p) == [("host", "a")];
    assert TagsText([("host", "a")]) == "" + "," + "host" + "=" + "a" by {
      assert [("host", "a")][..0] == [];
    }
    CommaInMeasurement(d);
  }

  lemma CommaInMeasurement(d: string)
    ensures "cpu,host=a" + TagsText([]) + " " + d == "cpu" + ("" + "," + "host" + "=" + "a") + " " + d
  {
    assert "cpu,host=a" == "cpu" + ("" + "," + "host" + "=" + "a");
  }
}
