/**
 * Reading a line back. A reader for the lines `LPMetric.String()` writes, and
 * the proof that it recovers the measurement, the tags in order, the fields in
 * the order they were written, and the timestamp, whenever names and values
 * keep clear of the separators (nothing in a line is escaped except what `%q`
 * escapes inside a string field).
 */
module LineParse {
  import opened Wrappers
  import opened GoFmt
  import opened StringOrder
  import opened LineProtocol

  predicate IsDelim(c: char) { c == ',' || c == ' ' }

  predicate IsNameDelim(c: char) { c == ',' || c == ' ' || c == '=' }

  /** Text that no separator cuts short: no comma and no space. */
  predicate Bare(s: string) { forall i :: 0 <= i < |s| ==> !IsDelim(s[i]) }

  /** A tag or field key: no comma, space or equals sign. */
  predicate Name(s: string) { forall i :: 0 <= i < |s| ==> !IsNameDelim(s[i]) }

  /** Length of the longest prefix of `s` holding no character `stop` accepts. */
  function Span(s: string, stop: char -> bool): (n: nat)
    ensures n <= |s|
    ensures forall i :: 0 <= i < n ==> !stop(s[i])
    ensures n < |s| ==> stop(s[n])
  {
    if s == [] || stop(s[0]) then 0 else 1 + Span(s[1..], stop)
  }

  lemma SpanPrefix(a: string, b: string, stop: char -> bool)
    requires forall i :: 0 <= i < |a| ==> !stop(a[i])
    requires b == [] || stop(b[0])
    ensures Span(a + b, stop) == |a|
  {
    assert forall i :: 0 <= i < |a| ==> (a + b)[i] == a[i];
    assert |a| < |a + b| ==> (a + b)[|a|] == b[0];
  }

  function Plus(r: Option<nat>, k: nat): Option<nat>
  {
    match r
    case None => None
    case Some(n) => Some(n + k)
  }

  /**
   * Inside a `%q` literal, after its opening quote: how many characters come
   * before the closing quote, stepping over each backslash escape whole.
   */
  function QuotedLength(t: string): (r: Option<nat>)
    ensures r.Some? ==> r.value < |t| && t[r.value] == '"'
    decreases |t|
  {
    if t == [] then None
    else if t[0] == '"' then Some(0)
    else if t[0] == '\\' then
      if |t| < 2 then None else Plus(QuotedLength(t[2..]), 2)
    else Plus(QuotedLength(t[1..]), 1)
  }

  /** No quote and no backslash. */
  predicate Unmarked(h: string) { forall i :: 0 <= i < |h| ==> h[i] != '"' && h[i] != '\\' }

  lemma PlusPlus(r: Option<nat>, a: nat, b: nat)
    ensures Plus(Plus(r, a), b) == Plus(r, a + b)
  {
  }

  lemma {:induction false} QuotedLengthUnmarked(h: string, t: string)
    requires Unmarked(h)
    ensures QuotedLength(h + t) == Plus(QuotedLength(t), |h|)
    decreases |h|
  {
    if h == [] {
      assert h + t == t;
      PlusPlus(QuotedLength(t), 0, 0);
    } else {
      assert (h + t)[1..] == h[1..] + t;
      QuotedLengthUnmarked(h[1..], t);
      PlusPlus(QuotedLength(t), |h| - 1, 1);
    }
  }

  /** An escape sequence other than `\"` and `\\`: a backslash, a letter, then hex digits or nothing. */
  lemma EscapeTail(c: char, w: char -> bool)
    requires c != '"' && c != '\\' && !IsPrint(c, w)
    ensures var e := EscapeRune(c, w); 2 <= |e| && e[0] == '\\' && Unmarked(e[2..])
  {
    var e := EscapeRune(c, w);
    if c as int < 0x20 || c as int == 0x7F || c as int >= 0x10000 || !(c as int == 7 || c as int == 8 || c as int == 12 || c == '\n' || c == '\r' || c == '\t' || c as int == 11) {
      assert AllHexDigits(e[2..]);
    }
  }

  lemma QuotedLengthRune(c: char, w: char -> bool, t: string)
    ensures QuotedLength(EscapeRune(c, w) + t) == Plus(QuotedLength(t), |EscapeRune(c, w)|)
  {
    var e := EscapeRune(c, w);
    if c == '"' || c == '\\' {
      assert (e + t)[2..] == t;
      PlusPlus(QuotedLength(t), 0, 2);
    } else if IsPrint(c, w) {
      assert (e + t)[1..] == t;
      PlusPlus(QuotedLength(t), 0, 1);
    } else {
      EscapeTail(c, w);
      assert (e + t)[2..] == e[2..] + t;
      QuotedLengthUnmarked(e[2..], t);
      PlusPlus(QuotedLength(t), |e| - 2, 2);
    }
  }

  lemma {:induction false} QuotedLengthEscaped(s: string, w: char -> bool, t: string)
    ensures QuotedLength(Escaped(s, w) + t) == Plus(QuotedLength(t), |Escaped(s, w)|)
    decreases |s|
  {
    if s == [] {
      assert Escaped(s, w) + t == t;
      PlusPlus(QuotedLength(t), 0, 0);
    } else {
      QuotedLengthEscaped(s[1..], w, t);
      QuotedLengthEscapedStep(s, w, t);
    }
  }

  lemma QuotedLengthEscapedStep(s: string, w: char -> bool, t: string)
    requires s != []
    requires QuotedLength(Escaped(s[1..], w) + t) == Plus(QuotedLength(t), |Escaped(s[1..], w)|)
    ensures QuotedLength(Escaped(s, w) + t) == Plus(QuotedLength(t), |Escaped(s, w)|)
  {
    var e, rest := EscapeRune(s[0], w), Escaped(s[1..], w);
    assert Escaped(s, w) == e + rest;
    QuotedLengthRune(s[0], w, rest + t);
    QuotedLengthConcat(e, rest, t);
  }

  lemma QuotedLengthConcat(e: string, rest: string, t: string)
    requires QuotedLength(e + (rest + t)) == Plus(QuotedLength(rest + t), |e|)
    requires QuotedLength(rest + t) == Plus(QuotedLength(t), |rest|)
    ensures QuotedLength(e + rest + t) == Plus(QuotedLength(t), |e + rest|)
  {
    Associative(e, rest, t);
    PlusPlus(QuotedLength(t), |rest|, |e|);
  }

  /** Reading stops at the first closing quote, whatever follows it. */
  lemma {:induction false} QuotedLengthExtend(x: string, y: string)
    requires QuotedLength(x).Some?
    ensures QuotedLength(x + y) == QuotedLength(x)
    decreases |x|
  {
    if x[0] == '"' {
    } else if x[0] == '\\' {
      assert (x + y)[2..] == x[2..] + y;
      QuotedLengthExtend(x[2..], y);
    } else {
      assert (x + y)[1..] == x[1..] + y;
      QuotedLengthExtend(x[1..], y);
    }
  }

  /** A `%q` literal whose closing quote is its last character. */
  predicate QuotedForm(v: string)
  {
    2 <= |v| && v[0] == '"' && QuotedLength(v[1..]) == Some(|v| - 2)
  }

  /** Everything `%q` writes is read back whole, up to its own closing quote. */
  lemma QuoteQuotedForm(s: string, w: char -> bool)
    ensures QuotedForm(Quote(s, w))
  {
    var q := Quote(s, w);
    assert q[1..] == Escaped(s, w) + "\"";
    QuotedLengthEscaped(s, w, "\"");
  }

  /**
   * Length of the value at the start of `s`: a quoted literal through its
   * closing quote when `quoted` allows one, otherwise up to the next comma
   * or space.
   */
  function ValueLength(s: string, quoted: bool): (r: Option<nat>)
    ensures r.Some? ==> r.value <= |s|
  {
    if quoted && s != [] && s[0] == '"' then Plus(QuotedLength(s[1..]), 2)
    else Some(Span(s, IsDelim))
  }

  /** A value the reader takes back whole: a quoted literal (for a field), or bare text that does not look like one. */
  predicate Readable(v: string, quoted: bool)
  {
    (quoted && QuotedForm(v)) || (Bare(v) && (quoted && v != [] ==> v[0] != '"'))
  }

  lemma ValueLengthOf(v: string, rest: string, quoted: bool)
    requires Readable(v, quoted)
    requires rest == [] || IsDelim(rest[0])
    ensures ValueLength(v + rest, quoted) == Some(|v|)
  {
    if quoted && QuotedForm(v) {
      assert (v + rest)[1..] == v[1..] + rest;
      QuotedLengthExtend(v[1..], rest);
    } else {
      assert quoted && (v + rest) != [] ==> (v + rest)[0] != '"' by {
        if v == [] {
          assert v + rest == rest;
        } else {
          assert (v + rest)[0] == v[0];
        }
      }
      SpanPrefix(v, rest, IsDelim);
    }
  }

  /** `key=value` at the start of `s`: the pair, and the text after it. */
  function ParsePair(s: string, quoted: bool): (r: Option<((string, string), string)>)
    ensures r.Some? ==> |r.value.1| < |s|
  {
    var k := Span(s, IsNameDelim);
    if k == |s| || s[k] != '=' then None
    else match ValueLength(s[k + 1..], quoted)
      case None => None
      case Some(n) => Some(((s[..k], s[k + 1..][..n]), s[k + 1..][n..]))
  }

  /** Zero or more `,key=value` at the start of `s`: the pairs in order, and the text after them. */
  function ParsePairs(s: string, quoted: bool): Option<(seq<(string, string)>, string)>
    decreases |s|
  {
    if s == [] || s[0] != ',' then Some(([], s))
    else match ParsePair(s[1..], quoted)
      case None => None
      case Some((pair, rest)) =>
        match ParsePairs(rest, quoted)
        case None => None
        case Some((more, tail)) => Some(([pair] + more, tail))
  }

  /**
   * The field clause `key=value[,key=value...] ` that precedes the
   * timestamp, and the timestamp text; no clause when the text left holds no
   * `key=`.
   */
  function ParseFieldClause(s: string): Option<(seq<(string, string)>, string)>
  {
    match ParsePair(s, true)
    case None => Some(([], s))
    case Some((first, rest)) =>
      match ParsePairs(rest, true)
      case None => None
      case Some((more, tail)) =>
        if tail == [] || tail[0] != ' ' then None else Some(([first] + more, tail[1..]))
  }

  /** What a line says: measurement, tags and fields as text, timestamp. */
  datatype Parsed = Parsed(measurement: string, tags: seq<(string, string)>, fields: seq<(string, string)>, timestamp: int)

  function ParseLine(s: string): Option<Parsed>
  {
    var n := Span(s, IsDelim);
    match ParsePairs(s[n..], false)
    case None => None
    case Some((tags, r)) =>
      if r == [] || r[0] != ' ' then None
      else match ParseFieldClause(r[1..])
        case None => None
        case Some((fields, ts)) =>
          match ParseDecimal(ts)
          case None => None
          case Some(t) => Some(Parsed(s[..n], tags, fields, t))
  }

  // ---------------------------------------------------------------------------
  // Round trip
  // ---------------------------------------------------------------------------

  /** The tag clause read from the front: the first pair, then the others. */
  lemma {:induction false} TagsTextCons(x: (string, string), t: seq<(string, string)>)
    ensures TagsText([x] + t) == "," + x.0 + "=" + x.1 + TagsText(t)
    decreases |t|
  {
    if t == [] {
      assert [x] + t == [x];
      assert [x][..0] == [];
    } else {
      var u, y := t[..|t| - 1], t[|t| - 1];
      assert ([x] + t)[..|[x] + t| - 1] == [x] + u;
      assert t[..|t| - 1] == u;
      TagsTextCons(x, u);
      Associative("," + x.0 + "=" + x.1, TagsText(u), "," + y.0 + "=" + y.1);
    }
  }

  /** A non-empty field clause is a space, the first pair, then `,key=value` for each other pair. */
  lemma {:induction false} FieldsTextCons(f: seq<(string, string)>)
    requires f != []
    ensures FieldsText(f) == " " + f[0].0 + "=" + f[0].1 + TagsText(f[1..])
    decreases |f|
  {
    if |f| == 1 {
      FieldsTextOne(f);
    } else {
      FieldsTextCons(f[..|f| - 1]);
      FieldsTextConsStep(f);
    }
  }

  lemma FieldsTextOne(f: seq<(string, string)>)
    requires |f| == 1
    ensures FieldsText(f) == " " + f[0].0 + "=" + f[0].1 + TagsText(f[1..])
  {
    assert f[..0] == [] && f[1..] == [];
  }

  lemma FieldsTextConsStep(f: seq<(string, string)>)
    requires 1 < |f|
    requires var u := f[..|f| - 1]; FieldsText(u) == " " + u[0].0 + "=" + u[0].1 + TagsText(u[1..])
    ensures FieldsText(f) == " " + f[0].0 + "=" + f[0].1 + TagsText(f[1..])
  {
    var u, y := f[..|f| - 1], f[|f| - 1];
    assert u[0] == f[0];
    assert f[1..][..|f[1..]| - 1] == u[1..];
    Associative(" " + f[0].0 + "=" + f[0].1, TagsText(u[1..]), "," + y.0 + "=" + y.1);
  }

  predicate AllReadable(pairs: seq<(string, string)>, quoted: bool)
  {
    forall i :: 0 <= i < |pairs| ==> Name(pairs[i].0) && Readable(pairs[i].1, quoted)
  }

  lemma ParsePairOf(k: string, v: string, rest: string, quoted: bool)
    requires Name(k) && Readable(v, quoted)
    requires rest == [] || IsDelim(rest[0])
    ensures ParsePair(k + "=" + v + rest, quoted) == Some(((k, v), rest))
  {
    var s := k + "=" + v + rest;
    assert s == k + ("=" + v + rest);
    SpanPrefix(k, "=" + v + rest, IsNameDelim);
    assert s[|k|] == '=';
    assert s[..|k|] == k;
    assert s[|k| + 1..] == v + rest;
    ValueLengthOf(v, rest, quoted);
    assert (v + rest)[..|v|] == v;
    assert (v + rest)[|v|..] == rest;
  }

  /** A tag clause followed by a space or by nothing starts with a separator or is empty. */
  lemma TagsThenSpace(t: seq<(string, string)>, rest: string)
    requires rest == [] || rest[0] == ' '
    ensures var s := TagsText(t) + rest; s == [] || IsDelim(s[0])
  {
    if t != [] {
      TagsTextCons(t[0], t[1..]);
      assert [t[0]] + t[1..] == t;
    } else {
      assert TagsText(t) + rest == rest;
    }
  }

  lemma {:induction false} ParsePairsOf(pairs: seq<(string, string)>, rest: string, quoted: bool)
    requires AllReadable(pairs, quoted)
    requires rest == [] || rest[0] == ' '
    ensures ParsePairs(TagsText(pairs) + rest, quoted) == Some((pairs, rest))
    decreases |pairs|
  {
    if pairs == [] {
      assert TagsText(pairs) + rest == rest;
    } else {
      var x, t := pairs[0], pairs[1..];
      assert pairs == [x] + t;
      TagsTextCons(x, t);
      var after := TagsText(t) + rest;
      TagsThenSpace(t, rest);
      var s := TagsText(pairs) + rest;
      PairShape(x.0, x.1, TagsText(t), rest);
      assert s[1..] == x.0 + "=" + x.1 + after;
      ParsePairOf(x.0, x.1, after, quoted);
      ParsePairsOf(t, rest, quoted);
      PairsOf(s, x, after, t, rest, quoted);
    }
  }

  lemma PairShape(k: string, v: string, t: string, rest: string)
    ensures "," + k + "=" + v + t + rest == "," + (k + "=" + v + (t + rest))
  {
  }

  lemma PairsOf(s: string, pair: (string, string), rest: string, more: seq<(string, string)>, tail: string, quoted: bool)
    requires s != [] && s[0] == ','
    requires ParsePair(s[1..], quoted) == Some((pair, rest))
    requires ParsePairs(rest, quoted) == Some((more, tail))
    ensures ParsePairs(s, quoted) == Some(([pair] + more, tail))
  {
  }

  /** Names and values the reader can take back: the line is not ambiguous. */
  predicate ReadableMetric(m: Metric, p: Printer)
  {
    && Bare(m.measurement)
    && (forall i :: 0 <= i < |m.tags| ==> Name(m.tags[i].0) && Bare(Show(m.tags[i].1, p)))
    && (forall k :: k in m.fields ==> Name(k) && Readable(Render(m.fields[k], p), true))
  }

  lemma DecimalBare(n: int)
    ensures Bare(Decimal(n)) && Unmarked(Decimal(n)) && Name(Decimal(n))
    ensures Decimal(n)[|Decimal(n)| - 1] != 'i'
  {
    var d := Decimal(n);
    forall i | 0 <= i < |d|
      ensures d[i] == '-' || IsDigit(d[i])
    {
      if n < 0 && 0 < i {
        assert d[i] == d[1..][i - 1];
      }
    }
    assert IsDigit(d[|d| - 1]);
  }

  lemma ClauseShape(k: string, v: string, t: string, d: string)
    ensures " " + k + "=" + v + t + " " + d == " " + (k + "=" + v + (t + (" " + d)))
  {
  }

  lemma LineShape(a: string, b: string, c: string, d: string)
    ensures a + b + c + " " + d == a + (b + (c + " " + d))
  {
  }

  lemma NonEmptyClause(x: (string, string), more: seq<(string, string)>, d: string)
    requires Name(x.0) && Readable(x.1, true) && AllReadable(more, true)
    ensures ParseFieldClause(x.0 + "=" + x.1 + (TagsText(more) + (" " + d))) == Some(([x] + more, d))
  {
    var after := TagsText(more) + (" " + d);
    TagsThenSpace(more, " " + d);
    ParsePairOf(x.0, x.1, after, true);
    ParsePairsOf(more, " " + d, true);
    ClauseOf(x.0 + "=" + x.1 + after, x, after, more, d);
  }

  lemma ClauseOf(s: string, first: (string, string), rest: string, more: seq<(string, string)>, d: string)
    requires ParsePair(s, true) == Some((first, rest))
    requires ParsePairs(rest, true) == Some((more, " " + d))
    ensures ParseFieldClause(s) == Some(([first] + more, d))
  {
    assert (" " + d)[1..] == d;
  }

  /** The field clause and the timestamp text after it read back as written. */
  lemma FieldClauseRoundTrip(fields: seq<(string, string)>, d: string)
    requires AllReadable(fields, true) && Name(d)
    ensures var r := FieldsText(fields) + " " + d;
      r[0] == ' ' && ParseFieldClause(r[1..]) == Some((fields, d))
  {
    var r := FieldsText(fields) + " " + d;
    if fields == [] {
      assert r[1..] == d;
      SpanPrefix(d, [], IsNameDelim);
      assert d + [] == d;
      assert ParsePair(d, true) == None;
    } else {
      var k, v, t := fields[0].0, fields[0].1, TagsText(fields[1..]);
      FieldsTextCons(fields);
      ClauseShape(k, v, t, d);
      assert r[1..] == k + "=" + v + (t + (" " + d));
      NonEmptyClause(fields[0], fields[1..], d);
      assert [fields[0]] + fields[1..] == fields;
    }
  }

  /** A line assembled from readable parts reads back as those parts. */
  lemma ParseLineOf(measurement: string, tags: seq<(string, string)>, fields: seq<(string, string)>, d: string, t: int)
    requires Bare(measurement) && AllReadable(tags, false) && AllReadable(fields, true)
    requires Name(d) && ParseDecimal(d) == Some(t)
    ensures ParseLine(measurement + TagsText(tags) + FieldsText(fields) + " " + d)
            == Some(Parsed(measurement, tags, fields, t))
  {
    var r := FieldsText(fields) + " " + d;
    var line := measurement + TagsText(tags) + FieldsText(fields) + " " + d;
    FieldClauseRoundTrip(fields, d);
    TagsThenSpace(tags, r);
    LineShape(measurement, TagsText(tags), FieldsText(fields), d);
    SpanPrefix(measurement, TagsText(tags) + r, IsDelim);
    assert line[..|measurement|] == measurement;
    assert line[|measurement|..] == TagsText(tags) + r;
    ParsePairsOf(tags, r, false);
  }

  /** Reading what the serialiser writes gives back each of its parts. */
  lemma LineRoundTrip(m: Metric, p: Printer)
    requires ReadableMetric(m, p)
    ensures ParseLine(Line(m, p))
            == Some(Parsed(m.measurement, Shown(m.tags, p),
                           Rendered(SortedKeys(m.fields.Keys), m.fields, p), m.timestamp as int))
  {
    var tags := Shown(m.tags, p);
    var fields := Rendered(SortedKeys(m.fields.Keys), m.fields, p);
    var d := Decimal(m.timestamp as int);
    TagsReadable(m, p);
    FieldsReadable(m, p);
    DecimalBare(m.timestamp as int);
    DecimalRoundTrip(m.timestamp as int);
    ParseLineOf(m.measurement, tags, fields, d, m.timestamp as int);
    assert Line(m, p) == m.measurement + TagsText(tags) + FieldsText(fields) + " " + d;
  }

  lemma TagsReadable(m: Metric, p: Printer)
    requires ReadableMetric(m, p)
    ensures AllReadable(Shown(m.tags, p), false)
  {
  }

  lemma FieldsReadable(m: Metric, p: Printer)
    requires ReadableMetric(m, p)
    ensures AllReadable(Rendered(SortedKeys(m.fields.Keys), m.fields, p), true)
  {
    var keys := SortedKeys(m.fields.Keys);
    var fields := Rendered(keys, m.fields, p);
    forall i | 0 <= i < |fields|
      ensures Name(fields[i].0) && Readable(fields[i].1, true)
    {
      assert keys[i] in m.fields;
    }
  }

  function KeysOf(pairs: seq<(string, string)>): seq<string>
  {
    seq(|pairs|, i requires 0 <= i < |pairs| => pairs[i].0)
  }

  /**
   * A readable line names every field exactly once, in strictly ascending
   * key order, each followed by what its value renders to.
   */
  lemma FieldsReadInOrder(m: Metric, p: Printer)
    requires ReadableMetric(m, p)
    ensures var r := ParseLine(Line(m, p));
      && r.Some?
      && StrictlyAscending(KeysOf(r.value.fields))
      && (forall k :: k in KeysOf(r.value.fields) <==> k in m.fields)
      && (forall i :: 0 <= i < |r.value.fields| ==>
            r.value.fields[i].0 in m.fields && r.value.fields[i].1 == Render(m.fields[r.value.fields[i].0], p))
  {
    LineRoundTrip(m, p);
    RenderedKeys(SortedKeys(m.fields.Keys), m.fields, p);
  }

  lemma RenderedKeys(keys: seq<string>, fields: map<string, Value>, p: Printer)
    requires forall k :: k in keys <==> k in fields
    requires StrictlyAscending(keys)
    ensures var r := Rendered(keys, fields, p);
      && StrictlyAscending(KeysOf(r))
      && (forall k :: k in KeysOf(r) <==> k in fields)
      && (forall i :: 0 <= i < |r| ==> r[i].0 in fields && r[i].1 == Render(fields[r[i].0], p))
  {
    assert KeysOf(Rendered(keys, fields, p)) == keys;
  }

  // ---------------------------------------------------------------------------
  // Reading one field value
  // ---------------------------------------------------------------------------

  /** What the text of a field value says: an integer (`i` suffix), a string (`%q` literal), or anything else. */
  datatype FieldValue = IntegerField(n: int) | TextField(s: string) | BareField(t: string)

  function DecodeField(t: string): FieldValue
  {
    if 0 < |t| && t[|t| - 1] == 'i' && ParseDecimal(t[..|t| - 1]).Some? then IntegerField(ParseDecimal(t[..|t| - 1]).value)
    else if Unquote(t).Some? then TextField(Unquote(t).value)
    else BareField(t)
  }

  /** Six-place fixed point is digits and one point, ending in a digit. */
  lemma UnsignedFixedChars(n: nat)
    ensures var u := UnsignedFixed(n);
      && 0 < |u| && IsDigit(u[|u| - 1])
      && forall i :: 0 <= i < |u| ==> u[i] == '.' || IsDigit(u[i])
  {
    var a, b := Digits(n / 1_000_000), Padded(n % 1_000_000, 6, 10);
    var u := UnsignedFixed(n);
    assert u == a + "." + b;
    forall i | 0 <= i < |u|
      ensures u[i] == '.' || IsDigit(u[i])
    {
      if i < |a| {
        assert u[i] == a[i];
      } else if |a| < i {
        assert u[i] == b[i - |a| - 1];
      }
    }
    assert u[|u| - 1] == b[5];
  }

  lemma FixedBare(f: Float)
    ensures var s := FormatFixed(f); 0 < |s| && Bare(s) && s[0] != '"' && s[|s| - 1] != 'i'
  {
    match f
    case Finite(x) =>
      FixedDigitsBare(x < 0.0, RoundHalfEven(if x < 0.0 then -x * 1_000_000.0 else x * 1_000_000.0));
    case NegZero => NegZeroBare();
    case _ =>
  }

  lemma NegZeroBare()
    ensures Bare("-0.000000")
  {
  }

  lemma FixedDigitsBare(neg: bool, n: nat)
    ensures var s := FixedDigits(neg, n); 0 < |s| && Bare(s) && s[0] != '"' && s[|s| - 1] != 'i'
  {
    var u := UnsignedFixed(n);
    UnsignedFixedChars(n);
    if neg {
      var s := "-" + u;
      assert forall i :: 1 <= i < |s| ==> s[i] == u[i - 1];
    }
  }

  /**
   * A field value reads back by its kind: int, int16, int32 and int64 as
   * integers, strings as the string itself, and everything else (int8, the
   * unsigned kinds, floats, booleans) as bare text carrying no `i`.
   */
  lemma DecodeRendered(v: Value, p: Printer)
    ensures v.Signed? && v.skind != Int8 ==> DecodeField(Render(v, p)) == IntegerField(v.n)
    ensures v.Signed? && v.skind == Int8 ==> DecodeField(Render(v, p)) == BareField(Decimal(v.n))
    ensures v.Unsigned? ==> DecodeField(Render(v, p)) == BareField(Decimal(v.u))
    ensures v.Floating? ==> DecodeField(Render(v, p)) == BareField(FormatFixed(v.f))
    ensures v.Text? ==> DecodeField(Render(v, p)) == TextField(v.s)
    ensures v.Boolean? ==> DecodeField(Render(v, p)) == BareField(if v.b then "true" else "false")
  {
    match v
    case Signed(k, n) =>
      DecimalBare(n);
      if k != Int8 {
        DecodeInteger(n);
      } else {
        DecodeBare(Decimal(n));
      }
    case Unsigned(_, u) =>
      DecimalBare(u);
      DecodeBare(Decimal(u));
    case Floating(_, f) =>
      FixedBare(f);
      DecodeBare(FormatFixed(f));
    case Text(s) =>
      DecodeText(s, p.widePrint);
    case Boolean(b) =>
      DecodeBare(if b then "true" else "false");
    case _ =>
  }

  lemma DecodeInteger(n: int)
    ensures DecodeField(Decimal(n) + "i") == IntegerField(n)
  {
    var t := Decimal(n) + "i";
    assert t[..|t| - 1] == Decimal(n);
    DecimalRoundTrip(n);
  }

  lemma DecodeBare(t: string)
    requires 0 < |t| && t[0] != '"' && t[|t| - 1] != 'i'
    ensures DecodeField(t) == BareField(t)
  {
  }

  lemma DecodeText(s: string, w: char -> bool)
    ensures DecodeField(Quote(s, w)) == TextField(s)
  {
    UnquoteQuote(s, w);
  }

  /** Every value but one of no listed kind renders to text the reader takes back whole. */
  lemma RenderReadable(v: Value, p: Printer)
    requires !v.Other?
    ensures Readable(Render(v, p), true)
  {
    match v
    case Signed(k, n) =>
      DecimalBare(n);
      if k != Int8 {
        var t := Decimal(n) + "i";
        assert forall i :: 0 <= i < |t| - 1 ==> t[i] == Decimal(n)[i];
      }
    case Unsigned(_, u) =>
      DecimalBare(u);
    case Floating(_, f) =>
      FixedBare(f);
    case Text(s) =>
      QuoteQuotedForm(s, p.widePrint);
    case Boolean(b) =>
  }
}
