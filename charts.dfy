/** The chart compiler (`_build_chart_from_spec`): the `Chart_Type` entry of
    an analysis payload, one directive or a list of them, turned into Altair
    chart records over the current result table. */
module Charts {
  import opened Common
  import opened Json
  import opened Tables
  import opened Pie

  /** The mark of a chart over the table's own rows. */
  datatype Mark = Bar | LineWithPoints | Area | Point

  /** An Altair chart, as its encoding: a mark with `x` (in the data's own
      order) and `y`, or an arc with `theta` and `color`; each with its
      tooltip fields and the table it draws. */
  datatype Chart =
    | Plot(mark: Mark, x: Label, y: Label, tooltip: seq<Label>, data: Table)
    | Arc(theta: Label, color: Label, tooltip: seq<Label>, data: Table)

  /** What the compiler hands to `st.altair_chart`: one chart, or charts
      stacked vertically with `&`. */
  datatype Display = Single(chart: Chart) | VConcat(charts: seq<Chart>)

  /** The chart kinds the compiler tells apart. */
  datatype Kind = BarKind | LineKind | AreaKind | PieKind | OtherKind

  const MaxTooltip: nat := 10

  // ---------------------------------------------------------------------
  // One directive
  // ---------------------------------------------------------------------

  function LowerChar(c: char): char {
    if 'A' <= c <= 'Z' then (c as int + 32) as char else c
  }

  /** `str.lower()` on the letters the chart kinds are spelt with. */
  function Lower(s: string): (r: string)
    ensures |r| == |s| && forall i :: 0 <= i < |s| ==> r[i] == LowerChar(s[i])
  {
    seq(|s|, i requires 0 <= i < |s| => LowerChar(s[i]))
  }

  /** The kind a lower-cased type names; any other string draws points. */
  function KindOf(ctype: string): Kind {
    if ctype == "bar" then BarKind
    else if ctype == "line" then LineKind
    else if ctype == "area" then AreaKind
    else if ctype == "pie" then PieKind
    else OtherKind
  }

  /** Spelling a type in capitals or lower case picks the same kind. */
  lemma KindIgnoresCase(s: string, t: string)
    requires |s| == |t| && forall i :: 0 <= i < |s| ==> LowerChar(s[i]) == LowerChar(t[i])
    ensures KindOf(Lower(s)) == KindOf(Lower(t))
  {
    assert Lower(s) == Lower(t);
  }

  /** `single.get("type", "").lower()`: a missing type reads as `""`; a type
      that is not a string has no `lower` method. */
  function ChartType(ms: Members): (r: Result<string>)
    ensures r.Err? <==> HasKey(ms, "type") && !Lookup(ms, "type").value.JString?
    ensures r.Err? ==> r.fault == AttributeError
    ensures !HasKey(ms, "type") ==> r == Ok("")
    ensures r.Ok? && HasKey(ms, "type") ==> r.value == Lower(Lookup(ms, "type").value.s)
  {
    match Lookup(ms, "type")
    case None => Ok("")
    case Some(v) => if v.JString? then Ok(Lower(v.s)) else Err(AttributeError)
  }

  /** `single.get("columns", [])`. */
  function ColumnsOf(ms: Members): JsonValue {
    GetOr(ms, "columns", JArray([]))
  }

  /** `len(cols) < 2` and then `cols[0], cols[1]`: nothing when there are
      fewer than two entries; the first two characters of a string, the first
      two items of a list; a dict has no key `0`, and a number, a boolean or
      `None` has no length. */
  function FirstTwo(cols: JsonValue): (r: Result<Option<(JsonValue, JsonValue)>>)
    ensures cols.JArray? ==>
      r == (if |cols.items| < 2 then Ok(None) else Ok(Some((cols.items[0], cols.items[1]))))
    ensures cols.JString? ==>
      r == (if |cols.s| < 2 then Ok(None) else Ok(Some((JString([cols.s[0]]), JString([cols.s[1]])))))
    ensures cols.JObject? ==> r == (if |cols.members| < 2 then Ok(None) else Err(KeyError))
    ensures cols.JNull? || cols.JBool? || cols.JNumber? ==> r == Err(TypeError)
  {
    match cols
    case JArray(xs) => if |xs| < 2 then Ok(None) else Ok(Some((xs[0], xs[1])))
    case JString(s) => if |s| < 2 then Ok(None) else Ok(Some((JString([s[0]]), JString([s[1]]))))
    case JObject(ms) => if |ms| < 2 then Ok(None) else Err(KeyError)
    case _ => Err(TypeError)
  }

  /** `v in df.columns`: a string names a column when a label carries it; a
      list or a dict cannot be hashed. */
  function InColumns(v: JsonValue, labels: seq<Label>): (r: Result<Option<Label>>)
    ensures r.Err? <==> v.JArray? || v.JObject?
    ensures r.Ok? && r.value.Some? ==> v.JString? && r.value.value == Name(v.s) && r.value.value in labels
    ensures v.JString? && Name(v.s) in labels ==> r == Ok(Some(Name(v.s)))
  {
    match v
    case JString(s) => if Name(s) in labels then Ok(Some(Name(s))) else Ok(None)
    case JArray(_) => Err(TypeError)
    case JObject(_) => Err(TypeError)
    case _ => Ok(None)
  }

  /** `a` occurs in `b` as a contiguous piece: Python's `a in b` on strings
      (the empty string occurs everywhere). */
  predicate IsSubstring(a: string, b: string) {
    a <= b || (b != [] && IsSubstring(a, b[1..]))
  }

  /** `c in cols` for a column label `c`: list membership, substring search
      in a string, key membership in a dict; a number, a boolean or `None`
      is not a container, and a positional label cannot be searched for in a
      string. */
  function Contains(cols: JsonValue, c: Label): Result<bool> {
    match cols
    case JArray(xs) => Ok(c.Name? && JString(c.name) in xs)
    case JString(s) => if c.Name? then Ok(IsSubstring(c.name, s)) else Err(TypeError)
    case JObject(ms) => Ok(c.Name? && HasKey(ms, c.name))
    case _ => Err(TypeError)
  }

  /** `a` is `b` with some entries left out, the rest in their order. */
  predicate Subsequence<T(==)>(a: seq<T>, b: seq<T>) {
    a == [] || (b != [] && ((a[0] == b[0] && Subsequence(a[1..], b[1..])) || Subsequence(a, b[1..])))
  }

  /** `[c for c in df.columns if c in cols]`: the table's labels that the
      directive lists, in the table's order. */
  function Matching(labels: seq<Label>, cols: JsonValue): Result<seq<Label>> {
    if labels == [] then Ok([])
    else
      var keep :- Contains(cols, labels[0]);
      var rest :- Matching(labels[1..], cols);
      if keep then Ok([labels[0]] + rest) else Ok(rest)
  }

  /** The matching labels are the table's labels the directive lists, kept
      in the table's order; the comprehension raises exactly when one of its
      membership tests does. */
  lemma {:induction false} MatchingMembers(labels: seq<Label>, cols: JsonValue)
    ensures Matching(labels, cols).Err? <==> exists i :: 0 <= i < |labels| && Contains(cols, labels[i]).Err?
    ensures Matching(labels, cols).Ok? ==> Subsequence(Matching(labels, cols).value, labels)
    ensures Matching(labels, cols).Ok? ==>
      forall c :: c in Matching(labels, cols).value <==> c in labels && Contains(cols, c) == Ok(true)
  {
    if labels != [] {
      MatchingMembers(labels[1..], cols);
      assert forall c :: c in labels <==> c == labels[0] || c in labels[1..] by {
        assert labels == [labels[0]] + labels[1..];
      }
      assert forall i :: 1 <= i < |labels| ==> labels[i] == labels[1..][i - 1];
      var r := Matching(labels, cols);
      if r.Ok? && Contains(cols, labels[0]) == Ok(true) {
        assert r.value[1..] == Matching(labels[1..], cols).value;
      }
    }
  }

  /** The first label is tested before the others. */
  lemma MatchingCons(l: seq<Label>, cols: JsonValue)
    requires l != []
    ensures Matching(l, cols) ==
      if Contains(cols, l[0]).Err? then Err(Contains(cols, l[0]).fault)
      else if Matching(l[1..], cols).Err? then Matching(l[1..], cols)
      else Ok((if Contains(cols, l[0]).value then [l[0]] else []) + Matching(l[1..], cols).value)
  {
    if Contains(cols, l[0]) == Ok(false) && Matching(l[1..], cols).Ok? {
      assert [] + Matching(l[1..], cols).value == Matching(l[1..], cols).value;
    }
  }

  /** One label on its own is kept exactly when the directive lists it. */
  lemma MatchingOne(c: Label, cols: JsonValue)
    ensures Matching([c], cols) ==
      match Contains(cols, c)
      case Err(f) => Err(f)
      case Ok(keep) => Ok(if keep then [c] else [])
  {
    MatchingCons([c], cols);
    assert [c][1..] == [];
    var keep := if Contains(cols, c) == Ok(true) then [c] else [];
    assert keep + [] == keep;
  }

  /** The labels are tested one by one: the matches of a concatenation are
      those of its first part followed by those of its second, so a repeated
      label is kept as often as it occurs, and the first failing test wins. */
  lemma {:induction false} MatchingAppend(a: seq<Label>, b: seq<Label>, cols: JsonValue)
    ensures Matching(a + b, cols) ==
      if Matching(a, cols).Err? then Matching(a, cols)
      else if Matching(b, cols).Err? then Matching(b, cols)
      else Ok(Matching(a, cols).value + Matching(b, cols).value)
  {
    if a == [] {
      assert a + b == b;
      if Matching(b, cols).Ok? {
        assert [] + Matching(b, cols).value == Matching(b, cols).value;
      }
    } else {
      var ab := a + b;
      assert ab[0] == a[0] && ab[1..] == a[1..] + b;
      MatchingCons(a, cols);
      MatchingCons(ab, cols);
      MatchingAppend(a[1..], b, cols);
      var head := Contains(cols, a[0]);
      var ra, rb := Matching(a[1..], cols), Matching(b, cols);
      if head.Ok? && ra.Ok? && rb.Ok? {
        var h := if head.value then [a[0]] else [];
        assert h + (ra.value + rb.value) == h + ra.value + rb.value;
      }
    }
  }

  /** The tooltip fields: the first ten matching labels. */
  function Tooltip(labels: seq<Label>, cols: JsonValue): (r: Result<seq<Label>>)
    ensures r.Err? <==> Matching(labels, cols).Err?
    ensures r.Ok? ==> |r.value| <= MaxTooltip
    ensures r.Ok? ==> |r.value| <= |Matching(labels, cols).value|
                      && r.value == Matching(labels, cols).value[..|r.value|]
    ensures r.Ok? && |Matching(labels, cols).value| <= MaxTooltip ==> r.value == Matching(labels, cols).value
  {
    var ms :- Matching(labels, cols);
    if |ms| <= MaxTooltip then Ok(ms) else Ok(ms[..MaxTooltip])
  }

  /** The mark a non-pie kind draws with: `mark_bar`, `mark_line(point=True)`,
      `mark_area`, and `mark_point` for any other type. */
  function MarkOf(kind: Kind): Mark
    requires kind != PieKind
  {
    match kind
    case BarKind => Bar
    case LineKind => LineWithPoints
    case AreaKind => Area
    case OtherKind => Point
  }

  /** The chart for a directive whose two columns were found: a pie is an arc
      with the measure as theta and the dimension as color over the table
      aggregated by the dimension; every other kind plots the table itself
      with the dimension on x (in the data's own order), the measure on y and
      the given tooltip. */
  function ChartOf(kind: Kind, dim: Label, measure: Label, tip: seq<Label>, t: Table): (r: Chart)
    requires dim in t.cols && measure in t.cols && Rectangular(t)
    ensures r.Arc? <==> kind == PieKind
    ensures r.Plot? ==> r == Plot(MarkOf(kind), dim, measure, tip, t)
    ensures r.Arc? ==> r.theta == measure && r.color == dim && r.tooltip == [dim, measure]
    ensures r.Arc? ==> r.data == Aggregate(t, Find(t.cols, dim).value, Find(t.cols, measure).value)
  {
    if kind == PieKind then
      Arc(measure, dim, [dim, measure], Aggregate(t, Find(t.cols, dim).value, Find(t.cols, measure).value))
    else
      Plot(MarkOf(kind), dim, measure, tip, t)
  }

  /** A chart refers only to columns of the table it was compiled against:
      a plot draws that table itself, with its tooltip among the table's
      columns; an arc draws the table aggregated by its color column over its
      theta column. */
  predicate DrawsFrom(c: Chart, t: Table)
    requires Rectangular(t)
  {
    match c
    case Plot(_, x, y, tip, data) =>
      x in t.cols && y in t.cols && data == t && forall i :: 0 <= i < |tip| ==> tip[i] in t.cols
    case Arc(theta, color, tip, data) =>
      color in t.cols && theta in t.cols && tip == [color, theta]
      && data == Aggregate(t, Find(t.cols, color).value, Find(t.cols, theta).value)
  }

  /** One pass of the compiler's loop: a chart, nothing (the directive is
      skipped), or the exception that escapes the loop. */
  function CompileDirective(d: JsonValue, t: Table): (r: Result<Option<Chart>>)
    requires Rectangular(t)
    ensures !d.JObject? ==> r == Err(AttributeError)
    ensures r.Ok? && r.value.Some? ==> DrawsFrom(r.value.value, t)
  {
    if !d.JObject? then Err(AttributeError)
    else
      var ctype :- ChartType(d.members);
      var cols := ColumnsOf(d.members);
      var pair :- FirstTwo(cols);
      if pair.None? then Ok(None)
      else
        var dim :- InColumns(pair.value.0, t.cols);
        if dim.None? then Ok(None)
        else
          var measure :- InColumns(pair.value.1, t.cols);
          if measure.None? then Ok(None)
          else
            var tip :- Tooltip(t.cols, cols);
            MatchingMembers(t.cols, cols);
            Ok(Some(ChartOf(KindOf(ctype), dim.value, measure.value, tip, t)))
  }

  /** A well-typed directive whose first two columns are both table columns
      gives the chart its lower-cased type calls for, with the first column
      as dimension, the second as measure and the table columns it lists
      (at most ten) as tooltip; `ChartOf` states each kind's shape. */
  lemma DirectiveAccepted(ms: Members, xs: seq<JsonValue>, a: string, b: string, t: Table)
    requires Rectangular(t)
    requires !HasKey(ms, "type") || Lookup(ms, "type").value.JString?
    requires Lookup(ms, "columns") == Some(JArray(xs))
    requires |xs| >= 2 && xs[0] == JString(a) && xs[1] == JString(b)
    requires Name(a) in t.cols && Name(b) in t.cols
    ensures Tooltip(t.cols, JArray(xs)).Ok?
    ensures CompileDirective(JObject(ms), t)
         == Ok(Some(ChartOf(KindOf(ChartType(ms).value), Name(a), Name(b), Tooltip(t.cols, JArray(xs)).value, t)))
  {
    assert ColumnsOf(ms) == JArray(xs);
    MatchingMembers(t.cols, JArray(xs));
  }

  /** A directive with fewer than two listed columns is skipped. */
  lemma DirectiveTooFewColumns(ms: Members, xs: seq<JsonValue>, t: Table)
    requires Rectangular(t)
    requires !HasKey(ms, "type") || Lookup(ms, "type").value.JString?
    requires Lookup(ms, "columns") == Some(JArray(xs)) && |xs| < 2
    ensures CompileDirective(JObject(ms), t) == Ok(None)
  {
    assert ColumnsOf(ms) == JArray(xs);
  }

  /** A directive whose first column is not a table column is skipped, and
      its second column is then not even looked at. */
  lemma DirectiveUnknownDimension(ms: Members, xs: seq<JsonValue>, a: string, t: Table)
    requires Rectangular(t)
    requires !HasKey(ms, "type") || Lookup(ms, "type").value.JString?
    requires Lookup(ms, "columns") == Some(JArray(xs)) && |xs| >= 2
    requires xs[0] == JString(a) && Name(a) !in t.cols
    ensures CompileDirective(JObject(ms), t) == Ok(None)
  {
    assert ColumnsOf(ms) == JArray(xs);
  }

  /** A directive whose second column is not a table column is skipped. */
  lemma DirectiveUnknownMeasure(ms: Members, xs: seq<JsonValue>, a: string, b: string, t: Table)
    requires Rectangular(t)
    requires !HasKey(ms, "type") || Lookup(ms, "type").value.JString?
    requires Lookup(ms, "columns") == Some(JArray(xs)) && |xs| >= 2
    requires xs[0] == JString(a) && Name(a) in t.cols
    requires xs[1] == JString(b) && Name(b) !in t.cols
    ensures CompileDirective(JObject(ms), t) == Ok(None)
  {
    assert ColumnsOf(ms) == JArray(xs);
  }

  /** A directive with no `columns` key lists no columns and is skipped. */
  lemma DirectiveNoColumns(ms: Members, t: Table)
    requires Rectangular(t)
    requires !HasKey(ms, "type") || Lookup(ms, "type").value.JString?
    requires !HasKey(ms, "columns")
    ensures CompileDirective(JObject(ms), t) == Ok(None)
  {
    assert ColumnsOf(ms) == JArray([]);
  }

  /** A number, a boolean or `null` as the first column names no table
      column, so the directive is skipped. */
  lemma DirectiveScalarDimension(ms: Members, xs: seq<JsonValue>, t: Table)
    requires Rectangular(t)
    requires !HasKey(ms, "type") || Lookup(ms, "type").value.JString?
    requires Lookup(ms, "columns") == Some(JArray(xs)) && |xs| >= 2
    requires xs[0].JNumber? || xs[0].JBool? || xs[0].JNull?
    ensures CompileDirective(JObject(ms), t) == Ok(None)
  {
    assert ColumnsOf(ms) == JArray(xs);
  }

  /** The same for the second column once the first is a table column. */
  lemma DirectiveScalarMeasure(ms: Members, xs: seq<JsonValue>, a: string, t: Table)
    requires Rectangular(t)
    requires !HasKey(ms, "type") || Lookup(ms, "type").value.JString?
    requires Lookup(ms, "columns") == Some(JArray(xs)) && |xs| >= 2
    requires xs[0] == JString(a) && Name(a) in t.cols
    requires xs[1].JNumber? || xs[1].JBool? || xs[1].JNull?
    ensures CompileDirective(JObject(ms), t) == Ok(None)
  {
    assert ColumnsOf(ms) == JArray(xs);
  }

  // ---------------------------------------------------------------------
  // The whole specification
  // ---------------------------------------------------------------------

  /** `[spec]` for a dict, the list itself for a list, nothing otherwise. */
  function Directives(spec: JsonValue): Option<seq<JsonValue>> {
    match spec
    case JObject(_) => Some([spec])
    case JArray(xs) => Some(xs)
    case _ => None
  }

  /** The charts of the directives that survive, in directive order; the
      first exception stops the loop. */
  function CompileAll(ds: seq<JsonValue>, t: Table): (r: Result<seq<Chart>>)
    requires Rectangular(t)
    ensures r.Ok? ==> |r.value| <= |ds|
    ensures r.Ok? ==> forall i :: 0 <= i < |r.value| ==> DrawsFrom(r.value[i], t)
    decreases |ds|
  {
    if ds == [] then Ok([])
    else
      var cs :- CompileAll(ds[..|ds| - 1], t);
      var c :- CompileDirective(ds[|ds| - 1], t);
      if c.Some? then Ok(cs + [c.value]) else Ok(cs)
  }

  /** The charts a display shows, top to bottom. */
  function Panels(d: Display): seq<Chart> {
    match d
    case Single(c) => [c]
    case VConcat(cs) => cs
  }

  /** Altair's `&`: two charts make a vertical stack, and a stack takes one
      more chart at its bottom. */
  function And(top: Display, c: Chart): (r: Display)
    ensures r.VConcat? && Panels(r) == Panels(top) + [c]
  {
    match top
    case Single(a) => VConcat([a, c])
    case VConcat(cs) => VConcat(cs + [c])
  }

  /** `combo = charts[0]`, then `combo = combo & c` for each later chart:
      the charts, in order, none dropped or repeated. */
  function Combine(cs: seq<Chart>): (r: Display)
    requires cs != []
    ensures Panels(r) == cs
    ensures r.Single? <==> |cs| == 1
  {
    if |cs| == 1 then Single(cs[0])
    else
      var init := Combine(cs[..|cs| - 1]);
      assert cs[..|cs| - 1] + [cs[|cs| - 1]] == cs;
      And(init, cs[|cs| - 1])
  }

  /** The compiler's result for its list of charts: nothing for none, the
      chart itself for one, and for several a vertical stack of all of them
      in order, without reordering or removing repeats. */
  function Stack(cs: seq<Chart>): (r: Option<Display>)
    ensures r == if cs == [] then None
                 else if |cs| == 1 then Some(Single(cs[0]))
                 else Some(VConcat(cs))
  {
    if cs == [] then None else Some(Combine(cs))
  }

  /** `_build_chart_from_spec(spec, df)`. */
  function Compile(spec: JsonValue, t: Table): (r: Result<Option<Display>>)
    requires Rectangular(t)
    ensures Directives(spec).None? ==> r == Ok(None)
    ensures r.Ok? && r.value.Some? ==> forall i :: 0 <= i < |Panels(r.value.value)| ==>
      DrawsFrom(Panels(r.value.value)[i], t)
  {
    match Directives(spec)
    case None => Ok(None)
    case Some(ds) =>
      var cs :- CompileAll(ds, t);
      Ok(Stack(cs))
  }

  /** The directives of a concatenated list compile independently: the
      result is the charts of the first part followed by those of the
      second, and the earlier exception wins. */
  lemma {:induction false} CompileAllAppend(a: seq<JsonValue>, b: seq<JsonValue>, t: Table)
    requires Rectangular(t)
    ensures CompileAll(a + b, t) ==
      if CompileAll(a, t).Err? then CompileAll(a, t)
      else if CompileAll(b, t).Err? then CompileAll(b, t)
      else Ok(CompileAll(a, t).value + CompileAll(b, t).value)
    decreases |b|
  {
    if b == [] {
      assert a + b == a;
      if CompileAll(a, t).Ok? {
        assert CompileAll(a, t).value + [] == CompileAll(a, t).value;
      }
    } else {
      var b' := b[..|b| - 1];
      assert (a + b)[..|a + b| - 1] == a + b';
      assert (a + b)[|a + b| - 1] == b[|b| - 1];
      CompileAllAppend(a, b', t);
      if CompileAll(a, t).Ok? && CompileAll(b', t).Ok? && CompileDirective(b[|b| - 1], t).Ok? {
        var c := CompileDirective(b[|b| - 1], t).value;
        if c.Some? {
          assert CompileAll(a, t).value + CompileAll(b', t).value + [c.value]
              == CompileAll(a, t).value + (CompileAll(b', t).value + [c.value]);
        }
      }
    }
  }

  /** The result of a single directive on its own. */
  lemma CompileOne(d: JsonValue, t: Table)
    requires Rectangular(t)
    ensures CompileDirective(d, t).Err? ==> CompileAll([d], t) == Err(CompileDirective(d, t).fault)
    ensures CompileDirective(d, t) == Ok(None) ==> CompileAll([d], t) == Ok([])
    ensures CompileDirective(d, t).Ok? && CompileDirective(d, t).value.Some? ==>
      CompileAll([d], t) == Ok([CompileDirective(d, t).value.value])
  {
    assert [d][..0] == [];
    assert CompileAll([d][..0], t) == Ok([]);
    assert [d][|[d]| - 1] == d;
    if CompileDirective(d, t).Ok? && CompileDirective(d, t).value.Some? {
      assert [] + [CompileDirective(d, t).value.value] == [CompileDirective(d, t).value.value];
    }
  }

  /** A skipped directive leaves its siblings' charts as they would be
      without it. */
  lemma SkippedDirectiveInvisible(a: seq<JsonValue>, d: JsonValue, b: seq<JsonValue>, t: Table)
    requires Rectangular(t) && CompileDirective(d, t) == Ok(None)
    ensures CompileAll(a + [d] + b, t) == CompileAll(a + b, t)
  {
    CompileAllAppend(a, [d], t);
    CompileOne(d, t);
    if CompileAll(a, t).Ok? {
      assert CompileAll(a, t).value + [] == CompileAll(a, t).value;
    }
    CompileAllAppend(a + [d], b, t);
    CompileAllAppend(a, b, t);
  }

  /** Once a prefix of the directives raises, the whole loop raises the
      same exception. */
  lemma PrefixFaultStops(ds: seq<JsonValue>, i: nat, t: Table)
    requires Rectangular(t) && i <= |ds| && CompileAll(ds[..i], t).Err?
    ensures CompileAll(ds, t) == CompileAll(ds[..i], t)
  {
    assert ds == ds[..i] + ds[i..];
    CompileAllAppend(ds[..i], ds[i..], t);
  }

  // ---------------------------------------------------------------------
  // The compiler as the script runs it
  // ---------------------------------------------------------------------

  /** The loop of `_build_chart_from_spec`: each directive's chart, if it
      has one, appended to `charts`; an exception leaves the loop. */
  method CompileDirectives(specs: seq<JsonValue>, t: Table) returns (r: Result<seq<Chart>>)
    requires Rectangular(t)
    ensures r == CompileAll(specs, t)
  {
    var charts: seq<Chart> := [];
    var i := 0;
    while i < |specs|
      invariant 0 <= i <= |specs|
      invariant CompileAll(specs[..i], t) == Ok(charts)
    {
      var c := CompileDirective(specs[i], t);
      assert specs[..i + 1][..i] == specs[..i] && specs[..i + 1][i] == specs[i];
      if c.Err? {
        PrefixFaultStops(specs, i + 1, t);
        return Err(c.fault);
      }
      if c.value.Some? {
        charts := charts + [c.value.value];
      }
      i := i + 1;
    }
    assert specs[..i] == specs;
    return Ok(charts);
  }

  /** The fold of `_build_chart_from_spec`: `combo = combo & c` over the
      charts after the first. */
  method StackCharts(charts: seq<Chart>) returns (combo: Display)
    requires |charts| >= 2
    ensures combo == Combine(charts)
  {
    combo := Single(charts[0]);
    var j := 1;
    while j < |charts|
      invariant 1 <= j <= |charts|
      invariant combo == Combine(charts[..j])
    {
      assert charts[..j + 1][..j] == charts[..j] && charts[..j + 1][j] == charts[j];
      combo := And(combo, charts[j]);
      j := j + 1;
    }
    assert charts[..j] == charts;
  }

  /** `_build_chart_from_spec`: the directives of the specification compiled
      in order, then nothing, the one chart, or the charts stacked. */
  method BuildChart(spec: JsonValue, t: Table) returns (r: Result<Option<Display>>)
    requires Rectangular(t)
    ensures r == Compile(spec, t)
  {
    var specs: seq<JsonValue>;
    match spec {
      case JObject(_) => specs := [spec];
      case JArray(xs) => specs := xs;
      case _ => return Ok(None);
    }
    assert Directives(spec) == Some(specs);
    var charts := CompileDirectives(specs, t);
    if charts.Err? {
      return Err(charts.fault);
    }
    if charts.value == [] {
      return Ok(None);
    }
    if |charts.value| == 1 {
      return Ok(Some(Single(charts.value[0])));
    }
    var combo := StackCharts(charts.value);
    return Ok(Some(combo));
  }
}
