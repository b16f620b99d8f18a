/** The analysis-payload classifier (`_parse_analysis_json`) and the way its
    consumers read the `Insights` entry of a payload. */
module Analysis {
  import opened Common
  import opened Json
  import JsonText

  /** A message's `content`: a Python `str`, or any other object. */
  datatype Content = Text(s: string) | NonText

  const InsightsKey: string := "Insights"
  const ChartTypeKey: string := "Chart_Type"
  const ColumnsKey: string := "Columns"

  // ---------------------------------------------------------------------
  // str.strip()
  // ---------------------------------------------------------------------

  /** Python's `str.isspace` for one character: the Unicode white-space
      characters that `str.strip()` with no argument removes. */
  predicate IsPySpace(c: char) {
    ('\t' <= c <= '\r') || ('\U{1C}' <= c <= '\U{1F}') || c == ' '
    || c == '\U{85}' || c == '\U{A0}' || c == '\U{1680}'
    || ('\U{2000}' <= c <= '\U{200A}') || c == '\U{2028}' || c == '\U{2029}'
    || c == '\U{202F}' || c == '\U{205F}' || c == '\U{3000}'
  }

  predicate AllPySpace(s: string) {
    forall k :: 0 <= k < |s| ==> IsPySpace(s[k])
  }

  /** How many white-space characters open `s`. */
  function LeadingSpace(s: string): (n: nat)
    ensures n <= |s|
    ensures AllPySpace(s[..n])
    ensures n < |s| ==> !IsPySpace(s[n])
  {
    if s == [] || !IsPySpace(s[0]) then 0
    else
      var n := 1 + LeadingSpace(s[1..]);
      assert forall k :: 1 <= k < n ==> s[..n][k] == s[1..][..n - 1][k - 1];
      n
  }

  /** Where the white space that closes `s` begins. */
  function TrailingStart(s: string): (n: nat)
    ensures n <= |s|
    ensures AllPySpace(s[n..])
    ensures n > 0 ==> !IsPySpace(s[n - 1])
  {
    if s == [] || !IsPySpace(s[|s| - 1]) then |s|
    else
      var n := TrailingStart(s[..|s| - 1]);
      assert s[n..] == s[..|s| - 1][n..] + [s[|s| - 1]];
      n
  }

  /** `s.strip()`: `s` without the white space at either end. */
  function Strip(s: string): (r: string)
    ensures r == [] || (!IsPySpace(r[0]) && !IsPySpace(r[|r| - 1]))
    ensures AllPySpace(s) <==> r == []
  {
    var i := LeadingSpace(s);
    var t := s[i..];
    t[..TrailingStart(t)]
  }

  /** Stripping leaves exactly the text between the white space around it. */
  lemma {:induction false} StripPadded(pre: string, t: string, post: string)
    requires AllPySpace(pre) && AllPySpace(post)
    requires t != [] && !IsPySpace(t[0]) && !IsPySpace(t[|t| - 1])
    ensures Strip(pre + t + post) == t
  {
    var s := pre + t + post;
    LeadingPadded(pre, t + post);
    assert s == pre + (t + post);
    assert s[|pre|..] == t + post;
    TrailingPadded(t, post);
  }

  lemma {:induction false} LeadingPadded(pre: string, rest: string)
    requires AllPySpace(pre) && rest != [] && !IsPySpace(rest[0])
    ensures LeadingSpace(pre + rest) == |pre|
    decreases |pre|
  {
    var s := pre + rest;
    if pre == [] {
      assert s == rest;
    } else {
      assert s[0] == pre[0] && IsPySpace(pre[0]);
      assert s[1..] == pre[1..] + rest;
      assert AllPySpace(pre[1..]) by {
        forall k | 0 <= k < |pre[1..]| ensures IsPySpace(pre[1..][k]) {
          assert pre[1..][k] == pre[k + 1];
        }
      }
      LeadingPadded(pre[1..], rest);
    }
  }

  lemma {:induction false} TrailingPadded(t: string, post: string)
    requires AllPySpace(post) && t != [] && !IsPySpace(t[|t| - 1])
    ensures TrailingStart(t + post) == |t|
    ensures (t + post)[..|t|] == t
    decreases |post|
  {
    if post != [] {
      var s := t + post;
      assert s[..|s| - 1] == t + post[..|post| - 1];
      TrailingPadded(t, post[..|post| - 1]);
    }
  }

  // ---------------------------------------------------------------------
  // The classifier
  // ---------------------------------------------------------------------

  /** Trimmed text that both starts with `{` and ends with `}`. */
  predicate Braced(t: string) {
    t != [] && t[0] == '{' && t[|t| - 1] == '}'
  }

  /** A decoded object carries the three keys the dashboard requires. */
  predicate IsPayload(v: JsonValue) {
    v.JObject? && HasKey(v.members, InsightsKey) && HasKey(v.members, ChartTypeKey)
    && HasKey(v.members, ColumnsKey)
  }

  /** `_parse_analysis_json`: the decoded object when the content is a string
      whose trimmed form is a braced JSON object with the three required keys
      (other keys are kept), and nothing otherwise. */
  function ParseAnalysis(c: Content): (r: Option<JsonValue>)
    ensures c.NonText? ==> r.None?
    ensures c.Text? && !Braced(Strip(c.s)) ==> r.None?
    ensures r.Some? <==>
      c.Text? && Braced(Strip(c.s)) && Decode(Strip(c.s)).Some? && IsPayload(Decode(Strip(c.s)).value)
    ensures r.Some? ==> r == Decode(Strip(c.s)) && IsPayload(r.value)
  {
    match c
    case NonText => None
    case Text(s) =>
      var t := Strip(s);
      if !Braced(t) then None
      else
        match Decode(t)
        case None => None
        case Some(data) =>
          DecodeBracedIsObject(t);
          if IsPayload(data) then Some(data) else None
  }

  /** The members of an object are read into an object. */
  lemma {:induction false} MembersGiveObject(s: string, acc: Members)
    ensures ParseMembers(s, acc).Some? ==> ParseMembers(s, acc).value.0.JObject?
    decreases |s|
  {
    if s != [] && s[0] == '"' {
      match ParseMember(s[1..])
      case None =>
      case Some((key, v, rest)) =>
        var u := SkipWs(rest);
        if u != [] && u[0] == ',' {
          MembersGiveObject(SkipWs(u[1..]), Put(acc, key, v));
        }
    }
  }

  /** Text that opens with a brace decodes, if at all, to an object, so the
      classifier's `data.keys()` always finds a dict. */
  lemma DecodeBracedIsObject(t: string)
    requires t != [] && t[0] == '{'
    ensures Decode(t).Some? ==> Decode(t).value.JObject?
  {
    assert SkipWs(t) == t;
    assert ParseValue(t) == ParseObject(t[1..]);
    var u := SkipWs(t[1..]);
    if !(u != [] && u[0] == '}') {
      assert ParseObject(t[1..]) == ParseMembers(u, []);
      MembersGiveObject(u, []);
    }
  }

  /** Any object text the JSON grammar allows (any whitespace between its
      tokens, any spelling of its characters), surrounded by white space,
      is recognised when its value carries the three keys, and that value is
      returned, whatever other keys it has. */
  lemma AcceptsWrittenPayload(t: JsonText.Text, pre: string, post: string)
    requires t.TObject? && JsonText.Valid(t) && IsPayload(JsonText.Meaning(t))
    requires AllPySpace(pre) && AllPySpace(post)
    ensures ParseAnalysis(Text(pre + JsonText.Print(t) + post)) == Some(JsonText.Meaning(t))
  {
    ObjectText(t, pre, post);
  }

  /** Such a text whose value lacks one of the required keys is rejected. */
  lemma RejectsIncompletePayload(t: JsonText.Text, pre: string, post: string)
    requires t.TObject? && JsonText.Valid(t) && !IsPayload(JsonText.Meaning(t))
    requires AllPySpace(pre) && AllPySpace(post)
    ensures ParseAnalysis(Text(pre + JsonText.Print(t) + post)) == None
  {
    ObjectText(t, pre, post);
  }

  /** A padded object text strips to itself, is braced, and decodes to the
      value it spells. */
  lemma ObjectText(t: JsonText.Text, pre: string, post: string)
    requires t.TObject? && JsonText.Valid(t)
    requires AllPySpace(pre) && AllPySpace(post)
    ensures var p := JsonText.Print(t);
      Strip(pre + p + post) == p && Braced(p) && Decode(p) == Some(JsonText.Meaning(t))
  {
    var p := JsonText.Print(t);
    JsonText.ObjectEnds(t.lead, t.fields);
    StripPadded(pre, p, post);
    JsonText.DecodeText(t, [], []);
    assert [] + p + [] == p;
  }

  /** Every well-formed object with the three keys has a text the
      classifier accepts, and it is returned unchanged. */
  lemma AcceptsEveryPayload(v: JsonValue, pre: string, post: string)
    requires JsonText.WellFormed(v) && IsPayload(v)
    requires AllPySpace(pre) && AllPySpace(post)
    ensures ParseAnalysis(Text(pre + JsonText.Print(JsonText.Compact(v)) + post)) == Some(v)
  {
    JsonText.CompactMeans(v);
    AcceptsWrittenPayload(JsonText.Compact(v), pre, post);
  }

  // ---------------------------------------------------------------------
  // Insights
  // ---------------------------------------------------------------------

  /** What `for ins in insights` visits once a lone string has been wrapped
      in a list: the string itself, the items of a list, or the keys of a
      dict; iterating a number, a boolean or `None` raises `TypeError`. */
  function InsightItems(v: JsonValue): (r: Result<seq<JsonValue>>)
    ensures r.Ok? <==> v.JString? || v.JArray? || v.JObject?
    ensures r.Err? ==> r.fault == TypeError
    ensures v.JString? ==> r == Ok([v])
    ensures v.JArray? ==> r == Ok(v.items)
    ensures v.JObject? ==>
      (r.Ok? && |r.value| == |v.members|
       && forall i :: 0 <= i < |r.value| ==> r.value[i] == JString(v.members[i].0))
  {
    match v
    case JString(_) => Ok([v])
    case JArray(xs) => Ok(xs)
    case JObject(ms) => Ok(seq(|ms|, i requires 0 <= i < |ms| => JString(ms[i].0)))
    case _ => Err(TypeError)
  }
}
