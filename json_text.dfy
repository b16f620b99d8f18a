/** JSON text as any writer may lay it out: whitespace of its choice around
    every bracket, brace, colon and comma, and each character of a string
    spelt as itself, as a backslash escape, as a `\uXXXX` escape in either
    case, or as a surrogate pair of two such escapes.  The decoder reads
    every such text back as the value it spells, and every value the
    decoder produces has such a text. */
module JsonText {
  import opened Common
  import opened Json

  // ---------------------------------------------------------------------
  // Spelling characters
  // ---------------------------------------------------------------------

  /** `sp` is one way a string token may spell `c`: the character itself
      (not a quote, a backslash or a control character), a backslash
      escape, one `\uXXXX` escape, or a surrogate pair of two. */
  predicate Spells(sp: string, c: char) {
    || (sp == [c] && c != '"' && c != '\\' && c >= ' ')
    || (|sp| == 2 && sp[0] == '\\' && SimpleEscape(sp[1]) == Some(c))
    || (|sp| == 6 && sp[0] == '\\' && sp[1] == 'u' && AllHex(sp[2..]) && HexValue4(sp[2..]) == c as int)
    || (&& |sp| == 12 && sp[0] == '\\' && sp[1] == 'u' && sp[6] == '\\' && sp[7] == 'u'
        && AllHex(sp[2..6]) && AllHex(sp[8..])
        && IsHighSurrogate(HexValue4(sp[2..6])) && IsLowSurrogate(HexValue4(sp[8..]))
        && JoinSurrogates(HexValue4(sp[2..6]), HexValue4(sp[8..])) == c)
  }

  /** The characters of a string, each with the spelling chosen for it. */
  type Spelled = seq<(char, string)>

  predicate ValidSpelling(cs: Spelled) {
    forall i :: 0 <= i < |cs| ==> Spells(cs[i].1, cs[i].0)
  }

  /** The characters the spellings stand for. */
  function Chars(cs: Spelled): (s: string)
    ensures |s| == |cs| && forall i :: 0 <= i < |cs| ==> s[i] == cs[i].0
  {
    seq(|cs|, i requires 0 <= i < |cs| => cs[i].0)
  }

  /** The spellings one after the other, followed by `rest`. */
  function WriteChars(cs: Spelled, rest: string): string {
    if cs == [] then rest else cs[0].1 + WriteChars(cs[1..], rest)
  }

  // ---------------------------------------------------------------------
  // Texts
  // ---------------------------------------------------------------------

  /** The whitespace the decoder skips between tokens, any amount. */
  predicate AllWs(s: string) {
    forall i :: 0 <= i < |s| ==> IsWs(s[i])
  }

  /** A JSON text with its layout: `lead` is the whitespace just inside an
      opening bracket or brace. */
  datatype Text =
    | TNull
    | TBool(b: bool)
    | TNumber(lexeme: string)
    | TString(chars: Spelled)
    | TArray(lead: string, items: seq<Item>)
    | TObject(lead: string, fields: seq<Field>)

  /** An array element with the whitespace before and after it. */
  datatype Item = Item(before: string, value: Text, after: string)

  /** An object member: whitespace, the key's spelling, whitespace on each
      side of the colon, the value, whitespace. */
  datatype Field = Field(before: string, key: Spelled, beforeColon: string, afterColon: string,
                         value: Text, after: string)

  /** The characters of `t`, followed by `rest`. */
  function WriteText(t: Text, rest: string): string
    decreases t
  {
    match t
    case TNull => "null" + rest
    case TBool(b) => (if b then "true" else "false") + rest
    case TNumber(x) => x + rest
    case TString(cs) => "\"" + WriteChars(cs, "\"" + rest)
    case TArray(lead, items) => "[" + (lead + WriteItems(items, "]" + rest))
    case TObject(lead, fields) => "{" + (lead + WriteFields(fields, "}" + rest))
  }

  /** Array elements separated by commas, followed by `rest`. */
  function WriteItems(items: seq<Item>, rest: string): string
    decreases items
  {
    if items == [] then rest
    else
      var next := if |items| == 1 then rest else "," + WriteItems(items[1..], rest);
      items[0].before + WriteText(items[0].value, items[0].after + next)
  }

  /** One object member, followed by `rest`. */
  function WriteField(f: Field, rest: string): string
    decreases f
  {
    f.before + ("\"" + WriteChars(f.key, "\"" + (f.beforeColon + (":" + (f.afterColon
      + WriteText(f.value, f.after + rest))))))
  }

  /** Object members separated by commas, followed by `rest`. */
  function WriteFields(fields: seq<Field>, rest: string): string
    decreases fields
  {
    if fields == [] then rest
    else WriteField(fields[0], if |fields| == 1 then rest else "," + WriteFields(fields[1..], rest))
  }

  /** The characters of `t`. */
  function Print(t: Text): string {
    WriteText(t, [])
  }

  /** A number lexeme the decoder produces: one of the three constants, or
      a complete number token whose integer form `int` can convert. */
  ghost predicate ValidNumber(x: string) {
    || x == "NaN" || x == "Infinity" || x == "-Infinity"
    || (0 < |x| && NumberLength(x) == |x| && !IntegerTooLong(x))
  }

  /** A text the JSON grammar allows: whitespace only where whitespace goes,
      valid spellings and valid number tokens. */
  ghost predicate Valid(t: Text)
    decreases t
  {
    match t
    case TNumber(x) => ValidNumber(x)
    case TString(cs) => ValidSpelling(cs)
    case TArray(lead, items) => AllWs(lead) && forall i :: 0 <= i < |items| ==> ValidItem(items[i])
    case TObject(lead, fields) => AllWs(lead) && forall i :: 0 <= i < |fields| ==> ValidField(fields[i])
    case _ => true
  }

  ghost predicate ValidItem(it: Item)
    decreases it
  {
    AllWs(it.before) && Valid(it.value) && AllWs(it.after)
  }

  ghost predicate ValidField(f: Field)
    decreases f
  {
    && AllWs(f.before) && ValidSpelling(f.key) && AllWs(f.beforeColon) && AllWs(f.afterColon)
    && Valid(f.value) && AllWs(f.after)
  }

  // ---------------------------------------------------------------------
  // What a text means
  // ---------------------------------------------------------------------

  /** The value a text spells.  The members of an object are stored into a
      dict one after the other, so a repeated key keeps its first position
      and takes its last value. */
  function Meaning(t: Text): JsonValue
    decreases t
  {
    match t
    case TNull => JNull
    case TBool(b) => JBool(b)
    case TNumber(x) => JNumber(x)
    case TString(cs) => JString(Chars(cs))
    case TArray(_, items) => JArray(ItemValues(items))
    case TObject(_, fields) => JObject(FieldsInto([], fields))
  }

  function ItemValues(items: seq<Item>): (r: seq<JsonValue>)
    ensures |r| == |items|
    decreases items
  {
    if items == [] then [] else [Meaning(items[0].value)] + ItemValues(items[1..])
  }

  /** The members stored, in order, into the dict `acc`. */
  function FieldsInto(acc: Members, fields: seq<Field>): Members
    decreases fields
  {
    if fields == [] then acc
    else FieldsInto(Put(acc, Chars(fields[0].key), Meaning(fields[0].value)), fields[1..])
  }

  // ---------------------------------------------------------------------
  // Whitespace and token starts
  // ---------------------------------------------------------------------

  lemma {:induction false} SkipWsOver(w: string, s: string)
    requires AllWs(w)
    ensures SkipWs(w + s) == SkipWs(s)
    decreases |w|
  {
    if w == [] {
      assert w + s == s;
    } else {
      assert (w + s)[0] == w[0] && (w + s)[1..] == w[1..] + s;
      assert AllWs(w[1..]) by {
        forall i | 0 <= i < |w[1..]| ensures IsWs(w[1..][i]) {
          assert w[1..][i] == w[i + 1];
        }
      }
      SkipWsOver(w[1..], s);
    }
  }

  /** Whitespace followed by a token is skipped up to the token. */
  lemma SkipToToken(w: string, s: string)
    requires AllWs(w) && s != [] && !IsWs(s[0])
    ensures SkipWs(w + s) == s
  {
    SkipWsOver(w, s);
  }

  /** A character that can open a token. */
  predicate OpensToken(c: char) {
    c == 'n' || c == 't' || c == 'f' || c == 'N' || c == 'I' || c == '-' || IsDigit(c)
    || c == '"' || c == '[' || c == '{'
  }

  lemma WriteOpens(t: Text, rest: string)
    requires Valid(t)
    ensures WriteText(t, rest) != [] && OpensToken(WriteText(t, rest)[0])
  {
    match t
    case TNumber(x) =>
      assert (x + rest)[0] == x[0];
      if x == "NaN" || x == "Infinity" || x == "-Infinity" {
        assert x[0] == 'N' || x[0] == 'I' || x[0] == '-';
      }
    case TBool(b) =>
      assert WriteText(t, rest)[0] == (if b then 't' else 'f');
    case _ =>
  }

  /** What may follow a value: nothing, whitespace, or a delimiter. */
  predicate Delimited(rest: string) {
    rest == [] || IsWs(rest[0]) || rest[0] == ',' || rest[0] == ']' || rest[0] == '}'
  }

  // ---------------------------------------------------------------------
  // Reading strings back
  // ---------------------------------------------------------------------

  /** An escape spelling read back after its backslash. */
  lemma ShortEscapeRead(sp: string, c: char, r: string)
    requires |sp| == 2 && sp[0] == '\\' && SimpleEscape(sp[1]) == Some(c)
    ensures Unescape((sp + r)[1..]) == Some((c, r))
  {
    var u := (sp + r)[1..];
    assert u == [sp[1]] + r;
    assert u[1..] == r;
  }

  lemma UnicodeEscapeRead(sp: string, c: char, r: string)
    requires |sp| == 6 && sp[0] == '\\' && sp[1] == 'u' && AllHex(sp[2..]) && HexValue4(sp[2..]) == c as int
    ensures Unescape((sp + r)[1..]) == Some((c, r))
  {
    var u := (sp + r)[1..];
    assert u[0] == 'u';
    assert u[1..5] == sp[2..] by {
      forall k | 0 <= k < 4 ensures u[1..5][k] == sp[2..][k] {
        assert u[1..5][k] == (sp + r)[k + 2];
      }
    }
    assert u[5..] == r;
    assert CodeUnitChar(c as int) == c;
  }

  lemma PairEscapeRead(sp: string, c: char, r: string)
    requires |sp| == 12 && sp[0] == '\\' && sp[1] == 'u' && sp[6] == '\\' && sp[7] == 'u'
    requires AllHex(sp[2..6]) && AllHex(sp[8..])
    requires IsHighSurrogate(HexValue4(sp[2..6])) && IsLowSurrogate(HexValue4(sp[8..]))
    requires JoinSurrogates(HexValue4(sp[2..6]), HexValue4(sp[8..])) == c
    ensures Unescape((sp + r)[1..]) == Some((c, r))
  {
    var u := (sp + r)[1..];
    assert u[0] == 'u' && u[5] == '\\' && u[6] == 'u';
    assert u[1..5] == sp[2..6] by {
      forall k | 0 <= k < 4 ensures u[1..5][k] == sp[2..6][k] {
        assert u[1..5][k] == (sp + r)[k + 2];
      }
    }
    assert u[7..11] == sp[8..] by {
      forall k | 0 <= k < 4 ensures u[7..11][k] == sp[8..][k] {
        assert u[7..11][k] == (sp + r)[k + 8];
      }
    }
    assert u[11..] == r;
  }

  /** Reading one spelt character back. */
  lemma CharSpelled(sp: string, c: char, r: string)
    requires Spells(sp, c)
    ensures ParseStringBody(sp + r) ==
            match ParseStringBody(r)
            case None => None
            case Some((str, rest)) => Some(([c] + str, rest))
  {
    var s := sp + r;
    if sp == [c] && c != '"' && c != '\\' && c >= ' ' {
      assert s[0] == c && s[1..] == r;
    } else {
      assert s[0] == '\\';
      if |sp| == 2 {
        ShortEscapeRead(sp, c, r);
      } else if |sp| == 6 {
        UnicodeEscapeRead(sp, c, r);
      } else {
        PairEscapeRead(sp, c, r);
      }
    }
  }

  lemma {:induction false} CharsRoundTrip(cs: Spelled, rest: string)
    requires ValidSpelling(cs)
    ensures ParseStringBody(WriteChars(cs, "\"" + rest)) == Some((Chars(cs), rest))
    decreases cs
  {
    if cs == [] {
      assert ("\"" + rest)[1..] == rest;
    } else {
      assert ValidSpelling(cs[1..]) by {
        forall i | 0 <= i < |cs[1..]| ensures Spells(cs[1..][i].1, cs[1..][i].0) {
          assert cs[1..][i] == cs[i + 1];
        }
      }
      CharsRoundTrip(cs[1..], rest);
      CharSpelled(cs[0].1, cs[0].0, WriteChars(cs[1..], "\"" + rest));
      assert [cs[0].0] + Chars(cs[1..]) == Chars(cs);
    }
  }

  // ---------------------------------------------------------------------
  // Reading numbers and constants back
  // ---------------------------------------------------------------------

  lemma {:induction false} DigitsEndExtend(x: string, rest: string, i: nat)
    requires i <= |x|
    requires rest == [] || !IsDigit(rest[0])
    ensures DigitsEnd(x + rest, i) == DigitsEnd(x, i)
    decreases |x| - i
  {
    if i < |x| {
      assert (x + rest)[i] == x[i];
      if IsDigit(x[i]) {
        DigitsEndExtend(x, rest, i + 1);
      }
    }
  }

  /** A character that can continue a number token. */
  predicate InNumber(c: char) {
    IsDigit(c) || c == '.' || c == 'e' || c == 'E' || c == '+' || c == '-'
  }

  lemma IntegerEndExtend(x: string, rest: string, a: nat)
    requires a <= |x| && (rest == [] || !InNumber(rest[0]))
    ensures IntegerEnd(x + rest, a) == IntegerEnd(x, a)
  {
    if a < |x| {
      assert (x + rest)[a] == x[a];
      DigitsEndExtend(x, rest, a + 1);
    } else if rest != [] {
      assert (x + rest)[a] == rest[0];
    }
  }

  lemma FractionEndExtend(x: string, rest: string, b: nat)
    requires b <= |x| && (rest == [] || !InNumber(rest[0]))
    ensures FractionEnd(x + rest, b) == FractionEnd(x, b)
  {
    var s := x + rest;
    if b + 1 < |x| {
      assert s[b] == x[b] && s[b + 1] == x[b + 1];
      DigitsEndExtend(x, rest, b + 1);
    } else if b + 1 == |x| {
      if rest != [] { assert s[b + 1] == rest[0]; }
    } else if rest != [] {
      assert s[b] == rest[0];
    }
  }

  lemma ExponentEndExtend(x: string, rest: string, c: nat)
    requires c <= |x| && (rest == [] || !InNumber(rest[0]))
    ensures ExponentEnd(x + rest, c) == ExponentEnd(x, c)
  {
    var s := x + rest;
    assert forall k :: 0 <= k < |x| ==> s[k] == x[k];
    assert rest != [] ==> s[|x|] == rest[0];
    if c < |x| && (x[c] == 'e' || x[c] == 'E') {
      var e := if c + 1 < |x| && (x[c + 1] == '+' || x[c + 1] == '-') then c + 2 else c + 1;
      assert e <= |x|;
      if e < |x| { DigitsEndExtend(x, rest, e); }
    }
  }

  /** A delimiter after a number token never extends it. */
  lemma NumberLengthExtend(x: string, rest: string)
    requires rest == [] || !InNumber(rest[0])
    ensures NumberLength(x + rest) == NumberLength(x)
  {
    var s := x + rest;
    var a := if x != [] && x[0] == '-' then 1 else 0;
    assert a == if s != [] && s[0] == '-' then 1 else 0 by {
      if x != [] { assert s[0] == x[0]; } else if rest != [] { assert s[0] == rest[0]; }
    }
    IntegerEndExtend(x, rest, a);
    var b := IntegerEnd(x, a);
    if b != a {
      FractionEndExtend(x, rest, b);
      ExponentEndExtend(x, rest, FractionEnd(x, b));
    }
  }

  /** A token followed by more text starts with that token. */
  lemma StartsWithOwn(p: string, rest: string)
    ensures StartsWith(p + rest, p) && (p + rest)[|p|..] == rest
  {
    assert (p + rest)[..|p|] == p;
  }

  /** Text that differs from `p` at position `k` does not start with `p`. */
  lemma NotStartsWith(s: string, p: string, k: nat)
    requires k < |p| && k < |s| && s[k] != p[k]
    ensures !StartsWith(s, p)
  {
    if |p| <= |s| {
      assert s[..|p|][k] == s[k];
    }
  }

  lemma NumberRoundTrip(x: string, rest: string)
    requires 0 < |x| && NumberLength(x) == |x| && !IntegerTooLong(x)
    requires Delimited(rest)
    ensures ParseScalar(x + rest) == Some((JNumber(x), rest))
  {
    var s := x + rest;
    NumberLengthExtend(x, rest);
    assert s[0] == x[0];
    assert IsDigit(x[0]) || (x[0] == '-' && 1 < |x| && IsDigit(x[1]));
    NotStartsWith(s, "null", 0);
    NotStartsWith(s, "true", 0);
    NotStartsWith(s, "false", 0);
    NotStartsWith(s, "NaN", 0);
    NotStartsWith(s, "Infinity", 0);
    if x[0] == '-' {
      assert s[1] == x[1];
      NotStartsWith(s, "-Infinity", 1);
    } else {
      NotStartsWith(s, "-Infinity", 0);
    }
    assert s[..|x|] == x && s[|x|..] == rest;
  }

  /** The three number constants Python accepts read back as themselves. */
  lemma NamedNumberRoundTrip(x: string, rest: string)
    requires x == "NaN" || x == "Infinity" || x == "-Infinity"
    requires Delimited(rest)
    ensures ParseValue(x + rest) == Some((JNumber(x), rest))
  {
    var s := x + rest;
    assert s[0] == x[0];
    StartsWithOwn(x, rest);
    NotStartsWith(s, "null", 0);
    NotStartsWith(s, "true", 0);
    NotStartsWith(s, "false", 0);
    if x != "NaN" {
      NotStartsWith(s, "NaN", 0);
      if x != "Infinity" {
        NotStartsWith(s, "Infinity", 0);
      }
    }
  }

  /** The constants and numbers read back as themselves. */
  lemma ScalarRoundTrip(t: Text, rest: string)
    requires t.TNull? || t.TBool? || t.TNumber?
    requires Valid(t) && Delimited(rest)
    ensures ParseValue(WriteText(t, rest)) == Some((Meaning(t), rest))
  {
    var s := WriteText(t, rest);
    match t
    case TNull =>
      StartsWithOwn("null", rest);
    case TBool(b) =>
      if b {
        StartsWithOwn("true", rest);
        NotStartsWith(s, "null", 0);
      } else {
        StartsWithOwn("false", rest);
        NotStartsWith(s, "null", 0);
        NotStartsWith(s, "true", 0);
      }
    case TNumber(x) =>
      if x == "NaN" || x == "Infinity" || x == "-Infinity" {
        NamedNumberRoundTrip(x, rest);
      } else {
        NumberRoundTrip(x, rest);
        assert s[0] == x[0];
      }
  }

  // ---------------------------------------------------------------------
  // Reading texts back
  // ---------------------------------------------------------------------

  /** The decoder reads every valid text back as the value it spells, and
      leaves whatever follows it. */
  lemma {:induction false} TextRoundTrip(t: Text, rest: string)
    requires Valid(t) && Delimited(rest)
    ensures ParseValue(WriteText(t, rest)) == Some((Meaning(t), rest))
    decreases t, 3
  {
    match t
    case TString(cs) =>
      var s := WriteText(t, rest);
      assert s[0] == '"' && s[1..] == WriteChars(cs, "\"" + rest);
      CharsRoundTrip(cs, rest);
    case TArray(lead, items) =>
      ArrayRoundTrip(lead, items, rest);
    case TObject(lead, fields) =>
      ObjectRoundTrip(lead, fields, rest);
    case _ =>
      ScalarRoundTrip(t, rest);
  }

  lemma {:induction false} ArrayRoundTrip(lead: string, items: seq<Item>, rest: string)
    requires AllWs(lead) && forall i :: 0 <= i < |items| ==> ValidItem(items[i])
    ensures ParseValue(WriteText(TArray(lead, items), rest)) == Some((JArray(ItemValues(items)), rest))
    decreases items, 2
  {
    var s := WriteText(TArray(lead, items), rest);
    var body := WriteItems(items, "]" + rest);
    assert s[0] == '[' && s[1..] == lead + body;
    assert ParseValue(s) == ParseArray(lead + body);
    SkipWsOver(lead, body);
    if items == [] {
      assert body == "]" + rest && body[1..] == rest;
    } else {
      ItemsOpen(items, rest);
      ItemsRoundTrip(items, [], rest);
      assert [] + ItemValues(items) == ItemValues(items);
    }
  }

  /** The elements of a non-empty array open with a token, not the bracket. */
  lemma ItemsOpen(items: seq<Item>, rest: string)
    requires items != [] && ValidItem(items[0])
    ensures var t := SkipWs(WriteItems(items, "]" + rest)); t != [] && OpensToken(t[0])
  {
    var it := items[0];
    var next := if |items| == 1 then "]" + rest else "," + WriteItems(items[1..], "]" + rest);
    WriteOpens(it.value, it.after + next);
    SkipToToken(it.before, WriteText(it.value, it.after + next));
  }

  /** An element's text, whitespace included, is read back as its value,
      and the whitespace after it is skipped up to the delimiter. */
  lemma {:induction false} ItemRoundTrip(it: Item, next: string)
    requires ValidItem(it) && next != [] && (next[0] == ',' || next[0] == ']')
    ensures ParseValue(SkipWs(it.before + WriteText(it.value, it.after + next)))
         == Some((Meaning(it.value), it.after + next))
    ensures SkipWs(it.after + next) == next
    decreases it, 0
  {
    WriteOpens(it.value, it.after + next);
    SkipToToken(it.before, WriteText(it.value, it.after + next));
    assert Delimited(it.after + next) by {
      if it.after != [] { assert (it.after + next)[0] == it.after[0]; }
      else { assert it.after + next == next; }
    }
    TextRoundTrip(it.value, it.after + next);
    SkipToToken(it.after, next);
  }

  lemma {:induction false} ItemsRoundTrip(items: seq<Item>, acc: seq<JsonValue>, rest: string)
    requires items != [] && forall i :: 0 <= i < |items| ==> ValidItem(items[i])
    ensures ParseItems(SkipWs(WriteItems(items, "]" + rest)), acc)
         == Some((JArray(acc + ItemValues(items)), rest))
    decreases items, 1
  {
    var it := items[0];
    var next := if |items| == 1 then "]" + rest else "," + WriteItems(items[1..], "]" + rest);
    assert ValidItem(it);
    assert WriteItems(items, "]" + rest) == it.before + WriteText(it.value, it.after + next);
    ItemRoundTrip(it, next);
    var m := Meaning(it.value);
    if |items| == 1 {
      assert next[1..] == rest;
      assert ItemValues(items) == [m];
    } else {
      assert forall i :: 0 <= i < |items[1..]| ==> items[1..][i] == items[i + 1];
      ItemsRoundTrip(items[1..], acc + [m], rest);
      assert next[1..] == WriteItems(items[1..], "]" + rest);
      assert acc + [m] + ItemValues(items[1..]) == acc + ItemValues(items);
    }
  }

  lemma {:induction false} ObjectRoundTrip(lead: string, fields: seq<Field>, rest: string)
    requires AllWs(lead) && forall i :: 0 <= i < |fields| ==> ValidField(fields[i])
    ensures ParseValue(WriteText(TObject(lead, fields), rest)) == Some((JObject(FieldsInto([], fields)), rest))
    decreases fields, 2
  {
    var s := WriteText(TObject(lead, fields), rest);
    var body := WriteFields(fields, "}" + rest);
    assert s[0] == '{' && s[1..] == lead + body;
    SkipWsOver(lead, body);
    if fields == [] {
      assert body == "}" + rest && body[1..] == rest;
    } else {
      var next := if |fields| == 1 then "}" + rest else "," + WriteFields(fields[1..], "}" + rest);
      FieldOpens(fields[0], next);
      FieldsRoundTrip(fields, [], rest);
    }
  }

  /** A member's text, past the whitespace before it, opens with the quote
      of its key. */
  lemma FieldOpens(f: Field, next: string)
    requires AllWs(f.before)
    ensures var s := SkipWs(WriteField(f, next));
      s != [] && s[0] == '"' && s == "\"" + WriteChars(f.key, "\"" + (f.beforeColon + (":" + (f.afterColon
        + WriteText(f.value, f.after + next)))))
  {
    var q := "\"" + WriteChars(f.key, "\"" + (f.beforeColon + (":" + (f.afterColon
      + WriteText(f.value, f.after + next)))));
    assert WriteField(f, next) == f.before + q;
    SkipToToken(f.before, q);
  }

  /** A member's key, colon and value are read back, leaving the whitespace
      after the value and what follows. */
  lemma {:induction false} FieldRoundTrip(f: Field, next: string)
    requires ValidField(f) && next != [] && (next[0] == ',' || next[0] == '}')
    ensures var s := SkipWs(WriteField(f, next));
      s != [] && s[0] == '"'
      && ParseMember(s[1..]) == Some((Chars(f.key), Meaning(f.value), f.after + next))
    decreases f, 0
  {
    FieldOpens(f, next);
    var w := WriteText(f.value, f.after + next);
    var colon := ":" + (f.afterColon + w);
    var afterKey := f.beforeColon + colon;
    var s := SkipWs(WriteField(f, next));
    assert s[1..] == WriteChars(f.key, "\"" + afterKey);
    CharsRoundTrip(f.key, afterKey);
    SkipToToken(f.beforeColon, colon);
    assert colon[1..] == f.afterColon + w;
    WriteOpens(f.value, f.after + next);
    SkipToToken(f.afterColon, w);
    assert Delimited(f.after + next) by {
      if f.after != [] { assert (f.after + next)[0] == f.after[0]; }
      else { assert f.after + next == next; }
    }
    TextRoundTrip(f.value, f.after + next);
  }

  lemma {:induction false} FieldsRoundTrip(fields: seq<Field>, acc: Members, rest: string)
    requires fields != [] && forall i :: 0 <= i < |fields| ==> ValidField(fields[i])
    ensures ParseMembers(SkipWs(WriteFields(fields, "}" + rest)), acc)
         == Some((JObject(FieldsInto(acc, fields)), rest))
    decreases fields, 1
  {
    var f := fields[0];
    var next := if |fields| == 1 then "}" + rest else "," + WriteFields(fields[1..], "}" + rest);
    assert ValidField(f);
    assert WriteFields(fields, "}" + rest) == WriteField(f, next);
    FieldRoundTrip(f, next);
    SkipToToken(f.after, next);
    var acc' := Put(acc, Chars(f.key), Meaning(f.value));
    if |fields| == 1 {
      assert next[1..] == rest;
      assert FieldsInto(acc, fields) == FieldsInto(acc', []);
    } else {
      assert forall i :: 0 <= i < |fields[1..]| ==> fields[1..][i] == fields[i + 1];
      FieldsRoundTrip(fields[1..], acc', rest);
      assert next[1..] == WriteFields(fields[1..], "}" + rest);
    }
  }

  // ---------------------------------------------------------------------
  // Whole texts
  // ---------------------------------------------------------------------

  lemma {:induction false} CharsAppend(cs: Spelled, a: string, b: string)
    ensures WriteChars(cs, a) + b == WriteChars(cs, a + b)
    decreases cs
  {
    if cs != [] {
      CharsAppend(cs[1..], a, b);
      var head, tail := cs[0].1, WriteChars(cs[1..], a);
      assert WriteChars(cs, a) == head + tail;
      assert (head + tail) + b == head + (tail + b);
    }
  }

  /** Writing a text and then more is writing it followed by the more. */
  lemma {:induction false} TextAppend(t: Text, a: string, b: string)
    ensures WriteText(t, a) + b == WriteText(t, a + b)
    decreases t, 1
  {
    match t
    case TString(cs) =>
      CharsAppend(cs, "\"" + a, b);
      assert "\"" + a + b == "\"" + (a + b);
    case TArray(lead, items) =>
      ItemsAppend(items, "]" + a, b);
      assert "]" + a + b == "]" + (a + b);
    case TObject(lead, fields) =>
      FieldsAppend(fields, "}" + a, b);
      assert "}" + a + b == "}" + (a + b);
    case _ =>
  }

  lemma {:induction false} ItemsAppend(items: seq<Item>, a: string, b: string)
    ensures WriteItems(items, a) + b == WriteItems(items, a + b)
    decreases items, 0
  {
    if items != [] {
      var it := items[0];
      var next := if |items| == 1 then a else "," + WriteItems(items[1..], a);
      var next' := if |items| == 1 then a + b else "," + WriteItems(items[1..], a + b);
      if |items| > 1 {
        ItemsAppend(items[1..], a, b);
      }
      assert next + b == next';
      TextAppend(it.value, it.after + next, b);
      assert it.after + next + b == it.after + next';
    }
  }

  lemma {:induction false} FieldAppend(f: Field, a: string, b: string)
    ensures WriteField(f, a) + b == WriteField(f, a + b)
    decreases f
  {
    TextAppend(f.value, f.after + a, b);
    assert f.after + a + b == f.after + (a + b);
    var tail := f.beforeColon + (":" + (f.afterColon + WriteText(f.value, f.after + a)));
    var tail' := f.beforeColon + (":" + (f.afterColon + WriteText(f.value, f.after + (a + b))));
    assert tail + b == tail';
    CharsAppend(f.key, "\"" + tail, b);
    assert "\"" + tail + b == "\"" + tail';
  }

  lemma {:induction false} FieldsAppend(fields: seq<Field>, a: string, b: string)
    ensures WriteFields(fields, a) + b == WriteFields(fields, a + b)
    decreases fields
  {
    if fields != [] {
      var next := if |fields| == 1 then a else "," + WriteFields(fields[1..], a);
      var next' := if |fields| == 1 then a + b else "," + WriteFields(fields[1..], a + b);
      if |fields| > 1 {
        FieldsAppend(fields[1..], a, b);
      }
      assert next + b == next';
      FieldAppend(fields[0], next, b);
    }
  }

  /** `json.loads` of any valid text, with any whitespace around it, gives
      the value the text spells. */
  lemma DecodeText(t: Text, pre: string, post: string)
    requires Valid(t) && AllWs(pre) && AllWs(post)
    ensures Decode(pre + Print(t) + post) == Some(Meaning(t))
  {
    TextAppend(t, [], post);
    var w := WriteText(t, post);
    assert [] + post == post;
    assert pre + Print(t) + post == pre + w;
    WriteOpens(t, post);
    SkipToToken(pre, w);
    assert Delimited(post);
    TextRoundTrip(t, post);
    SkipWsOver(post, []);
    assert post + [] == post;
  }

  /** The text of an object opens with its brace and closes with its brace. */
  lemma ObjectEnds(lead: string, fields: seq<Field>)
    ensures var p := Print(TObject(lead, fields));
      p != [] && p[0] == '{' && p[|p| - 1] == '}'
  {
    FieldsAppend(fields, [], "}");
    assert [] + "}" == "}" && "}" + [] == "}";
    assert Print(TObject(lead, fields)) == "{" + (lead + WriteFields(fields, [])) + "}";
  }

  // ---------------------------------------------------------------------
  // Every value has a text
  // ---------------------------------------------------------------------

  /** The lower-case hex digit for `n`. */
  function HexChar(n: nat): (c: char)
    requires n < 16
    ensures IsHexDigit(c) && HexDigitValue(c) == n
  {
    if n < 10 then ('0' as int + n) as char else ('a' as int + n - 10) as char
  }

  /** How a compact writer spells one character: a quote and a backslash
      escaped, a control character as `\u00XX`, anything else as itself. */
  function EscapeChar(c: char): (sp: string)
    ensures Spells(sp, c)
  {
    if c == '"' then "\\\""
    else if c == '\\' then "\\\\"
    else if c < ' ' then
      var sp := "\\u00" + [HexChar(c as int / 16), HexChar(c as int % 16)];
      assert sp[2..] == ['0', '0', HexChar(c as int / 16), HexChar(c as int % 16)];
      assert c as int / 16 * 16 + c as int % 16 == c as int;
      sp
    else [c]
  }

  function CompactChars(s: string): (cs: Spelled)
    ensures ValidSpelling(cs) && Chars(cs) == s
  {
    seq(|s|, i requires 0 <= i < |s| => (s[i], EscapeChar(s[i])))
  }

  /** A value the decoder can produce: valid number lexemes, and objects
      whose keys are distinct (Python dicts). */
  ghost predicate WellFormed(v: JsonValue)
    decreases v
  {
    match v
    case JNumber(x) => ValidNumber(x)
    case JArray(xs) => forall i :: 0 <= i < |xs| ==> WellFormed(xs[i])
    case JObject(ms) => DistinctKeys(ms) && forall i :: 0 <= i < |ms| ==> WellFormed(ms[i].1)
    case _ => true
  }

  /** The text a compact writer produces for a value: no whitespace at all. */
  function Compact(v: JsonValue): Text
    decreases v
  {
    match v
    case JNull => TNull
    case JBool(b) => TBool(b)
    case JNumber(x) => TNumber(x)
    case JString(s) => TString(CompactChars(s))
    case JArray(xs) =>
      TArray("", seq(|xs|, i requires 0 <= i < |xs| => Item("", Compact(xs[i]), "")))
    case JObject(ms) =>
      TObject("", seq(|ms|, i requires 0 <= i < |ms| =>
        Field("", CompactChars(ms[i].0), "", "", Compact(ms[i].1), "")))
  }

  /** Every value the decoder can produce is spelt by a valid text. */
  lemma {:induction false} CompactMeans(v: JsonValue)
    requires WellFormed(v)
    ensures Valid(Compact(v)) && Meaning(Compact(v)) == v
    decreases v
  {
    match v
    case JArray(xs) =>
      var items := Compact(v).items;
      forall i | 0 <= i < |xs| ensures ValidItem(items[i]) && Meaning(items[i].value) == xs[i] {
        CompactMeans(xs[i]);
      }
      ItemsMean(items, xs);
    case JObject(ms) =>
      var fields := Compact(v).fields;
      forall i | 0 <= i < |ms|
        ensures ValidField(fields[i]) && Chars(fields[i].key) == ms[i].0 && Meaning(fields[i].value) == ms[i].1
      {
        CompactMeans(ms[i].1);
      }
      FieldsMean(fields, ms, []);
      assert [] + ms == ms;
    case _ =>
  }

  lemma {:induction false} ItemsMean(items: seq<Item>, xs: seq<JsonValue>)
    requires |items| == |xs| && forall i :: 0 <= i < |xs| ==> Meaning(items[i].value) == xs[i]
    ensures ItemValues(items) == xs
    decreases xs
  {
    if xs != [] {
      ItemsMean(items[1..], xs[1..]);
      assert [xs[0]] + xs[1..] == xs;
    }
  }

  /** Distinct keys stored one after the other are appended in order. */
  lemma {:induction false} FieldsMean(fields: seq<Field>, ms: Members, acc: Members)
    requires |fields| == |ms| && DistinctKeys(acc + ms)
    requires forall i :: 0 <= i < |ms| ==>
      Chars(fields[i].key) == ms[i].0 && Meaning(fields[i].value) == ms[i].1
    ensures FieldsInto(acc, fields) == acc + ms
    decreases ms
  {
    if ms == [] {
      assert acc + ms == acc;
    } else {
      var m := ms[0];
      assert !HasKey(acc, m.0) by {
        forall i | 0 <= i < |acc| ensures acc[i].0 != m.0 {
          assert (acc + ms)[i] == acc[i] && (acc + ms)[|acc|] == m;
        }
      }
      assert Put(acc, m.0, m.1) == acc + [m];
      assert acc + [m] + ms[1..] == acc + ms;
      FieldsMean(fields[1..], ms[1..], acc + [m]);
    }
  }
}
