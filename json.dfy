/** The JSON decoder that the analysis-payload classifier calls (Python's
    `json.loads` with its default settings).  The decoder follows the
    acceptance rules of CPython's scanner: the grammar of RFC 8259, plus the
    constants `NaN`, `Infinity` and `-Infinity`; no control character inside
    a string; `\uXXXX` escapes with surrogate pairs joined; objects become
    dicts in which a repeated key keeps its first position and its last
    value. */
module Json {
  import opened Common

  /** A decoded JSON value.  Numbers keep their source text: Python turns
      them into `int` or `float`, and nothing in the modelled code does
      arithmetic on them.  An object lists its members in dict order. */
  datatype JsonValue =
    | JNull
    | JBool(b: bool)
    | JNumber(lexeme: string)
    | JString(s: string)
    | JArray(items: seq<JsonValue>)
    | JObject(members: seq<(string, JsonValue)>)

  type Members = seq<(string, JsonValue)>

  // ---------------------------------------------------------------------
  // Objects as Python dicts
  // ---------------------------------------------------------------------

  predicate HasKey(ms: Members, k: string) {
    exists i :: 0 <= i < |ms| && ms[i].0 == k
  }

  predicate DistinctKeys(ms: Members) {
    forall i, j :: 0 <= i < j < |ms| ==> ms[i].0 != ms[j].0
  }

  /** `d.get(k)`: the value stored under `k`, if any. */
  function Lookup(ms: Members, k: string): (r: Option<JsonValue>)
    ensures r.Some? <==> HasKey(ms, k)
    ensures forall i :: 0 <= i < |ms| && ms[i].0 == k && DistinctKeys(ms) ==> r == Some(ms[i].1)
  {
    if ms == [] then None
    else if ms[0].0 == k then Some(ms[0].1)
    else
      var r := Lookup(ms[1..], k);
      assert forall i :: 1 <= i < |ms| ==> ms[1..][i - 1] == ms[i];
      r
  }

  /** `d.get(k, default)`. */
  function GetOr(ms: Members, k: string, default: JsonValue): JsonValue {
    match Lookup(ms, k)
    case Some(v) => v
    case None => default
  }

  lemma HasKeyCons(m: (string, JsonValue), ms: Members, k: string)
    ensures HasKey([m] + ms, k) <==> m.0 == k || HasKey(ms, k)
  {
    var l := [m] + ms;
    if HasKey(ms, k) {
      var i :| 0 <= i < |ms| && ms[i].0 == k;
      assert l[i + 1].0 == k;
    }
    if HasKey(l, k) && m.0 != k {
      var i :| 0 <= i < |l| && l[i].0 == k;
      assert ms[i - 1].0 == k;
    }
    if m.0 == k {
      assert l[0].0 == k;
    }
  }

  /** `d[k] = v`: a new key goes to the end, an existing key keeps its
      position and takes the new value. */
  function Put(ms: Members, k: string, v: JsonValue): (r: Members)
    ensures !HasKey(ms, k) ==> r == ms + [(k, v)]
    ensures HasKey(ms, k) ==> |r| == |ms| && forall i :: 0 <= i < |ms| ==>
      r[i] == if ms[i].0 == k && !HasKey(ms[..i], k) then (k, v) else ms[i]
    ensures forall k' :: HasKey(r, k') <==> HasKey(ms, k') || k' == k
  {
    if ms == [] then
      HasKeyCons((k, v), [], k);
      [(k, v)]
    else if ms[0].0 == k then
      HasKeyCons(ms[0], ms[1..], k);
      assert ms == [ms[0]] + ms[1..];
      forall k' ensures HasKey([(k, v)] + ms[1..], k') <==> HasKey(ms, k') || k' == k {
        HasKeyCons(ms[0], ms[1..], k');
        HasKeyCons((k, v), ms[1..], k');
      }
      forall i | 0 < i < |ms| ensures HasKey(ms[..i], k) {
        assert ms[..i][0].0 == k;
      }
      [(k, v)] + ms[1..]
    else
      var tail := Put(ms[1..], k, v);
      assert ms == [ms[0]] + ms[1..];
      HasKeyCons(ms[0], ms[1..], k);
      forall k' ensures HasKey([ms[0]] + tail, k') <==> HasKey(ms, k') || k' == k {
        HasKeyCons(ms[0], ms[1..], k');
        HasKeyCons(ms[0], tail, k');
      }
      forall i | 0 < i < |ms| ensures HasKey(ms[..i], k) <==> HasKey(ms[1..][..i - 1], k) {
        assert ms[..i] == [ms[0]] + ms[1..][..i - 1];
        HasKeyCons(ms[0], ms[1..][..i - 1], k);
      }
      assert !HasKey(ms[..0], k);
      [ms[0]] + tail
  }

  /** Storing into a dict never makes a key appear twice, and the stored
      value is what a lookup finds afterwards. */
  lemma {:induction false} PutKeepsKeysDistinct(ms: Members, k: string, v: JsonValue)
    requires DistinctKeys(ms)
    ensures DistinctKeys(Put(ms, k, v))
    ensures Lookup(Put(ms, k, v), k) == Some(v)
  {
    if ms == [] {
    } else if ms[0].0 == k {
      var r := Put(ms, k, v);
      assert r == [(k, v)] + ms[1..];
      forall i, j | 0 <= i < j < |r| ensures r[i].0 != r[j].0 {
        assert r[j] == ms[j];
        if i > 0 { assert r[i] == ms[i]; }
      }
    } else {
      var tail := Put(ms[1..], k, v);
      assert DistinctKeys(ms[1..]) by {
        forall i, j | 0 <= i < j < |ms[1..]| ensures ms[1..][i].0 != ms[1..][j].0 {
          assert ms[1..][i] == ms[i + 1] && ms[1..][j] == ms[j + 1];
        }
      }
      PutKeepsKeysDistinct(ms[1..], k, v);
      var r := [ms[0]] + tail;
      assert !HasKey(ms[1..], ms[0].0) by {
        forall j | 0 <= j < |ms[1..]| ensures ms[1..][j].0 != ms[0].0 {
          assert ms[1..][j] == ms[j + 1];
        }
      }
      assert !HasKey(tail, ms[0].0);
      forall i, j | 0 <= i < j < |r| ensures r[i].0 != r[j].0 {
        assert r[j] == tail[j - 1];
        if i == 0 {
          assert tail[j - 1].0 != ms[0].0;
        } else {
          assert r[i] == tail[i - 1];
        }
      }
    }
  }

  // ---------------------------------------------------------------------
  // Characters
  // ---------------------------------------------------------------------

  /** The whitespace the scanner skips between tokens. */
  predicate IsWs(c: char) {
    c == ' ' || c == '\t' || c == '\n' || c == '\r'
  }

  predicate IsDigit(c: char) {
    '0' <= c <= '9'
  }

  predicate IsHexDigit(c: char) {
    '0' <= c <= '9' || 'a' <= c <= 'f' || 'A' <= c <= 'F'
  }

  function HexDigitValue(c: char): (n: nat)
    requires IsHexDigit(c)
    ensures n < 16
  {
    if '0' <= c <= '9' then c as int - '0' as int
    else if 'a' <= c <= 'f' then c as int - 'a' as int + 10
    else c as int - 'A' as int + 10
  }

  predicate AllHex(s: string) {
    forall i :: 0 <= i < |s| ==> IsHexDigit(s[i])
  }

  /** The 16-bit code unit written by four hex digits. */
  function HexValue4(s: string): (n: nat)
    requires |s| == 4 && AllHex(s)
    ensures n < 0x1_0000
  {
    ((HexDigitValue(s[0]) * 16 + HexDigitValue(s[1])) * 16 + HexDigitValue(s[2])) * 16
      + HexDigitValue(s[3])
  }

  predicate IsHighSurrogate(n: int) { 0xD800 <= n < 0xDC00 }
  predicate IsLowSurrogate(n: int) { 0xDC00 <= n < 0xE000 }

  /** A code unit decoded by itself.  Python keeps a lone surrogate as a
      character of its own; a Dafny `char` cannot hold one, so the model
      stands U+FFFD in for it. */
  function CodeUnitChar(n: nat): char
    requires n < 0x1_0000
  {
    if 0xD800 <= n < 0xE000 then '\U{FFFD}' else n as char
  }

  /** The character a high and a low surrogate encode together. */
  function JoinSurrogates(hi: nat, lo: nat): (c: char)
    requires IsHighSurrogate(hi) && IsLowSurrogate(lo)
  {
    (0x1_0000 + (hi - 0xD800) * 0x400 + (lo - 0xDC00)) as char
  }

  /** The one-character escapes after a backslash. */
  function SimpleEscape(c: char): Option<char> {
    match c
    case '"' => Some('"')
    case '\\' => Some('\\')
    case '/' => Some('/')
    case 'b' => Some('\U{0008}')
    case 'f' => Some('\U{000C}')
    case 'n' => Some('\n')
    case 'r' => Some('\r')
    case 't' => Some('\t')
    case _ => None
  }

  // ---------------------------------------------------------------------
  // Scanner
  // ---------------------------------------------------------------------

  function StartsWith(s: string, prefix: string): bool {
    |prefix| <= |s| && s[..|prefix|] == prefix
  }

  /** What is left of `s` after the whitespace at its front. */
  function SkipWs(s: string): (r: string)
    ensures |r| <= |s|
    ensures r == [] || !IsWs(r[0])
    ensures s != [] && !IsWs(s[0]) ==> r == s
  {
    if s != [] && IsWs(s[0]) then SkipWs(s[1..]) else s
  }

  /** The first index at or after `i` that does not hold a digit. */
  function DigitsEnd(s: string, i: nat): (j: nat)
    requires i <= |s|
    ensures i <= j <= |s|
    ensures forall k :: i <= k < j ==> IsDigit(s[k])
    ensures j == |s| || !IsDigit(s[j])
    decreases |s| - i
  {
    if i < |s| && IsDigit(s[i]) then DigitsEnd(s, i + 1) else i
  }

  /** Where the integer part of a number token that starts at `a` ends;
      `a` itself when there is none. */
  function IntegerEnd(s: string, a: nat): (b: nat)
    requires a <= |s|
    ensures a <= b <= |s|
    ensures b > a ==> IsDigit(s[a])
  {
    if a < |s| && s[a] == '0' then a + 1
    else if a < |s| && '1' <= s[a] <= '9' then DigitsEnd(s, a + 1)
    else a
  }

  /** Where a fraction starting at `b` ends; `b` when there is no complete
      fraction. */
  function FractionEnd(s: string, b: nat): (c: nat)
    requires b <= |s|
    ensures b <= c <= |s|
  {
    if b + 1 < |s| && s[b] == '.' && IsDigit(s[b + 1]) then DigitsEnd(s, b + 1) else b
  }

  /** Where an exponent starting at `c` ends; `c` when there is no complete
      exponent. */
  function ExponentEnd(s: string, c: nat): (d: nat)
    requires c <= |s|
    ensures c <= d <= |s|
  {
    if c < |s| && (s[c] == 'e' || s[c] == 'E') then
      var e := if c + 1 < |s| && (s[c + 1] == '+' || s[c + 1] == '-') then c + 2 else c + 1;
      if e < |s| && IsDigit(s[e]) then DigitsEnd(s, e) else c
    else c
  }

  /** The length of the number token at the front of `s`, 0 when there is
      none: `-?(0|[1-9][0-9]*)(\.[0-9]+)?([eE][-+]?[0-9]+)?`, each optional
      part taken only when it is complete. */
  function NumberLength(s: string): (n: nat)
    ensures n <= |s|
    ensures n > 0 ==> IsDigit(s[0]) || (s[0] == '-' && 1 < |s| && IsDigit(s[1]))
  {
    var a := if s != [] && s[0] == '-' then 1 else 0;
    var b := IntegerEnd(s, a);
    if b == a then 0 else ExponentEnd(s, FractionEnd(s, b))
  }

  /** CPython (3.11 and later) refuses to convert an integer literal of more
      than this many digits, and `json.loads` fails with it. */
  const MaxIntDigits: nat := 4300

  /** A number token without fraction or exponent is converted with `int`,
      which refuses more than `MaxIntDigits` digits. */
  predicate IntegerTooLong(lexeme: string) {
    && (forall i :: 0 <= i < |lexeme| ==> lexeme[i] != '.' && lexeme[i] != 'e' && lexeme[i] != 'E')
    && |lexeme| - (if lexeme != [] && lexeme[0] == '-' then 1 else 0) > MaxIntDigits
  }

  /** The escape after a backslash (`s` starts just after it): the character
      it stands for and what follows it. */
  function Unescape(s: string): (r: Option<(char, string)>)
    ensures r.Some? ==> |r.value.1| < |s|
  {
    if s == [] then None
    else if s[0] == 'u' then
      if |s| < 5 || !AllHex(s[1..5]) then None
      else
        var hi := HexValue4(s[1..5]);
        if IsHighSurrogate(hi) && |s| >= 11 && s[5] == '\\' && s[6] == 'u' then
          if !AllHex(s[7..11]) then None
          else
            var lo := HexValue4(s[7..11]);
            if IsLowSurrogate(lo) then Some((JoinSurrogates(hi, lo), s[11..]))
            else Some((CodeUnitChar(hi), s[5..]))
        else Some((CodeUnitChar(hi), s[5..]))
    else
      match SimpleEscape(s[0])
      case Some(c) => Some((c, s[1..]))
      case None => None
  }

  /** The body of a string token (`s` starts just after the opening quote):
      the decoded characters and what follows the closing quote. */
  function ParseStringBody(s: string): (r: Option<(string, string)>)
    ensures r.Some? ==> |r.value.1| < |s|
    decreases |s|
  {
    if s == [] then None
    else if s[0] == '"' then Some(([], s[1..]))
    else if s[0] == '\\' then
      match Unescape(s[1..])
      case None => None
      case Some((c, rest)) =>
        match ParseStringBody(rest)
        case None => None
        case Some((str, rest')) => Some(([c] + str, rest'))
    else if s[0] < ' ' then None
    else
      match ParseStringBody(s[1..])
      case None => None
      case Some((str, rest')) => Some(([s[0]] + str, rest'))
  }

  /** A constant or a number token at the front of `s`: the value and what
      follows it. */
  function ParseScalar(s: string): (r: Option<(JsonValue, string)>)
    ensures r.Some? ==> |r.value.1| < |s|
  {
    if StartsWith(s, "null") then Some((JNull, s[4..]))
    else if StartsWith(s, "true") then Some((JBool(true), s[4..]))
    else if StartsWith(s, "false") then Some((JBool(false), s[5..]))
    else if StartsWith(s, "NaN") then Some((JNumber("NaN"), s[3..]))
    else if StartsWith(s, "Infinity") then Some((JNumber("Infinity"), s[8..]))
    else if StartsWith(s, "-Infinity") then Some((JNumber("-Infinity"), s[9..]))
    else
      var n := NumberLength(s);
      if n == 0 || IntegerTooLong(s[..n]) then None
      else Some((JNumber(s[..n]), s[n..]))
  }

  /** One value at the very front of `s` (no whitespace skipped): the value
      and what follows it. */
  function ParseValue(s: string): (r: Option<(JsonValue, string)>)
    ensures r.Some? ==> |r.value.1| < |s|
    decreases |s|, 0
  {
    if s == [] then None
    else if s[0] == '"' then
      match ParseStringBody(s[1..])
      case None => None
      case Some((str, rest)) => Some((JString(str), rest))
    else if s[0] == '{' then ParseObject(s[1..])
    else if s[0] == '[' then ParseArray(s[1..])
    else ParseScalar(s)
  }

  /** An array after its opening bracket. */
  function ParseArray(s: string): (r: Option<(JsonValue, string)>)
    ensures r.Some? ==> |r.value.1| < |s|
    decreases |s|, 2
  {
    var t := SkipWs(s);
    if t != [] && t[0] == ']' then Some((JArray([]), t[1..]))
    else ParseItems(t, [])
  }

  /** An object after its opening brace. */
  function ParseObject(s: string): (r: Option<(JsonValue, string)>)
    ensures r.Some? ==> |r.value.1| < |s|
    decreases |s|, 2
  {
    var t := SkipWs(s);
    if t != [] && t[0] == '}' then Some((JObject([]), t[1..]))
    else ParseMembers(t, [])
  }

  /** The elements of a non-empty array, from its first element to the
      closing bracket; `acc` holds the elements already read. */
  function ParseItems(s: string, acc: seq<JsonValue>): (r: Option<(JsonValue, string)>)
    ensures r.Some? ==> |r.value.1| < |s|
    decreases |s|, 1
  {
    match ParseValue(s)
    case None => None
    case Some((v, rest)) =>
      var t := SkipWs(rest);
      if t == [] then None
      else if t[0] == ']' then Some((JArray(acc + [v]), t[1..]))
      else if t[0] == ',' then ParseItems(SkipWs(t[1..]), acc + [v])
      else None
  }

  /** One member (`s` starts just after the opening quote of its key): the
      key, the value and what follows the value. */
  function ParseMember(s: string): (r: Option<(string, JsonValue, string)>)
    ensures r.Some? ==> |r.value.2| < |s|
    decreases |s|, 0
  {
    match ParseStringBody(s)
    case None => None
    case Some((key, rest)) =>
      var t := SkipWs(rest);
      if t == [] || t[0] != ':' then None
      else
        match ParseValue(SkipWs(t[1..]))
        case None => None
        case Some((v, rest')) => Some((key, v, rest'))
  }

  /** The members of a non-empty object, from its first key to the closing
      brace; `acc` holds the members already read. */
  function ParseMembers(s: string, acc: Members): (r: Option<(JsonValue, string)>)
    ensures r.Some? ==> |r.value.1| < |s|
    decreases |s|, 1
  {
    if s == [] || s[0] != '"' then None
    else
      match ParseMember(s[1..])
      case None => None
      case Some((key, v, rest)) =>
        var u := SkipWs(rest);
        var acc' := Put(acc, key, v);
        if u == [] then None
        else if u[0] == '}' then Some((JObject(acc'), u[1..]))
        else if u[0] == ',' then ParseMembers(SkipWs(u[1..]), acc')
        else None
  }

  /** `json.loads(text)`: one value, with only whitespace around it. */
  function Decode(text: string): Option<JsonValue> {
    match ParseValue(SkipWs(text))
    case None => None
    case Some((v, rest)) => if SkipWs(rest) == [] then Some(v) else None
  }
}
