/** JavaScript values and the few built-in string operations the admin
    client, the route guards and the contact route rely on: JSON values,
    ToBoolean, property reads, ToString, `split`/`join`, `trim` and the
    whitespace class `\s`. */
module Js {

  datatype Option<+T> = None | Some(value: T)

  datatype Result<+T, +E> = Success(value: T) | Failure(error: E)

  /** A JSON value as `JSON.parse` produces it. Numbers are integers. */
  datatype Json =
    | JNull
    | JBool(b: bool)
    | JNum(n: int)
    | JStr(s: string)
    | JArr(items: seq<Json>)
    | JObj(fields: map<string, Json>)

  /** ToBoolean (ECMA-262 section 7.1.2) of a value that may be `undefined` (None). */
  predicate Truthy(v: Option<Json>) {
    match v
    case None => false
    case Some(j) =>
      match j
      case JNull => false
      case JBool(b) => b
      case JNum(n) => n != 0
      case JStr(s) => s != ""
      case JArr(_) => true
      case JObj(_) => true
  }

  /** Reading property `key` of a non-nullish value: only objects have own
      data properties here; anything else yields `undefined`. */
  function Get(j: Json, key: string): (r: Option<Json>)
    ensures r.Some? <==> j.JObj? && key in j.fields
  {
    if j.JObj? && key in j.fields then Some(j.fields[key]) else None
  }

  /** `a || b` */
  function Or(a: Option<Json>, b: Option<Json>): Option<Json> {
    if Truthy(a) then a else b
  }

  /** `x.length`: arrays and strings have one, an object may carry a
      `length` property, other values have none. */
  function Length(j: Json): Option<Json> {
    match j
    case JArr(xs) => Some(JNum(|xs|))
    case JStr(s) => Some(JNum(|s|))
    case JObj(_) => Get(j, "length")
    case _ => None
  }

  /** ToNumber for the values whose conversion does not go through a string;
      None stands for NaN. */
  function ToNumber(j: Json): Option<int> {
    match j
    case JNull => Some(0)
    case JBool(b) => Some(if b then 1 else 0)
    case JNum(n) => Some(n)
    case _ => None
  }

  /** `n >= x` for a number `n`: false whenever `x` converts to NaN. */
  predicate GreaterOrEqual(n: int, x: Json) {
    match ToNumber(x)
    case Some(m) => n >= m
    case None => false
  }

  // ---------------------------------------------------------------------
  // Decimal rendering of integers (Number.prototype.toString for integers)

  predicate IsDigit(c: char) { '0' <= c <= '9' }

  function Digit(d: nat): (c: char)
    requires d < 10
    ensures IsDigit(c) && c as int - '0' as int == d
  {
    ('0' as int + d) as char
  }

  function NatToString(n: nat): (r: string)
    ensures |r| > 0
    ensures forall i :: 0 <= i < |r| ==> IsDigit(r[i])
    decreases n
  {
    if n < 10 then [Digit(n)] else NatToString(n / 10) + [Digit(n % 10)]
  }

  /** Reads a string of digits back as a number; the partner of NatToString. */
  function ParseDigits(s: string): nat
    requires forall i :: 0 <= i < |s| ==> IsDigit(s[i])
  {
    if s == [] then 0
    else
      assert IsDigit(s[|s| - 1]);
      ParseDigits(s[..|s| - 1]) * 10 + (s[|s| - 1] as int - '0' as int)
  }

  lemma {:induction false} ParseNatToString(n: nat)
    ensures ParseDigits(NatToString(n)) == n
    decreases n
  {
    if n >= 10 {
      var s := NatToString(n);
      assert s[..|s| - 1] == NatToString(n / 10);
      ParseNatToString(n / 10);
    }
  }

  function IntToString(n: int): (r: string)
    ensures |r| > 0
    ensures forall i :: 0 <= i < |r| ==> IsDigit(r[i]) || r[i] == '-'
  {
    if n < 0 then "-" + NatToString(-n) else NatToString(n)
  }

  // ---------------------------------------------------------------------
  // ToString, as a template literal `${v}` applies it

  /** String(v); `undefined` is None. Plain objects print as "[object Object]". */
  function ToJsString(v: Option<Json>): string {
    match v
    case None => "undefined"
    case Some(j) => JsonToString(j)
  }

  function JsonToString(j: Json): string
    decreases j, 1, 0
  {
    match j
    case JNull => "null"
    case JBool(b) => if b then "true" else "false"
    case JNum(n) => IntToString(n)
    case JStr(s) => s
    case JArr(xs) => ArrayJoin(xs, 0, ",")
    case JObj(_) => "[object Object]"
  }

  /** `xs.slice(i).join(sep)`: null elements print as the empty string. */
  function ArrayJoin(xs: seq<Json>, i: nat, sep: string): string
    requires i <= |xs|
    decreases JArr(xs), 0, |xs| - i
  {
    if i == |xs| then ""
    else
      var e := if xs[i] == JNull then "" else JsonToString(xs[i]);
      if i + 1 == |xs| then e else e + sep + ArrayJoin(xs, i + 1, sep)
  }

  // ---------------------------------------------------------------------
  // Prefixes, split and join

  predicate StartsWith(s: string, prefix: string) {
    |prefix| <= |s| && s[..|prefix|] == prefix
  }

  /** Array.prototype.join over strings. */
  function Join(xs: seq<string>, sep: string): string {
    if |xs| == 0 then ""
    else if |xs| == 1 then xs[0]
    else xs[0] + sep + Join(xs[1..], sep)
  }

  /** String.prototype.split with a one-character separator: the pieces
      never contain the separator and joining them gives the string back. */
  function Split(s: string, c: char): (r: seq<string>)
    ensures |r| >= 1
    ensures forall i :: 0 <= i < |r| ==> c !in r[i]
    ensures Join(r, [c]) == s
  {
    if |s| == 0 then [""]
    else
      var rest := Split(s[1..], c);
      if s[0] == c then
        assert [""] + rest == [""] + rest;
        assert s == [c] + s[1..];
        [""] + rest
      else
        var r := [[s[0]] + rest[0]] + rest[1..];
        assert s == [s[0]] + s[1..];
        assert Join(r, [c]) == [s[0]] + Join(rest, [c]) by {
          if |rest| > 1 {
            assert r[1..] == rest[1..];
          }
        }
        r
  }

  lemma {:induction false} SplitWithout(a: string, c: char)
    requires c !in a
    ensures Split(a, c) == [a]
    decreases |a|
  {
    if |a| > 0 {
      SplitWithout(a[1..], c);
      assert a == [a[0]] + a[1..];
    }
  }

  /** A piece free of the separator, then the separator, splits off as the first piece. */
  lemma {:induction false} SplitAfterPiece(a: string, c: char, b: string)
    requires c !in a
    ensures Split(a + [c] + b, c) == [a] + Split(b, c)
    decreases |a|
  {
    var s := a + [c] + b;
    if |a| == 0 {
      assert s == [c] + b;
      assert s[1..] == b;
    } else {
      assert s[1..] == a[1..] + [c] + b;
      SplitAfterPiece(a[1..], c, b);
      assert [a[0]] + a[1..] == a;
    }
  }

  /** One separator between two pieces free of it gives those two pieces. */
  lemma {:induction false} SplitTwo(a: string, c: char, b: string)
    requires c !in a && c !in b
    ensures Split(a + [c] + b, c) == [a, b]
  {
    SplitAfterPiece(a, c, b);
    SplitWithout(b, c);
  }

  /** Two separators between three pieces free of it give those three pieces. */
  lemma {:induction false} SplitThree(a: string, b: string, d: string, c: char)
    requires c !in a && c !in b && c !in d
    ensures Split(a + [c] + (b + [c] + d), c) == [a, b, d]
  {
    SplitAfterPiece(a, c, b + [c] + d);
    SplitTwo(b, c, d);
    assert [a] + [b, d] == [a, b, d];
  }

  /** Splitting what Join built gives the pieces back. */
  lemma {:induction false} SplitJoin(xs: seq<string>, c: char)
    requires |xs| >= 1
    requires forall i :: 0 <= i < |xs| ==> c !in xs[i]
    ensures Split(Join(xs, [c]), c) == xs
    decreases |xs|
  {
    if |xs| == 1 {
      SplitWithout(xs[0], c);
    } else {
      SplitJoin(xs[1..], c);
      SplitAfterPiece(xs[0], c, Join(xs[1..], [c]));
      assert [xs[0]] + xs[1..] == xs;
    }
  }

  /** The first piece of a split extends every separator-free prefix. */
  lemma {:induction false} SplitFirstPiece(s: string, c: char, k: nat)
    requires k <= |s|
    requires c !in s[..k]
    ensures StartsWith(Split(s, c)[0], s[..k])
    decreases k
  {
    if k > 0 {
      assert s[0] in s[..k];
      assert s[1..][..k - 1] == s[1..k];
      assert forall x :: x in s[1..k] ==> x in s[..k];
      SplitFirstPiece(s[1..], c, k - 1);
    }
  }

  // ---------------------------------------------------------------------
  // Whitespace and trim

  /** The characters of the regular-expression class `\s`, which are also the
      characters `String.prototype.trim` removes: WhiteSpace and
      LineTerminator (ECMA-262 sections 12.2 and 12.3). */
  predicate IsSpace(ch: char) {
    || ('\t' <= ch <= '\r') || ch == ' ' || ch == '\U{A0}' || ch == '\U{1680}'
    || ('\U{2000}' <= ch <= '\U{200A}') || ('\U{2028}' <= ch <= '\U{2029}')
    || ch == '\U{202F}' || ch == '\U{205F}' || ch == '\U{3000}' || ch == '\U{FEFF}'
  }

  predicate Trimmed(s: string) {
    s == [] || (!IsSpace(s[0]) && !IsSpace(s[|s| - 1]))
  }

  /** The end of the run of whitespace that starts at i. */
  function SpacesFrom(s: string, i: nat): (n: nat)
    requires i <= |s|
    ensures i <= n <= |s| && (n == |s| || !IsSpace(s[n]))
    decreases |s| - i
  {
    if i < |s| && IsSpace(s[i]) then SpacesFrom(s, i + 1) else i
  }

  /** The start of the run of whitespace that ends at j. */
  function SpacesBefore(s: string, j: nat): (n: nat)
    requires j <= |s|
    ensures n <= j && (n == 0 || !IsSpace(s[n - 1]))
    decreases j
  {
    if j > 0 && IsSpace(s[j - 1]) then SpacesBefore(s, j - 1) else j
  }

  lemma {:induction false} SpacesFromCuts(s: string, i: nat)
    requires i <= |s|
    ensures forall k :: i <= k < SpacesFrom(s, i) ==> IsSpace(s[k])
    decreases |s| - i
  {
    if i < |s| && IsSpace(s[i]) {
      SpacesFromCuts(s, i + 1);
    }
  }

  lemma {:induction false} SpacesBeforeCuts(s: string, j: nat)
    requires j <= |s|
    ensures forall k :: SpacesBefore(s, j) <= k < j ==> IsSpace(s[k])
    decreases j
  {
    if j > 0 && IsSpace(s[j - 1]) {
      SpacesBeforeCuts(s, j - 1);
    }
  }

  /** String.prototype.trimStart */
  function TrimStart(s: string): (r: string)
    ensures |r| <= |s| && r == s[|s| - |r|..]
    ensures r == [] || !IsSpace(r[0])
  {
    s[SpacesFrom(s, 0)..]
  }

  /** String.prototype.trimEnd */
  function TrimEnd(s: string): (r: string)
    ensures |r| <= |s| && r == s[..|r|]
    ensures r == [] || !IsSpace(r[|r| - 1])
  {
    s[..SpacesBefore(s, |s|)]
  }

  /** TrimStart cuts whitespace only. */
  lemma TrimStartCutsSpace(s: string)
    ensures forall i :: 0 <= i < |s| - |TrimStart(s)| ==> IsSpace(s[i])
  {
    SpacesFromCuts(s, 0);
  }

  /** TrimEnd cuts whitespace only. */
  lemma TrimEndCutsSpace(s: string)
    ensures forall i :: |TrimEnd(s)| <= i < |s| ==> IsSpace(s[i])
  {
    SpacesBeforeCuts(s, |s|);
  }

  /** String.prototype.trim: the result is a slice of the input with only
      whitespace cut on either side, and it is itself trimmed. */
  function Trim(s: string): (r: string)
    ensures Trimmed(r)
    ensures |r| <= |s|
  {
    TrimEnd(TrimStart(s))
  }

  /** What trim keeps is a slice of the input, starting where TrimStart stops. */
  lemma TrimIsSlice(s: string)
    ensures var i := |s| - |TrimStart(s)|; var r := Trim(s);
      i + |r| <= |s| && r == s[i..i + |r|]
  {
    var t := TrimStart(s);
    SliceOfSlice(s, t, TrimEnd(t), |s| - |t|);
  }

  /** A prefix of a suffix is a slice. */
  lemma SliceOfSlice(s: string, t: string, r: string, i: nat)
    requires i <= |s| && t == s[i..] && |r| <= |t| && r == t[..|r|]
    ensures i + |r| <= |s| && r == s[i..i + |r|]
  {
  }

  /** Every character trim cuts, on either side, is whitespace. */
  lemma TrimCutsSpace(s: string)
    ensures var i := |s| - |TrimStart(s)|; var r := Trim(s);
      && (forall k :: 0 <= k < i ==> IsSpace(s[k]))
      && (forall k :: i + |r| <= k < |s| ==> IsSpace(s[k]))
  {
    var t := TrimStart(s);
    var r := TrimEnd(t);
    var i := |s| - |t|;
    TrimStartCutsSpace(s);
    TrimEndCutsSpace(t);
    assert t == s[i..];
    forall k | i + |r| <= k < |s| ensures IsSpace(s[k]) {
      assert s[k] == t[k - i];
    }
  }

  /** Trim removes whitespace and nothing else: what is left is a slice of
      the input, and every character cut on either side is whitespace. */
  lemma TrimRemovesOnlySpace(s: string)
    ensures var i := |s| - |TrimStart(s)|; var r := Trim(s);
      && i + |r| <= |s| && r == s[i..i + |r|]
      && (forall k :: 0 <= k < i ==> IsSpace(s[k]))
      && (forall k :: i + |r| <= k < |s| ==> IsSpace(s[k]))
  {
    TrimIsSlice(s);
    TrimCutsSpace(s);
  }

  lemma TrimOfTrimmed(s: string)
    requires Trimmed(s)
    ensures Trim(s) == s
  {
    assert s[0..] == s && s[..|s|] == s;
  }

  /** A space in front does not move where the run of whitespace ends. */
  lemma {:induction false} SpacesFromShift(s: string, i: nat)
    requires i <= |s|
    ensures SpacesFrom(" " + s, i + 1) == SpacesFrom(s, i) + 1
    decreases |s| - i
  {
    if i < |s| {
      assert (" " + s)[i + 1] == s[i];
      if IsSpace(s[i]) {
        SpacesFromShift(s, i + 1);
      }
    }
  }

  lemma TrimLeadingSpace(s: string)
    ensures Trim(" " + s) == Trim(s)
  {
    SpacesFromShift(s, 0);
    var n := SpacesFrom(s, 0);
    assert (" " + s)[n + 1..] == s[n..];
    assert TrimStart(" " + s) == TrimStart(s);
  }
}
