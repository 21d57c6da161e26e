/**
 * The small part of JavaScript's value semantics that the scraper service,
 * the cache middleware and the config controller depend on: truthiness,
 * `String(v)`, `parseInt`, `String.prototype.trim`, the `parseInt(x) || d`
 * defaulting idiom, and plain objects as ordered key/value entries.
 */
module Js {

  datatype Option<+T> = None | Some(value: T)

  /** How a call ends: it returns a value or it throws one. */
  datatype Completion<+T, +E> = Returned(value: T) | Threw(error: E)

  /**
   * The values that reach the modelled code (JSON bodies, query values,
   * cached response bodies). Numbers are integers in this model.
   */
  datatype JsValue = Undefined | Null | Bool(b: bool) | Num(n: int) | Str(s: string)

  /** ToBoolean: `undefined`, `null`, `false`, `0` and `""` are falsy. */
  predicate Truthy(v: JsValue) {
    match v
    case Undefined => false
    case Null => false
    case Bool(b) => b
    case Num(n) => n != 0
    case Str(s) => s != ""
  }

  // ---------------------------------------------------------------------
  // Number to string
  // ---------------------------------------------------------------------

  predicate IsDecimalDigit(c: char) {
    '0' <= c <= '9'
  }

  function DigitChar(d: nat): (c: char)
    requires d < 10
    ensures IsDecimalDigit(c)
  {
    "0123456789"[d]
  }

  /** The decimal numeral of `n`, without leading zeros. */
  function NatToString(n: nat): (s: string)
    ensures |s| >= 1
    ensures forall i :: 0 <= i < |s| ==> IsDecimalDigit(s[i])
    decreases n
  {
    if n < 10 then [DigitChar(n)] else NatToString(n / 10) + [DigitChar(n % 10)]
  }

  /** `String(n)` / `n.toString()` for an integer-valued Number. */
  function IntToString(n: int): string {
    if n < 0 then "-" + NatToString(-n) else NatToString(n)
  }

  /** `String(v)`, which is also what `v.toString()` and `URLSearchParams.append` use. */
  function ToJsString(v: JsValue): string {
    match v
    case Undefined => "undefined"
    case Null => "null"
    case Bool(b) => if b then "true" else "false"
    case Num(n) => IntToString(n)
    case Str(s) => s
  }

  // ---------------------------------------------------------------------
  // Whitespace and trim
  // ---------------------------------------------------------------------

  /** ECMAScript WhiteSpace and LineTerminator code points. */
  const WhitespaceChars: string :=
    "\t\U{000B}\U{000C} \U{00A0}\U{FEFF}\U{1680}"
    + "\U{2000}\U{2001}\U{2002}\U{2003}\U{2004}\U{2005}\U{2006}\U{2007}\U{2008}\U{2009}\U{200A}"
    + "\U{202F}\U{205F}\U{3000}\n\r\U{2028}\U{2029}"

  /** Whether `c` occurs in `cs`, looked up one character at a time. */
  predicate Occurs(c: char, cs: string)
    decreases |cs|
  {
    cs != [] && (cs[0] == c || Occurs(c, cs[1..]))
  }

  predicate IsWhitespace(c: char) {
    Occurs(c, WhitespaceChars)
  }

  /** A character inside a band that none of `cs` falls in does not occur in `cs`. */
  lemma {:induction false} AbsentFromBand(c: char, cs: string, lo: char, hi: char)
    requires forall i :: 0 <= i < |cs| ==> cs[i] < lo || hi < cs[i]
    requires lo <= c <= hi
    ensures !Occurs(c, cs)
    decreases |cs|
  {
    if cs != [] {
      assert forall i :: 0 <= i < |cs[1..]| ==> cs[1..][i] == cs[i + 1];
      AbsentFromBand(c, cs[1..], lo, hi);
    }
  }

  /** No whitespace code point lies between `-` and `9`: signs and digits are not blank. */
  lemma SignsAndDigitsAreNotBlank(c: char)
    requires '-' <= c <= '9'
    ensures !IsWhitespace(c)
  {
    AbsentFromBand(c, WhitespaceChars, '-', '9');
  }

  /** Drops leading whitespace: the result is a suffix of `s`. */
  function TrimStart(s: string): (r: string)
    ensures |r| <= |s| && r == s[|s| - |r|..]
    decreases |s|
  {
    if s != [] && IsWhitespace(s[0]) then TrimStart(s[1..]) else s
  }

  /** `TrimStart` drops only whitespace, and what it keeps does not start with whitespace. */
  lemma {:induction false} TrimStartDropsWhitespace(s: string)
    ensures forall i :: 0 <= i < |s| - |TrimStart(s)| ==> IsWhitespace(s[i])
    ensures TrimStart(s) != [] ==> !IsWhitespace(TrimStart(s)[0])
    decreases |s|
  {
    if s != [] && IsWhitespace(s[0]) {
      var t := s[1..];
      TrimStartDropsWhitespace(t);
      assert TrimStart(s) == TrimStart(t);
      forall i | 1 <= i < |s| - |TrimStart(s)| ensures IsWhitespace(s[i]) {
        assert s[i] == t[i - 1];
      }
    }
  }

  /** Drops trailing whitespace: the result is a prefix of `s`. */
  function TrimEnd(s: string): (r: string)
    ensures |r| <= |s| && r == s[..|r|]
    decreases |s|
  {
    if s != [] && IsWhitespace(s[|s| - 1]) then TrimEnd(s[..|s| - 1]) else s
  }

  /** `TrimEnd` drops only whitespace, and what it keeps does not end with whitespace. */
  lemma {:induction false} TrimEndDropsWhitespace(s: string)
    ensures forall i :: |TrimEnd(s)| <= i < |s| ==> IsWhitespace(s[i])
    ensures TrimEnd(s) != [] ==> !IsWhitespace(TrimEnd(s)[|TrimEnd(s)| - 1])
    decreases |s|
  {
    if s != [] && IsWhitespace(s[|s| - 1]) {
      var p := s[..|s| - 1];
      TrimEndDropsWhitespace(p);
      forall i | |TrimEnd(s)| <= i < |s| - 1 ensures IsWhitespace(s[i]) {
        assert s[i] == p[i];
      }
    }
  }

  /** `String.prototype.trim`: the result neither starts nor ends with whitespace. */
  function Trim(s: string): (r: string)
    ensures |r| <= |s|
    ensures r != [] ==> !IsWhitespace(r[0]) && !IsWhitespace(r[|r| - 1])
  {
    var t := TrimStart(s);
    TrimStartDropsWhitespace(s);
    TrimEndDropsWhitespace(t);
    var r := TrimEnd(t);
    assert r != [] ==> r[0] == t[0];
    r
  }

  /** Trimming leaves the infix of `s` that starts after its leading whitespace. */
  lemma TrimIsInfix(s: string)
    ensures var i := |s| - |TrimStart(s)|;
      0 <= i <= i + |Trim(s)| <= |s| && Trim(s) == s[i..i + |Trim(s)|]
  {
    var t := TrimStart(s);
    PrefixOfSuffix(s, t, TrimEnd(t));
  }

  /** A prefix of a suffix of `s` is an infix of `s`. */
  lemma PrefixOfSuffix<T>(s: seq<T>, t: seq<T>, r: seq<T>)
    requires |t| <= |s| && t == s[|s| - |t|..]
    requires |r| <= |t| && r == t[..|r|]
    ensures var i := |s| - |t|; r == s[i..i + |r|]
  {
  }

  /** Only whitespace lies outside the infix trimming leaves. */
  lemma TrimDropsOnlyWhitespace(s: string)
    ensures var i := |s| - |TrimStart(s)|;
      && (forall k :: 0 <= k < i ==> IsWhitespace(s[k]))
      && (forall k :: i + |Trim(s)| <= k < |s| ==> IsWhitespace(s[k]))
  {
    var t := TrimStart(s);
    TrimStartDropsWhitespace(s);
    TrimEndDropsWhitespace(t);
    SuffixTailShifts(s, t, |TrimEnd(t)|, IsWhitespace);
  }

  /** A property of the tail of a suffix `t` of `s` holds of the same tail of `s`. */
  lemma SuffixTailShifts<T>(s: seq<T>, t: seq<T>, m: nat, P: T -> bool)
    requires |t| <= |s| && t == s[|s| - |t|..] && m <= |t|
    requires forall j :: m <= j < |t| ==> P(t[j])
    ensures forall k :: |s| - |t| + m <= k < |s| ==> P(s[k])
  {
    forall k | |s| - |t| + m <= k < |s| ensures P(s[k]) {
      assert s[k] == t[k - (|s| - |t|)];
    }
  }

  /** Trimming twice is trimming once. */
  lemma TrimIdempotent(s: string)
    ensures Trim(Trim(s)) == Trim(s)
  {
    var r := Trim(s);
    if r != [] {
      TrimStartOfNonBlank(r);
      assert TrimEnd(r) == r;
    }
  }

  // ---------------------------------------------------------------------
  // parseInt
  // ---------------------------------------------------------------------

  /** The value of `c` as a digit of base up to 16, if it is one. */
  function HexDigitValue(c: char): Option<nat> {
    if '0' <= c <= '9' then Some(c as int - '0' as int)
    else if 'a' <= c <= 'f' then Some(c as int - 'a' as int + 10)
    else if 'A' <= c <= 'F' then Some(c as int - 'A' as int + 10)
    else None
  }

  predicate IsDigitIn(c: char, radix: nat) {
    HexDigitValue(c).Some? && HexDigitValue(c).value < radix
  }

  function DigitOf(c: char): nat {
    match HexDigitValue(c)
    case Some(d) => d
    case None => 0
  }

  /** Length of the longest prefix of `s` made of digits of the given radix. */
  function DigitRun(s: string, radix: nat): (k: nat)
    ensures k <= |s|
    ensures forall i :: 0 <= i < k ==> IsDigitIn(s[i], radix)
    ensures k < |s| ==> !IsDigitIn(s[k], radix)
    decreases |s|
  {
    if s != [] && IsDigitIn(s[0], radix) then 1 + DigitRun(s[1..], radix) else 0
  }

  /** The number a digit string denotes, most significant digit first. */
  function DigitsValue(ds: string, radix: nat): nat
    decreases |ds|
  {
    if ds == [] then 0 else DigitsValue(ds[..|ds| - 1], radix) * radix + DigitOf(ds[|ds| - 1])
  }

  /**
   * `parseInt(s)` with no radix: skip leading whitespace, take an optional
   * sign, a `0x`/`0X` prefix switches to base 16, then read the longest run
   * of digits. `None` stands for NaN (no digits at all).
   */
  function ParseInt(s: string): Option<int> {
    var t := TrimStart(s);
    var sign := if t != [] && t[0] == '-' then -1 else 1;
    var u := if t != [] && (t[0] == '-' || t[0] == '+') then t[1..] else t;
    match ParseMagnitude(u)
    case None => None
    case Some(m) => Some(sign * m)
  }

  /** The unsigned part of `parseInt`: an optional `0x` prefix, then the longest digit run. */
  function ParseMagnitude(u: string): Option<nat> {
    var hex := |u| >= 2 && u[0] == '0' && (u[1] == 'x' || u[1] == 'X');
    var radix := if hex then 16 else 10;
    var w := if hex then u[2..] else u;
    var k := DigitRun(w, radix);
    if k == 0 then None else Some(DigitsValue(w[..k], radix))
  }

  /**
   * `parseInt(v) || fallback`, where `v` may be missing (`parseInt(undefined)`
   * is NaN). NaN and 0 are both falsy, so both give the fallback.
   */
  function ParseIntOr(v: Option<string>, fallback: int): (r: int)
    ensures fallback != 0 ==> r != 0
  {
    var parsed := if v.Some? then ParseInt(v.value) else None;
    if parsed.Some? && parsed.value != 0 then parsed.value else fallback
  }

  lemma {:induction false} DigitsValueOfNatToString(n: nat)
    ensures DigitsValue(NatToString(n), 10) == n
    decreases n
  {
    var s := NatToString(n);
    if n >= 10 {
      var p := NatToString(n / 10);
      assert s == p + [DigitChar(n % 10)];
      assert s[..|s| - 1] == p;
      DigitsValueOfNatToString(n / 10);
    }
  }

  lemma {:induction false} DigitRunOfDigits(d: string)
    requires forall i :: 0 <= i < |d| ==> IsDecimalDigit(d[i])
    ensures DigitRun(d, 10) == |d|
    decreases |d|
  {
    if d != [] {
      DigitRunOfDigits(d[1..]);
    }
  }

  /** A non-empty decimal digit string is read whole, as its value. */
  lemma ParseMagnitudeOfDigits(d: string)
    requires d != [] && forall i :: 0 <= i < |d| ==> IsDecimalDigit(d[i])
    ensures ParseMagnitude(d) == Some(DigitsValue(d, 10))
  {
    if |d| >= 2 {
      assert IsDecimalDigit(d[1]);
    }
    DigitRunOfDigits(d);
    assert d[..|d|] == d;
  }

  /** `parseInt(String(n)) == n` for every integer: the numeral round-trips. */
  lemma ParseIntOfIntToString(n: int)
    ensures ParseInt(IntToString(n)) == Some(n)
  {
    var m: nat := if n < 0 then -n else n;
    var d := NatToString(m);
    DigitsValueOfNatToString(m);
    ParseMagnitudeOfDigits(d);
    if n < 0 {
      var t := "-" + d;
      assert t[1..] == d;
      ParseIntOfNegated(t);
    } else {
      ParseIntOfDigits(d);
    }
  }

  lemma DigitNotWhitespace(c: char)
    requires IsDecimalDigit(c)
    ensures !IsWhitespace(c)
  {
    SignsAndDigitsAreNotBlank(c);
  }

  /** A string that starts with a non-blank character is its own `TrimStart`. */
  lemma TrimStartOfNonBlank(s: string)
    requires s != [] && !IsWhitespace(s[0])
    ensures TrimStart(s) == s
  {
  }

  /** A string that starts with a decimal digit is read as its magnitude. */
  lemma ParseIntOfDigits(d: string)
    requires d != [] && IsDecimalDigit(d[0])
    ensures ParseInt(d) == ParseMagnitude(d)
  {
    DigitNotWhitespace(d[0]);
    TrimStartOfNonBlank(d);
  }

  /** A string that starts with a minus sign is read as the negated magnitude of the rest. */
  lemma ParseIntOfNegated(t: string)
    requires t != [] && t[0] == '-'
    ensures ParseMagnitude(t[1..]).Some? ==> ParseInt(t) == Some(-(ParseMagnitude(t[1..]).value as int))
  {
    SignsAndDigitsAreNotBlank('-');
    TrimStartOfNonBlank(t);
  }

  /** A non-zero integer written with `String(n)` survives `parseInt(...) || fallback`. */
  lemma ParseIntOrOfNonZero(n: int, fallback: int)
    requires n != 0
    ensures ParseIntOr(Some(IntToString(n)), fallback) == n
  {
    ParseIntOfIntToString(n);
  }

  /** `"0"` is parsed as 0, which is falsy, so `parseInt("0") || fallback` is the fallback. */
  lemma ParseIntOrOfZero(fallback: int)
    ensures ParseIntOr(Some("0"), fallback) == fallback
  {
    ParseIntOfIntToString(0);
    assert IntToString(0) == "0";
  }

  /** A missing or non-numeric value falls back. */
  lemma ParseIntOrFallsBack(v: Option<string>, fallback: int)
    requires v.None? || ParseInt(v.value).None?
    ensures ParseIntOr(v, fallback) == fallback
  {
  }

  // ---------------------------------------------------------------------
  // Environment and plain objects
  // ---------------------------------------------------------------------

  /** `process.env[k]`: a string, or `undefined` when the variable is unset. */
  function EnvGet(env: map<string, string>, k: string): Option<string> {
    if k in env then Some(env[k]) else None
  }

  /** A plain object's own enumerable properties in `Object.entries` order. */
  type Entries = seq<(string, JsValue)>

  predicate DistinctKeys(e: Entries) {
    forall i, j :: 0 <= i < j < |e| ==> e[i].0 != e[j].0
  }

  predicate HasKey(e: Entries, key: string) {
    exists i :: 0 <= i < |e| && e[i].0 == key
  }

  /** `obj[key]`: the value stored under `key`, or `undefined`. */
  function GetProperty(e: Entries, key: string): (v: JsValue)
    ensures !HasKey(e, key) ==> v == Undefined
    ensures forall i :: 0 <= i < |e| && e[i].0 == key && DistinctKeys(e) ==> v == e[i].1
    decreases |e|
  {
    if e == [] then Undefined
    else if e[0].0 == key then e[0].1
    else GetProperty(e[1..], key)
  }

  /**
   * `obj[key] = v`: an existing property keeps its position and takes the
   * new value; a new property is added after all existing ones.
   */
  function SetProperty(e: Entries, key: string, v: JsValue): (r: Entries)
    ensures HasKey(e, key) ==> |r| == |e|
    ensures !HasKey(e, key) ==> r == e + [(key, v)]
    ensures forall i :: 0 <= i < |e| ==> r[i].0 == e[i].0
    ensures forall i :: 0 <= i < |e| && e[i].0 != key ==> r[i] == e[i]
    ensures forall i :: 0 <= i < |e| && e[i].0 == key && DistinctKeys(e) ==> r[i] == (key, v)
    decreases |e|
  {
    if e == [] then [(key, v)]
    else if e[0].0 == key then [(key, v)] + e[1..]
    else [e[0]] + SetProperty(e[1..], key, v)
  }

  /** After `obj[key] = v`, reading `obj[key]` gives `v` and the keys stay distinct. */
  lemma {:induction false} SetThenGet(e: Entries, key: string, v: JsValue)
    requires DistinctKeys(e)
    ensures DistinctKeys(SetProperty(e, key, v))
    ensures GetProperty(SetProperty(e, key, v), key) == v
    decreases |e|
  {
    if e != [] && e[0].0 != key {
      SetThenGet(e[1..], key, v);
      var r := SetProperty(e, key, v);
      var tail := SetProperty(e[1..], key, v);
      assert r == [e[0]] + tail;
      assert r[1..] == tail;
      forall i | 0 < i < |tail| + 1 ensures r[i].0 != e[0].0 {
        if i - 1 < |e| - 1 {
          assert tail[i - 1].0 == e[1..][i - 1].0;
        } else {
          assert !HasKey(e[1..], key);
          assert tail[i - 1] == (key, v);
        }
      }
    }
  }
}
