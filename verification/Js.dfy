/**
 * JavaScript value helpers shared by every module: absent values
 * (null/undefined), truthiness, and the few string built-ins the
 * application relies on (startsWith, endsWith, includes, toLowerCase,
 * trim), restricted to what the modelled code needs.
 */
module Js {

  /** `undefined`/`null` versus a present value. */
  datatype Option<+T> = None | Some(value: T) {
    function GetOr(default: T): T {
      match this
      case Some(v) => v
      case None => default
    }
  }

  /** The settlement of an asynchronous mutation: the data the server
      answered with, or the error it reported. */
  datatype Settled<+T> = Succeeded(data: T) | Failed(message: string)

  /** A string that may be null or undefined is truthy iff it is present and non-empty. */
  predicate StrTruthy(s: Option<string>) {
    s.Some? && s.value != ""
  }

  /** A number that may be null or undefined is truthy iff it is present and not zero. */
  predicate NumTruthy(n: Option<int>) {
    n.Some? && n.value != 0
  }

  /** `x === true` for a boolean that may be undefined. */
  predicate IsTrue(b: Option<bool>) {
    b == Some(true)
  }

  predicate StartsWith(s: string, prefix: string) {
    |prefix| <= |s| && s[..|prefix|] == prefix
  }

  predicate EndsWith(s: string, suffix: string) {
    |suffix| <= |s| && s[|s| - |suffix|..] == suffix
  }

  /** `s.includes(part)`: `part` occurs somewhere in `s`. */
  predicate Contains(s: string, part: string)
    decreases |s|
  {
    StartsWith(s, part) || (s != [] && Contains(s[1..], part))
  }

  /** `toLowerCase` on the ASCII range. */
  function LowerChar(c: char): char {
    if 'A' <= c <= 'Z' then (c as int + 32) as char else c
  }

  function Lower(s: string): (r: string)
    ensures |r| == |s|
    ensures forall i :: 0 <= i < |s| ==> r[i] == LowerChar(s[i])
  {
    seq(|s|, i requires 0 <= i < |s| => LowerChar(s[i]))
  }

  /** The white-space characters `trim` removes (ASCII white space, no-break space, BOM). */
  predicate IsSpace(c: char) {
    c == ' ' || c == '\t' || c == '\n' || c == '\r' || c == '\U{000B}' || c == '\U{000C}'
      || c == '\U{00A0}' || c == '\U{FEFF}'
  }

  function TrimStart(s: string): string
    decreases |s|
  {
    if s != [] && IsSpace(s[0]) then TrimStart(s[1..]) else s
  }

  function TrimEnd(s: string): string
    decreases |s|
  {
    if s != [] && IsSpace(s[|s| - 1]) then TrimEnd(s[..|s| - 1]) else s
  }

  function Trim(s: string): string {
    TrimEnd(TrimStart(s))
  }

  /** Every character of `s` is white space. */
  predicate Blank(s: string) {
    forall i :: 0 <= i < |s| ==> IsSpace(s[i])
  }

  lemma {:induction false} TrimStartEmptyIffBlank(s: string)
    ensures TrimStart(s) == "" <==> Blank(s)
    decreases |s|
  {
    if s != [] && IsSpace(s[0]) {
      TrimStartEmptyIffBlank(s[1..]);
      assert Blank(s) <==> Blank(s[1..]) by {
        if Blank(s[1..]) {
          forall i | 0 <= i < |s| ensures IsSpace(s[i]) {
            if i > 0 { assert s[i] == s[1..][i - 1]; }
          }
        }
        if Blank(s) {
          forall i | 0 <= i < |s[1..]| ensures IsSpace(s[1..][i]) {
            assert s[1..][i] == s[i + 1];
          }
        }
      }
    } else if s != [] {
      assert !IsSpace(s[0]);
    }
  }

  lemma {:induction false} TrimEndOfNonEmpty(s: string)
    requires s != ""
    requires !IsSpace(s[0])
    ensures TrimEnd(s) != ""
    decreases |s|
  {
    if IsSpace(s[|s| - 1]) {
      assert |s| > 1;
      TrimEndOfNonEmpty(s[..|s| - 1]);
    }
  }

  /** `s.trim() === ""` exactly when `s` consists of white space only. */
  lemma TrimEmptyIffBlank(s: string)
    ensures Trim(s) == "" <==> Blank(s)
  {
    TrimStartEmptyIffBlank(s);
    var t := TrimStart(s);
    if t != "" {
      TrimStartHead(s);
      TrimEndOfNonEmpty(t);
    }
  }

  lemma {:induction false} TrimStartHead(s: string)
    ensures TrimStart(s) != "" ==> !IsSpace(TrimStart(s)[0])
    decreases |s|
  {
    if s != [] && IsSpace(s[0]) {
      TrimStartHead(s[1..]);
    }
  }

  predicate IsDigits(s: string) {
    forall i :: 0 <= i < |s| ==> '0' <= s[i] <= '9'
  }

  /** The number a string of decimal digits denotes, most significant first. */
  function DecimalValue(s: string): nat
    requires IsDigits(s)
  {
    if s == [] then 0
    else DecimalValue(s[..|s| - 1]) * 10 + (s[|s| - 1] as int - '0' as int)
  }

  /** Decimal rendering of a natural number, as a template literal prints it:
      the digits denote `n` and carry no leading zero. */
  function NatToDecimal(n: nat): (r: string)
    ensures |r| >= 1 && IsDigits(r)
    ensures DecimalValue(r) == n
    ensures r[0] == '0' ==> n == 0
    decreases n
  {
    if n < 10 then [('0' as int + n) as char]
    else
      var r := NatToDecimal(n / 10) + [('0' as int + n % 10) as char];
      assert r[..|r| - 1] == NatToDecimal(n / 10);
      r
  }

  /** Different numbers print differently. */
  lemma NatToDecimalInjective(a: nat, b: nat)
    ensures NatToDecimal(a) == NatToDecimal(b) ==> a == b
  {
  }

  /** Decimal rendering of an integer, with a leading `-` when negative. */
  function IntToDecimal(n: int): (r: string)
    ensures n >= 0 ==> IsDigits(r) && DecimalValue(r) == n
    ensures n < 0 ==> |r| >= 2 && r[0] == '-' && IsDigits(r[1..]) && DecimalValue(r[1..]) == -n
  {
    if n < 0 then "-" + NatToDecimal(-n) else NatToDecimal(n)
  }

  /** Different integers print differently. */
  lemma IntToDecimalInjective(a: int, b: int)
    ensures IntToDecimal(a) == IntToDecimal(b) ==> a == b
  {
  }

  /** `s.length`: JavaScript strings count UTF-16 code units, so a
      character beyond the Basic Multilingual Plane counts twice. */
  function JsLength(s: string): (n: nat)
    ensures |s| <= n <= 2 * |s|
    ensures n == 0 <==> s == ""
    ensures (forall i :: 0 <= i < |s| ==> s[i] as int <= 0xFFFF) ==> n == |s|
  {
    if s == [] then 0
    else (if s[0] as int > 0xFFFF then 2 else 1) + JsLength(s[1..])
  }
}
