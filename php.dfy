/**
 * The few pieces of PHP value semantics the lead pipeline depends on:
 * nullable values, the two different notions of "missing" (`empty()` versus `??`),
 * byte length of a UTF-8 string, ASCII-only lowercasing and substring tests.
 */
module Php {

  /** A PHP value that may be `null`. */
  datatype Option<+T> = None | Some(value: T) {
    function GetOr(default: T): T {
      if Some? then value else default
    }
  }

  /** A string PHP considers non-empty: `empty($s)` is false for anything but "" and "0". */
  predicate TruthyStr(s: string) {
    s != "" && s != "0"
  }

  /** `! empty($x)` for a nullable string: null, "" and "0" are all empty. */
  predicate Truthy(s: Option<string>) {
    s.Some? && TruthyStr(s.value)
  }

  /** `! empty($x)` for a nullable JSON number: null and 0 are empty. */
  predicate TruthyReal(x: Option<real>) {
    x.Some? && x.value != 0.0
  }

  /** `$a ?? $b`: unlike `empty()`, only null falls through; "" and "0" are kept. */
  function Coalesce<T>(a: Option<T>, b: Option<T>): Option<T> {
    if a.Some? then a else b
  }

  /** `$tags[$key] ?? null` on a string-to-string array. */
  function Get(m: map<string, string>, key: string): Option<string> {
    if key in m then Some(m[key]) else None
  }

  /** Number of bytes of the UTF-8 encoding of one character. */
  function CharByteLen(c: char): nat {
    if c as int < 0x80 then 1
    else if c as int < 0x800 then 2
    else if c as int < 0x10000 then 3
    else 4
  }

  /** `strlen`: the byte length of the UTF-8 encoding of a string. */
  function StrLen(s: string): (n: nat)
    ensures |s| <= n <= 4 * |s|
    ensures n == 0 <==> s == ""
  {
    if s == [] then 0 else StrLen(s[..|s| - 1]) + CharByteLen(s[|s| - 1])
  }

  predicate IsUpperAscii(c: char) {
    'A' <= c <= 'Z'
  }

  /** ASCII-only lowercasing of one character, as PHP 8 `strtolower` does. */
  function LowerChar(c: char): (r: char)
    ensures !IsUpperAscii(r)
    ensures c as int < 128 <==> r as int < 128
    ensures !IsUpperAscii(c) ==> r == c
  {
    if IsUpperAscii(c) then (c as int + 32) as char else c
  }

  /** `strtolower`: lowercases A-Z and leaves every other character alone. */
  function StrToLower(s: string): (r: string)
    ensures |r| == |s|
    ensures forall i :: 0 <= i < |s| ==> r[i] == LowerChar(s[i])
  {
    if s == [] then [] else [LowerChar(s[0])] + StrToLower(s[1..])
  }

  /** `str_starts_with`. */
  predicate StartsWith(s: string, prefix: string) {
    |prefix| <= |s| && s[..|prefix|] == prefix
  }

  /** `needle` occurs in `s` starting at position `i`. */
  predicate OccursAt(s: string, needle: string, i: int) {
    0 <= i <= |s| - |needle| && s[i..i + |needle|] == needle
  }

  /** `str_contains`: `needle` occurs in `s` at some position. */
  predicate Contains(s: string, needle: string) {
    exists i | 0 <= i <= |s| - |needle| :: OccursAt(s, needle, i)
  }

  function DigitChar(d: nat): (c: char)
    requires d < 10
    ensures '0' <= c <= '9'
  {
    ('0' as int + d) as char
  }

  /** Decimal text of a natural number. */
  function NatToString(n: nat): (s: string)
    ensures |s| > 0
    ensures forall i :: 0 <= i < |s| ==> '0' <= s[i] <= '9'
  {
    if n < 10 then [DigitChar(n)] else NatToString(n / 10) + [DigitChar(n % 10)]
  }

  /** String interpolation of a nullable integer: null interpolates as "". */
  function IntToString(n: Option<int>): string {
    match n
    case None => ""
    case Some(k) => if k < 0 then "-" + NatToString(-k) else NatToString(k)
  }
}
