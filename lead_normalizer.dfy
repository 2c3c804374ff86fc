/**
 * Comparison keys for deduplication (app/Helpers/LeadNormalizer.php).
 *
 *  - name:    transliterate to ASCII, lowercase, keep only [a-z0-9];
 *  - phone:   keep only the digits, null when that leaves "" or "0";
 *  - website: add `https://` unless the text starts with "http", lowercase, take
 *             the host, delete every "www." in it.
 *
 * `Str::ascii` and `parse_url` are library code; both are modelled by small
 * definitions of our own (Ascii, ParseHost) and the properties are stated about those.
 */
module LeadNormalizer {
  import opened Php
  import opened LeadModel

  // ---------------------------------------------------------------------------
  // Str::ascii

  predicate IsAscii(s: string) {
    forall i :: 0 <= i < |s| ==> s[i] as int < 128
  }

  /** Transliteration of one Latin-1 letter (U+00C0..U+00FF); other characters drop out. */
  function Latin1ToAscii(c: char): (r: string)
    ensures IsAscii(r)
  {
    var n := c as int;
    if 0xC0 <= n <= 0xC5 then "A"
    else if n == 0xC6 then "AE"
    else if n == 0xC7 then "C"
    else if 0xC8 <= n <= 0xCB then "E"
    else if 0xCC <= n <= 0xCF then "I"
    else if n == 0xD0 then "D"
    else if n == 0xD1 then "N"
    else if 0xD2 <= n <= 0xD6 || n == 0xD8 then "O"
    else if 0xD9 <= n <= 0xDC then "U"
    else if n == 0xDD then "Y"
    else if n == 0xDE then "TH"
    else if n == 0xDF then "ss"
    else if 0xE0 <= n <= 0xE5 then "a"
    else if n == 0xE6 then "ae"
    else if n == 0xE7 then "c"
    else if 0xE8 <= n <= 0xEB then "e"
    else if 0xEC <= n <= 0xEF then "i"
    else if n == 0xF0 then "d"
    else if n == 0xF1 then "n"
    else if 0xF2 <= n <= 0xF6 || n == 0xF8 then "o"
    else if 0xF9 <= n <= 0xFC then "u"
    else if n == 0xFD || n == 0xFF then "y"
    else if n == 0xFE then "th"
    else ""
  }

  function AsciiChar(c: char): (r: string)
    ensures IsAscii(r)
    ensures c as int < 128 ==> r == [c]
  {
    if c as int < 128 then [c] else Latin1ToAscii(c)
  }

  /** Model of `Str::ascii`: ASCII passes through, Latin-1 letters lose their accents. */
  function Ascii(s: string): (r: string)
    ensures IsAscii(r)
  {
    if s == [] then [] else AsciiChar(s[0]) + Ascii(s[1..])
  }

  lemma {:induction false} AsciiOnAscii(s: string)
    requires IsAscii(s)
    ensures Ascii(s) == s
  {
    if s != [] {
      AsciiOnAscii(s[1..]);
    }
  }

  lemma {:induction false} AsciiConcat(a: string, b: string)
    ensures Ascii(a + b) == Ascii(a) + Ascii(b)
  {
    if a == [] {
      assert a + b == b;
    } else {
      assert (a + b)[0] == a[0] && (a + b)[1..] == a[1..] + b;
      AsciiConcat(a[1..], b);
      var h := AsciiChar(a[0]);
      assert Ascii(a + b) == h + (Ascii(a[1..]) + Ascii(b));
      assert h + (Ascii(a[1..]) + Ascii(b)) == (h + Ascii(a[1..])) + Ascii(b);
    }
  }

  // ---------------------------------------------------------------------------
  // normalizeName

  /** The characters `preg_replace('/[^a-z0-9]/', '', ...)` keeps. */
  predicate IsKeyChar(c: char) {
    'a' <= c <= 'z' || '0' <= c <= '9'
  }

  predicate IsNameKey(s: string) {
    forall i :: 0 <= i < |s| ==> IsKeyChar(s[i])
  }

  function KeepKeyChars(s: string): (r: string)
    ensures IsNameKey(r)
    ensures |r| <= |s|
  {
    if s == [] then []
    else (if IsKeyChar(s[0]) then [s[0]] else []) + KeepKeyChars(s[1..])
  }

  lemma {:induction false} KeepKeyCharsOnKey(s: string)
    requires IsNameKey(s)
    ensures KeepKeyChars(s) == s
  {
    if s != [] {
      KeepKeyCharsOnKey(s[1..]);
    }
  }

  lemma {:induction false} KeepKeyCharsConcat(a: string, b: string)
    ensures KeepKeyChars(a + b) == KeepKeyChars(a) + KeepKeyChars(b)
  {
    if a == [] {
      assert a + b == b;
    } else {
      assert (a + b)[0] == a[0] && (a + b)[1..] == a[1..] + b;
      KeepKeyCharsConcat(a[1..], b);
      var h := (if IsKeyChar(a[0]) then [a[0]] else []);
      assert KeepKeyChars(a + b) == h + (KeepKeyChars(a[1..]) + KeepKeyChars(b));
      assert h + (KeepKeyChars(a[1..]) + KeepKeyChars(b)) == (h + KeepKeyChars(a[1..])) + KeepKeyChars(b);
    }
  }

  lemma StrToLowerOnKey(s: string)
    requires IsNameKey(s)
    ensures StrToLower(s) == s
  {
  }

  /** `normalizeName`: never fails; only [a-z0-9] survive; "" gives "". */
  function NormalizeName(name: string): (r: string)
    ensures IsNameKey(r)
    ensures name == "" ==> r == ""
  {
    KeepKeyChars(StrToLower(Ascii(name)))
  }

  /** Normalizing a name key returns it unchanged. */
  lemma NormalizeNameIdempotent(name: string)
    ensures NormalizeName(NormalizeName(name)) == NormalizeName(name)
  {
    var k := NormalizeName(name);
    assert IsAscii(k);
    AsciiOnAscii(k);
    StrToLowerOnKey(k);
    KeepKeyCharsOnKey(k);
  }

  lemma {:induction false} StrToLowerConcat(a: string, b: string)
    ensures StrToLower(a + b) == StrToLower(a) + StrToLower(b)
  {
    if a == [] {
      assert a + b == b;
    } else {
      assert (a + b)[0] == a[0] && (a + b)[1..] == a[1..] + b;
      StrToLowerConcat(a[1..], b);
      var h := [LowerChar(a[0])];
      assert StrToLower(a + b) == h + (StrToLower(a[1..]) + StrToLower(b));
      assert h + (StrToLower(a[1..]) + StrToLower(b)) == (h + StrToLower(a[1..])) + StrToLower(b);
    }
  }

  /** The key of a concatenation is the concatenation of the keys. */
  lemma NormalizeNameConcat(a: string, b: string)
    ensures NormalizeName(a + b) == NormalizeName(a) + NormalizeName(b)
  {
    AsciiConcat(a, b);
    StrToLowerConcat(Ascii(a), Ascii(b));
    KeepKeyCharsConcat(StrToLower(Ascii(a)), StrToLower(Ascii(b)));
  }

  lemma NormalizeNameAsciiChar(c: char)
    requires c as int < 128
    ensures NormalizeName([c]) == if IsKeyChar(LowerChar(c)) then [LowerChar(c)] else []
  {
    assert [c][1..] == [];
    assert Ascii([c]) == [c];
    assert StrToLower([c]) == [LowerChar(c)];
    assert [LowerChar(c)][1..] == [];
  }

  lemma AsciiAccentedChar(c: char)
    requires 0xE8 <= c as int <= 0xEB
    ensures Ascii([c]) == "e"
  {
    assert [c][1..] == [];
    assert Latin1ToAscii(c) == "e";
  }

  /** Case does not change the key: lowercasing the name first gives the same key. */
  lemma {:induction false} NormalizeNameIgnoresCase(s: string)
    ensures NormalizeName(StrToLower(s)) == NormalizeName(s)
  {
    if s != [] {
      var c := s[0];
      assert s == [c] + s[1..];
      StrToLowerConcat([c], s[1..]);
      assert StrToLower([c]) == [LowerChar(c)];
      NormalizeNameConcat([LowerChar(c)], StrToLower(s[1..]));
      NormalizeNameConcat([c], s[1..]);
      NormalizeNameIgnoresCase(s[1..]);
      if c as int < 128 {
        NormalizeNameAsciiChar(c);
        NormalizeNameAsciiChar(LowerChar(c));
      }
    }
  }

  /** An ASCII character other than a letter or a digit does not change the key. */
  lemma NormalizeNameIgnoresPunctuation(p: string, c: char, q: string)
    requires c as int < 128 && !IsKeyChar(LowerChar(c))
    ensures NormalizeName(p + [c] + q) == NormalizeName(p + q)
  {
    NormalizeNameConcat(p + [c], q);
    NormalizeNameConcat(p, [c]);
    NormalizeNameConcat(p, q);
    NormalizeNameAsciiChar(c);
  }

  /** An accented `e` (U+00E8..U+00EB) gives the key of a plain `e`. */
  lemma NormalizeNameIgnoresAccent(p: string, c: char, q: string)
    requires 0xE8 <= c as int <= 0xEB
    ensures NormalizeName(p + [c] + q) == NormalizeName(p + "e" + q)
  {
    NormalizeNameConcat(p + [c], q);
    NormalizeNameConcat(p, [c]);
    NormalizeNameConcat(p + "e", q);
    NormalizeNameConcat(p, "e");
    AsciiAccentedChar(c);
    NormalizeNameAsciiChar('e');
  }

  // ---------------------------------------------------------------------------
  // normalizePhone

  predicate IsDigit(c: char) {
    '0' <= c <= '9'
  }

  predicate AllDigits(s: string) {
    forall i :: 0 <= i < |s| ==> IsDigit(s[i])
  }

  /** `preg_replace('/\D/', '', ...)`: the digits of `s`, in order. */
  function Digits(s: string): (r: string)
    ensures AllDigits(r)
    ensures |r| <= |s|
  {
    if s == [] then []
    else (if IsDigit(s[0]) then [s[0]] else []) + Digits(s[1..])
  }

  lemma {:induction false} DigitsOnDigits(s: string)
    requires AllDigits(s)
    ensures Digits(s) == s
  {
    if s != [] {
      DigitsOnDigits(s[1..]);
    }
  }

  /** Digits of a string with no digit at all. */
  lemma {:induction false} DigitsOnNonDigits(s: string)
    requires forall i :: 0 <= i < |s| ==> !IsDigit(s[i])
    ensures Digits(s) == ""
  {
    if s != [] {
      DigitsOnNonDigits(s[1..]);
    }
  }

  lemma {:induction false} DigitsConcat(a: string, b: string)
    ensures Digits(a + b) == Digits(a) + Digits(b)
  {
    if a == [] {
      assert a + b == b;
    } else {
      assert (a + b)[0] == a[0] && (a + b)[1..] == a[1..] + b;
      DigitsConcat(a[1..], b);
      var h := (if IsDigit(a[0]) then [a[0]] else []);
      assert Digits(a + b) == h + (Digits(a[1..]) + Digits(b));
      assert h + (Digits(a[1..]) + Digits(b)) == (h + Digits(a[1..])) + Digits(b);
    }
  }

  /**
   * `normalizePhone`: null for an empty input ("" and "0" included) and whenever the
   * digits alone are empty PHP-wise ("" or "0"); otherwise exactly the digits, in order.
   */
  function NormalizePhone(phone: Option<string>): (r: Option<string>)
    ensures !Truthy(phone) ==> r.None?
    ensures Truthy(phone) ==> (r.Some? <==> TruthyStr(Digits(phone.value)))
    ensures r.Some? ==> r.value == Digits(phone.value) && AllDigits(r.value) && TruthyStr(r.value)
  {
    if !Truthy(phone) then None
    else
      var digits := Digits(phone.value);
      if TruthyStr(digits) then Some(digits) else None
  }

  /** Normalizing a phone key returns it unchanged. */
  lemma NormalizePhoneIdempotent(phone: Option<string>)
    requires NormalizePhone(phone).Some?
    ensures NormalizePhone(NormalizePhone(phone)) == NormalizePhone(phone)
  {
    DigitsOnDigits(NormalizePhone(phone).value);
  }

  lemma DigitsExample()
    ensures Digits("+49 30") == "4930"
  {
    assert "+49 30"[1..] == "49 30";
    assert "49 30"[1..] == "9 30";
    assert "9 30"[1..] == " 30";
    assert " 30"[1..] == "30";
    assert "30"[1..] == "0";
    assert "0"[1..] == "";
  }

  lemma DigitsZeroExample()
    ensures Digits("tel: 0") == "0"
  {
    assert "tel: 0"[1..] == "el: 0";
    assert "el: 0"[1..] == "l: 0";
    assert "l: 0"[1..] == ": 0";
    assert ": 0"[1..] == " 0";
    assert " 0"[1..] == "0";
    assert "0"[1..] == "";
  }

  /** Punctuation is dropped; a number whose digits are just "0" has no key. */
  lemma NormalizePhoneExample()
    ensures NormalizePhone(Some("+49 30")) == Some("4930")
    ensures NormalizePhone(Some("tel: 0")) == None
  {
    DigitsExample();
    DigitsZeroExample();
  }

  // ---------------------------------------------------------------------------
  // parse_url (host part only)

  predicate IsSchemeChar(c: char) {
    'a' <= c <= 'z' || 'A' <= c <= 'Z' || '0' <= c <= '9' || c == '+' || c == '-' || c == '.'
  }

  predicate IsScheme(s: string) {
    s != [] && forall i :: 0 <= i < |s| ==> IsSchemeChar(s[i])
  }

  /** "://" starts at position `i` of `s`. */
  predicate SeparatorAt(s: string, i: int) {
    0 <= i && i + 3 <= |s| && s[i] == ':' && s[i + 1] == '/' && s[i + 2] == '/'
  }

  /** Position of the first "://" at or after `from`, if any. */
  function FindSeparator(s: string, from: nat): (k: Option<nat>)
    decreases |s| - from
    ensures k.Some? ==> from <= k.value && SeparatorAt(s, k.value)
    ensures k.Some? ==> forall j :: from <= j < k.value ==> !SeparatorAt(s, j)
    ensures k.None? ==> forall j :: from <= j ==> !SeparatorAt(s, j)
  {
    if from + 3 > |s| then None
    else if SeparatorAt(s, from) then Some(from)
    else FindSeparator(s, from + 1)
  }

  /** None of the characters of `s` is in `cs`. */
  predicate Excludes(s: string, cs: set<char>) {
    forall i :: 0 <= i < |s| ==> s[i] !in cs
  }

  predicate NoUpper(s: string) {
    forall i :: 0 <= i < |s| ==> !IsUpperAscii(s[i])
  }

  /** The longest prefix of `s` with none of the `stops`. */
  function TakeUntil(s: string, stops: set<char>): (r: string)
    ensures |r| <= |s| && r == s[..|r|]
    ensures Excludes(r, stops)
    ensures |r| < |s| ==> s[|r|] in stops
  {
    if s == [] || s[0] in stops then [] else [s[0]] + TakeUntil(s[1..], stops)
  }

  lemma {:induction false} TakeUntilAll(s: string, stops: set<char>)
    requires Excludes(s, stops)
    ensures TakeUntil(s, stops) == s
  {
    if s != [] {
      TakeUntilAll(s[1..], stops);
    }
  }

  lemma {:induction false} TakeUntilStop(a: string, b: string, stops: set<char>)
    requires Excludes(a, stops) && b != [] && b[0] in stops
    ensures TakeUntil(a + b, stops) == a
  {
    if a != [] {
      assert (a + b)[0] == a[0] && (a + b)[1..] == a[1..] + b;
      TakeUntilStop(a[1..], b, stops);
    } else {
      assert (a + b)[0] == b[0];
    }
  }

  /** What follows the last '@' of `s` (all of `s` when there is none). */
  function AfterLastAt(s: string): (r: string)
    ensures |r| <= |s| && r == s[|s| - |r|..]
    ensures Excludes(r, {'@'})
  {
    if s == [] then []
    else if s[|s| - 1] == '@' then []
    else AfterLastAt(s[..|s| - 1]) + [s[|s| - 1]]
  }

  lemma {:induction false} AfterLastAtAll(s: string)
    requires Excludes(s, {'@'})
    ensures AfterLastAt(s) == s
  {
    if s != [] {
      AfterLastAtAll(s[..|s| - 1]);
    }
  }

  /** `[user@]host[:port]` of the text after "://", cut at the first '/', '?' or '#'. */
  function HostPart(rest: string): string {
    TakeUntil(AfterLastAt(TakeUntil(rest, {'/', '?', '#'})), {':'})
  }

  /**
   * Host of a URL `scheme://[user@]host[:port][/path][?query][#fragment]`;
   * null when there is no `scheme://` at the front or the host is "".
   */
  function ParseHost(url: string): (host: Option<string>)
    ensures host.Some? ==> host.value != ""
  {
    match FindSeparator(url, 0)
    case None => None
    case Some(k) =>
      if !IsScheme(url[..k]) then None
      else if HostPart(url[k + 3..]) == "" then None
      else Some(HostPart(url[k + 3..]))
  }

  /** A host as `normalizeWebsite` returns it: lowercase and free of URL delimiters. */
  predicate IsBareHost(h: string) {
    NoUpper(h) && Excludes(h, {'/', '?', '#'}) && Excludes(h, {'@'}) && Excludes(h, {':'})
  }

  lemma HostPartIsBare(rest: string)
    requires NoUpper(rest)
    ensures IsBareHost(HostPart(rest))
  {
    var a := TakeUntil(rest, {'/', '?', '#'});
    var t := AfterLastAt(a);
    var h := TakeUntil(t, {':'});
    assert NoUpper(a) && NoUpper(t);
    assert Excludes(t, {'/', '?', '#'}) by {
      forall i | 0 <= i < |t| ensures t[i] !in {'/', '?', '#'} {
        assert t[i] == a[|a| - |t| + i];
      }
    }
  }

  lemma {:induction false} HostPartOfHost(h: string)
    requires IsBareHost(h)
    ensures HostPart(h) == h
  {
    TakeUntilAll(h, {'/', '?', '#'});
    AfterLastAtAll(h);
    TakeUntilAll(h, {':'});
  }

  // ---------------------------------------------------------------------------
  // normalizeWebsite

  /** "www." starts at position `i` of `s`. */
  predicate WwwAt(s: string, i: int) {
    0 <= i && i + 4 <= |s| && s[i] == 'w' && s[i + 1] == 'w' && s[i + 2] == 'w' && s[i + 3] == '.'
  }

  /** `str_replace('www.', '', $host)`: every non-overlapping "www.", scanning left to right. */
  function RemoveWww(s: string): (r: string)
    ensures |r| <= |s|
  {
    if WwwAt(s, 0) then RemoveWww(s[4..])
    else if s == [] then []
    else [s[0]] + RemoveWww(s[1..])
  }

  lemma {:induction false} RemoveWwwWithout(s: string)
    requires forall i :: 0 <= i < |s| ==> !WwwAt(s, i)
    ensures RemoveWww(s) == s
  {
    if s != [] {
      assert !WwwAt(s, 0);
      assert forall i :: 0 <= i < |s[1..]| ==> !WwwAt(s[1..], i) by {
        forall i | 0 <= i < |s[1..]| ensures !WwwAt(s[1..], i) {
          assert !WwwAt(s, i + 1);
        }
      }
      RemoveWwwWithout(s[1..]);
    }
  }

  /** A host with no 'w' at all has no "www." to remove. */
  lemma {:induction false} RemoveWwwNoW(s: string)
    requires Excludes(s, {'w'})
    ensures RemoveWww(s) == s
  {
    if s != [] {
      assert s[0] != 'w';
      RemoveWwwNoW(s[1..]);
    }
  }

  lemma {:induction false} RemoveWwwKeepsBare(s: string)
    requires IsBareHost(s)
    ensures IsBareHost(RemoveWww(s))
  {
    if WwwAt(s, 0) {
      RemoveWwwKeepsBare(s[4..]);
    } else if s != [] {
      RemoveWwwKeepsBare(s[1..]);
    }
  }

  /** `normalizeWebsite`. May return Some("") (for a host that is only "www."). */
  function NormalizeWebsite(url: Option<string>): (r: Option<string>)
    ensures !Truthy(url) ==> r.None?
    ensures r.Some? ==> IsBareHost(r.value)
  {
    if !Truthy(url) then None
    else
      var withScheme := if StartsWith(url.value, "http") then url.value else "https://" + url.value;
      var lowered := StrToLower(withScheme);
      var host := ParseHost(lowered);
      if !Truthy(host) then None
      else
        var k := FindSeparator(lowered, 0).value;
        HostPartIsBare(lowered[k + 3..]);
        RemoveWwwKeepsBare(host.value);
        Some(RemoveWww(host.value))
  }

  /** In "https://" + h the first "://" is at position 5. */
  lemma SchemeSeparator(h: string)
    ensures FindSeparator("https://" + h, 0) == Some(5)
  {
    var u := "https://" + h;
    assert FindSeparator(u, 5) == Some(5);
    assert FindSeparator(u, 4) == Some(5);
    assert FindSeparator(u, 3) == Some(5);
    assert FindSeparator(u, 2) == Some(5);
    assert FindSeparator(u, 1) == Some(5);
  }

  /** The host `ParseHost` finds in "https://" + h, for a bare host h. */
  lemma ParseHostHttps(h: string)
    requires IsBareHost(h) && h != ""
    ensures ParseHost("https://" + h) == Some(h)
  {
    var u := "https://" + h;
    SchemeSeparator(h);
    assert u[..5] == "https";
    assert IsScheme(u[..5]);
    assert u[8..] == h;
    HostPartOfHost(h);
  }

  /** `normalizeWebsite` of a text with no scheme whose lowercase form is `h`, a bare host. */
  lemma NormalizeBareHost(url: string, h: string)
    requires TruthyStr(url) && !StartsWith(url, "http")
    requires StrToLower(url) == h && IsBareHost(h) && TruthyStr(h)
    ensures NormalizeWebsite(Some(url)) == Some(RemoveWww(h))
  {
    var u := "https://" + url;
    var l := StrToLower(u);
    assert l == "https://" + h by {
      assert |l| == |"https://" + h|;
      forall i | 0 <= i < |l| ensures l[i] == ("https://" + h)[i] {
        if i >= 8 {
          assert u[i] == url[i - 8];
        }
      }
    }
    ParseHostHttps(h);
  }

  /** A "www." at the front of the host is dropped. */
  lemma RemoveWwwFront(h: string)
    ensures RemoveWww("www." + h) == RemoveWww(h)
  {
    assert ("www." + h)[4..] == h;
  }

  /** "www." is dropped wherever it occurs, here after a part with no 'w'. */
  lemma {:induction false} RemoveWwwInside(a: string, b: string)
    requires Excludes(a, {'w'})
    ensures RemoveWww(a + "www." + b) == a + RemoveWww(b)
  {
    if a == [] {
      assert a + "www." + b == "www." + b;
      RemoveWwwFront(b);
    } else {
      assert (a + "www." + b)[1..] == a[1..] + "www." + b;
      RemoveWwwInside(a[1..], b);
      assert [a[0]] + (a[1..] + RemoveWww(b)) == a + RemoveWww(b);
    }
  }

  /** Text with no ':' at all contains no "://". */
  lemma {:induction false} NoColonNoSeparator(s: string, from: nat)
    requires Excludes(s, {':'})
    ensures FindSeparator(s, from) == None
    decreases |s| - from
  {
    if from + 3 <= |s| {
      assert s[from] != ':';
      NoColonNoSeparator(s, from + 1);
    }
  }

  /**
   * The "http" test is a plain prefix test: a text that happens to start with "http"
   * but has no "://" (a bare host such as "httpbin.org") gets no scheme, so
   * `parse_url` finds no host and the key is null.
   */
  lemma NormalizeWebsiteHttpPrefix(url: string)
    requires StartsWith(url, "http") && Excludes(url, {':'})
    ensures NormalizeWebsite(Some(url)) == None
  {
    var l := StrToLower(url);
    assert Excludes(l, {':'}) by {
      forall i | 0 <= i < |l| ensures l[i] !in {':'} {
        assert url[i] != ':';
      }
    }
    NoColonNoSeparator(l, 0);
  }

  /** Lowercasing text that has no uppercase letter changes nothing. */
  lemma StrToLowerNoUpper(s: string)
    requires NoUpper(s)
    ensures StrToLower(s) == s
  {
  }

  lemma HostPartWithPath(h: string, path: string)
    requires IsBareHost(h) && path != [] && path[0] in {'/', '?', '#'}
    ensures HostPart(h + path) == h
  {
    TakeUntilStop(h, path, {'/', '?', '#'});
    AfterLastAtAll(h);
    TakeUntilAll(h, {':'});
  }

  /** A lowercase URL that starts with "http" is parsed as it stands. */
  lemma NormalizeWithScheme(u: string, h: string)
    requires StartsWith(u, "http") && NoUpper(u) && ParseHost(u) == Some(h) && TruthyStr(h)
    ensures NormalizeWebsite(Some(u)) == Some(RemoveWww(h))
  {
    StrToLowerNoUpper(u);
  }

  lemma ParseHostWithPath(h: string, path: string)
    requires IsBareHost(h) && TruthyStr(h) && path != [] && path[0] in {'/', '?', '#'}
    ensures ParseHost("https://" + h + path) == Some(h)
  {
    var u := "https://" + h + path;
    assert u == "https://" + (h + path);
    SchemeSeparator(h + path);
    assert u[..5] == "https";
    assert IsScheme(u[..5]);
    assert u[8..] == h + path;
    HostPartWithPath(h, path);
  }

  /** With a scheme given, the path, query and fragment do not change the key. */
  lemma NormalizeWebsiteDropsPath(h: string, path: string)
    requires IsBareHost(h) && TruthyStr(h) && NoUpper(path)
    requires path != [] && path[0] in {'/', '?', '#'}
    ensures NormalizeWebsite(Some("https://" + h + path)) == Some(RemoveWww(h))
  {
    var u := "https://" + h + path;
    assert u[..4] == "http";
    assert NoUpper(u) by {
      forall i | 0 <= i < |u| ensures !IsUpperAscii(u[i]) {
        if i >= 8 + |h| {
          assert u[i] == path[i - 8 - |h|];
        } else if i >= 8 {
          assert u[i] == h[i - 8];
        }
      }
    }
    ParseHostWithPath(h, path);
    NormalizeWithScheme(u, h);
  }

  /**
   * `str_replace` deletes "www." anywhere in the host, not only at its front:
   * "thewww.com" gives "thecom".
   */
  lemma NormalizeWebsiteInside(a: string, b: string)
    requires IsBareHost(a + "www." + b) && TruthyStr(a) && !StartsWith(a, "http")
    requires Excludes(a, {'w'}) && Excludes(b, {'w'})
    ensures NormalizeWebsite(Some(a + "www." + b)) == Some(a + b)
  {
    var url := a + "www." + b;
    assert !StartsWith(url, "http") by {
      if |a| >= 4 {
        assert url[..4] == a[..4];
      } else {
        assert url[..4][|a|] == 'w';
      }
    }
    assert TruthyStr(url);
    assert StrToLower(url) == url;
    NormalizeBareHost(url, url);
    RemoveWwwInside(a, b);
    RemoveWwwNoW(b);
  }

  lemma RemoveWwwLeavesPrefix()
    ensures RemoveWww("wwwww.w.") == "www."
  {
    assert "wwwww.w."[1..] == "wwww.w." && "wwww.w."[1..] == "www.w.";
    assert "www.w."[4..] == "w.";
    assert "w."[1..] == "." && "."[1..] == "";
  }

  lemma NormalizeWebsiteOnlyWww(url: string)
    requires url == "www."
    ensures NormalizeWebsite(Some(url)) == Some("")
  {
    assert StrToLower(url) == url;
    NormalizeBareHost(url, url);
    assert url[4..] == "";
  }

  /**
   * What `str_replace` leaves can start with "www." again, so the website key is not
   * idempotent: "wwwww.w." gives "www.", and normalizing that gives "".
   */
  lemma NormalizeWebsiteNotIdempotent(url: string)
    requires url == "wwwww.w."
    ensures NormalizeWebsite(Some(url)) == Some("www.")
    ensures NormalizeWebsite(NormalizeWebsite(Some(url))) == Some("")
  {
    assert StrToLower(url) == url;
    NormalizeBareHost(url, url);
    RemoveWwwLeavesPrefix();
    NormalizeWebsiteOnlyWww("www.");
  }

  /**
   * On a key that has no "www." left, is not falsy and does not start with "http",
   * normalizing again returns the key unchanged.
   */
  lemma NormalizeWebsiteFixpoint(h: string)
    requires IsBareHost(h) && TruthyStr(h)
    requires !StartsWith(h, "http") && forall i :: 0 <= i < |h| ==> !WwwAt(h, i)
    ensures NormalizeWebsite(Some(h)) == Some(h)
  {
    assert StrToLower(h) == h;
    NormalizeBareHost(h, h);
    RemoveWwwWithout(h);
  }

  // ---------------------------------------------------------------------------
  // normalizeForStorage

  /** The array `normalizeForStorage` returns: the input plus three added keys. */
  datatype StorageRecord = StorageRecord(
    fields: Observation,
    name_normalized: string,
    phone_normalized: Option<string>,
    website_normalized: Option<string>
  )

  /**
   * `normalizeForStorage`: every input entry unchanged, plus the three keys; the website
   * key is read from `website`, falling back (on null only) to `website_url`.
   */
  function NormalizeForStorage(lead: Observation): (r: StorageRecord)
    ensures r.fields == lead
    ensures IsNameKey(r.name_normalized)
    ensures r.phone_normalized.Some? ==> AllDigits(r.phone_normalized.value)
    ensures r.website_normalized.Some? ==> IsBareHost(r.website_normalized.value)
  {
    StorageRecord(
      lead,
      NormalizeName(lead.name),
      NormalizePhone(lead.phone),
      NormalizeWebsite(Coalesce(lead.website, lead.website_url)))
  }

  /**
   * The fallback is `??`, not `empty()`: a null `website` defers to `website_url`, but an
   * empty-string `website` does not, and then the key is null.
   */
  lemma StorageWebsiteFallback(lead: Observation)
    ensures lead.website.None? ==>
      NormalizeForStorage(lead).website_normalized == NormalizeWebsite(lead.website_url)
    ensures lead.website == Some("") ==> NormalizeForStorage(lead).website_normalized.None?
    ensures lead.website.Some? ==>
      NormalizeForStorage(lead).website_normalized == NormalizeWebsite(lead.website)
  {
  }
}
