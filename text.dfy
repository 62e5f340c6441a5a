/**
 * The string operations the backend borrows from Python and the standard library:
 * `str.strip()`, `str.lower()`, `str.startswith`, the `in` substring test and
 * `urllib.parse.quote`.
 */
module Text {

  /** The characters Python's `str.isspace()` accepts, which are the ones `str.strip()` removes. */
  predicate IsSpace(c: char)
  {
    c == ' ' || ('\t' <= c <= '\r') || ('\U{1C}' <= c <= '\U{1F}')
    || c == '\U{85}' || c == '\U{A0}' || c == '\U{1680}'
    || ('\U{2000}' <= c <= '\U{200A}') || c == '\U{2028}' || c == '\U{2029}'
    || c == '\U{202F}' || c == '\U{205F}' || c == '\U{3000}'
  }

  /** A string made only of whitespace (the empty string included). */
  predicate IsBlank(s: string)
  {
    forall k :: 0 <= k < |s| ==> IsSpace(s[k])
  }

  /** `s.strip()`: `s` without its leading and trailing whitespace. */
  function Strip(s: string): (r: string)
    ensures |r| <= |s|
    ensures r == "" <==> IsBlank(s)
    ensures r == "" || (!IsSpace(r[0]) && !IsSpace(r[|r| - 1]))
  {
    if s != [] && IsSpace(s[0]) then
      BlankTail(s);
      Strip(s[1..])
    else if s != [] && IsSpace(s[|s| - 1]) then
      BlankInit(s);
      Strip(s[..|s| - 1])
    else
      s
  }

  /** A string that starts with whitespace is blank exactly when the rest of it is. */
  lemma BlankTail(s: string)
    requires s != [] && IsSpace(s[0])
    ensures IsBlank(s) <==> IsBlank(s[1..])
  {
    if IsBlank(s[1..]) {
      forall k | 0 < k < |s| ensures IsSpace(s[k]) {
        assert s[k] == s[1..][k - 1];
      }
    }
  }

  /** A string that ends with whitespace is blank exactly when the rest of it is. */
  lemma BlankInit(s: string)
    requires s != [] && IsSpace(s[|s| - 1])
    ensures IsBlank(s) <==> IsBlank(s[..|s| - 1])
  {
    if IsBlank(s[..|s| - 1]) {
      forall k | 0 <= k < |s| - 1 ensures IsSpace(s[k]) {
        assert s[k] == s[..|s| - 1][k];
      }
    }
  }

  /** How many leading characters `strip` removes. */
  function StripOffset(s: string): nat
  {
    if s != [] && IsSpace(s[0]) then StripOffset(s[1..]) + 1
    else if s != [] && IsSpace(s[|s| - 1]) then StripOffset(s[..|s| - 1])
    else 0
  }

  /** What `strip` returns is the piece of its argument that starts after the leading whitespace. */
  lemma {:induction false} StripIsInfix(s: string)
    ensures InfixAt(s, Strip(s), StripOffset(s))
  {
    if s != [] && IsSpace(s[0]) {
      StripIsInfix(s[1..]);
      InfixOfTail(s, Strip(s[1..]), StripOffset(s[1..]));
    } else if s != [] && IsSpace(s[|s| - 1]) {
      StripIsInfix(s[..|s| - 1]);
      InfixOfInit(s, Strip(s[..|s| - 1]), StripOffset(s[..|s| - 1]));
    }
  }

  /** A piece of `s[1..]` at `i` is a piece of `s` at `i + 1`. */
  lemma InfixOfTail(s: string, sub: string, i: int)
    requires s != [] && InfixAt(s[1..], sub, i)
    ensures InfixAt(s, sub, i + 1)
  {
    assert s[i + 1..i + 1 + |sub|] == s[1..][i..i + |sub|];
  }

  /** A piece of `s` without its last character is a piece of `s` at the same place. */
  lemma InfixOfInit(s: string, sub: string, i: int)
    requires s != [] && InfixAt(s[..|s| - 1], sub, i)
    ensures InfixAt(s, sub, i)
  {
    assert s[i..i + |sub|] == s[..|s| - 1][i..i + |sub|];
  }

  /** Stripping twice is stripping once, so the name the existence check sees is the name that was stripped. */
  lemma StripIdempotent(s: string)
    ensures Strip(Strip(s)) == Strip(s)
  {
    var r := Strip(s);
    if r != "" {
      assert !IsSpace(r[0]) && !IsSpace(r[|r| - 1]);
    }
  }

  /** `str.lower()` on the ASCII letters; every other character is left as it is. */
  function LowerChar(c: char): (r: char)
    ensures 'A' <= c <= 'Z' ==> 'a' <= r <= 'z'
    ensures !('A' <= c <= 'Z') ==> r == c
  {
    if 'A' <= c <= 'Z' then (c as int + 32) as char else c
  }

  function Lower(s: string): (r: string)
    ensures |r| == |s|
    ensures forall k :: 0 <= k < |s| ==> r[k] == LowerChar(s[k])
  {
    seq(|s|, k requires 0 <= k < |s| => LowerChar(s[k]))
  }

  /** `s.startswith(prefix)`, compared one character at a time. */
  predicate StartsWith(s: string, prefix: string)
  {
    prefix == [] || (s != [] && s[0] == prefix[0] && StartsWith(s[1..], prefix[1..]))
  }

  /** `StartsWith` holds exactly when `prefix` is the first `|prefix|` characters of `s`. */
  lemma {:induction false} StartsWithIsPrefix(s: string, prefix: string)
    ensures StartsWith(s, prefix) <==> |prefix| <= |s| && s[..|prefix|] == prefix
  {
    if prefix != [] && s != [] {
      StartsWithIsPrefix(s[1..], prefix[1..]);
      if |prefix| <= |s| {
        assert s[..|prefix|] == [s[0]] + s[1..][..|prefix| - 1];
        assert prefix == [prefix[0]] + prefix[1..];
      }
    }
  }

  /** `sub` occurs in `s` starting at position `i`. */
  predicate InfixAt(s: string, sub: string, i: int)
  {
    0 <= i <= |s| - |sub| && s[i..i + |sub|] == sub
  }

  /** Python's `sub in s`. */
  predicate Contains(s: string, sub: string)
  {
    exists i | 0 <= i <= |s| - |sub| :: InfixAt(s, sub, i)
  }

  /** Characters `urllib.parse.quote(s)` passes through: letters, digits, `_.-~` and the default safe `/`. */
  predicate IsUrlSafe(c: char)
  {
    ('A' <= c <= 'Z') || ('a' <= c <= 'z') || ('0' <= c <= '9')
    || c == '_' || c == '.' || c == '-' || c == '~' || c == '/'
  }

  predicate IsUpperHexDigit(c: char)
  {
    ('0' <= c <= '9') || ('A' <= c <= 'F')
  }

  const HexDigits: string := "0123456789ABCDEF"

  /** The UTF-8 encoding of one code point (Dafny characters are Unicode scalar values). */
  function Utf8(c: char): (bytes: seq<int>)
    ensures 1 <= |bytes| <= 4
    ensures forall k :: 0 <= k < |bytes| ==> 0 <= bytes[k] < 256
    ensures (c as int < 0x80) <==> bytes == [c as int]
  {
    var cp := c as int;
    if cp < 0x80 then [cp]
    else if cp < 0x800 then [0xC0 + cp / 0x40, 0x80 + cp % 0x40]
    else if cp < 0x1_0000 then [0xE0 + cp / 0x1000, 0x80 + (cp / 0x40) % 0x40, 0x80 + cp % 0x40]
    else [0xF0 + cp / 0x4_0000, 0x80 + (cp / 0x1000) % 0x40, 0x80 + (cp / 0x40) % 0x40, 0x80 + cp % 0x40]
  }

  /** `%XX` with upper-case hexadecimal digits for each byte. */
  function PercentEncode(bytes: seq<int>): (r: string)
    requires forall k :: 0 <= k < |bytes| ==> 0 <= bytes[k] < 256
    ensures |r| == 3 * |bytes|
    ensures forall k :: 0 <= k < |r| ==> r[k] == '%' || IsUpperHexDigit(r[k])
  {
    if bytes == [] then ""
    else
      var b := bytes[0];
      ['%', HexDigits[b / 16], HexDigits[b % 16]] + PercentEncode(bytes[1..])
  }

  function QuoteChar(c: char): (r: string)
    ensures IsUrlSafe(c) ==> r == [c]
    ensures !IsUrlSafe(c) ==> |r| >= 3 && r[0] == '%'
    ensures forall k :: 0 <= k < |r| ==> IsUrlSafe(r[k]) || r[k] == '%' || IsUpperHexDigit(r[k])
  {
    if IsUrlSafe(c) then [c] else PercentEncode(Utf8(c))
  }

  /** `urllib.parse.quote(s)` with its default `safe='/'` and UTF-8 encoding. */
  function Quote(s: string): (r: string)
  {
    if s == "" then "" else QuoteChar(s[0]) + Quote(s[1..])
  }

  /** Every character of a quoted string is URL-safe, a `%`, or an upper-case hex digit. */
  lemma {:induction false} QuoteIsUrlSafe(s: string)
    ensures forall k :: 0 <= k < |Quote(s)| ==> IsUrlSafe(Quote(s)[k]) || Quote(s)[k] == '%' || IsUpperHexDigit(Quote(s)[k])
  {
    if s != "" {
      QuoteIsUrlSafe(s[1..]);
      var head, tail := QuoteChar(s[0]), Quote(s[1..]);
      assert Quote(s) == head + tail;
      forall k | 0 <= k < |Quote(s)|
        ensures IsUrlSafe(Quote(s)[k]) || Quote(s)[k] == '%' || IsUpperHexDigit(Quote(s)[k])
      {
        if k < |head| {
          assert Quote(s)[k] == head[k];
        } else {
          assert Quote(s)[k] == tail[k - |head|];
        }
      }
    }
  }

  /** A name made only of URL-safe characters comes back from quoting unchanged. */
  lemma {:induction false} QuoteOfSafeIsIdentity(s: string)
    requires forall k :: 0 <= k < |s| ==> IsUrlSafe(s[k])
    ensures Quote(s) == s
  {
    if s != "" {
      QuoteOfSafeIsIdentity(s[1..]);
      assert s == [s[0]] + s[1..];
    }
  }

  /** Quoting never shortens a string; it lengthens it exactly when some character needs escaping. */
  lemma {:induction false} QuoteLength(s: string)
    ensures |Quote(s)| >= |s|
    ensures |Quote(s)| == |s| <==> forall k :: 0 <= k < |s| ==> IsUrlSafe(s[k])
  {
    if s != "" {
      QuoteLength(s[1..]);
      if !IsUrlSafe(s[0]) {
        assert |QuoteChar(s[0])| >= 3;
      }
      if forall k :: 0 <= k < |s| ==> IsUrlSafe(s[k]) {
        assert forall k :: 0 <= k < |s[1..]| ==> IsUrlSafe(s[1..][k]) by {
          forall k | 0 <= k < |s[1..]| ensures IsUrlSafe(s[1..][k]) { assert s[1..][k] == s[k + 1]; }
        }
      } else {
        var k :| 0 <= k < |s| && !IsUrlSafe(s[k]);
        if k > 0 {
          assert s[1..][k - 1] == s[k];
        }
      }
    }
  }
}
