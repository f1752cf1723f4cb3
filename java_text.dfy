/** The parts of java.lang.String, java.lang.Character and commons-lang's
    StringUtils that the expiration policy relies on: upper-casing in the
    English locale, Java's notion of a whitespace character, and isBlank. */
module JavaText {
  import opened Wrappers

  /** A Java String reference: `None` is null. */
  type JString = Option<string>

  /** The character upper-case in the English locale, as the one or more
      characters Java's String.toUpperCase(Locale.ENGLISH) puts in its place.
      Covered exactly: ASCII, Latin-1, and every other character whose Java
      upper case consists of ASCII letters only (dotless i, long s and the
      Latin ligatures U+FB00 to U+FB06). Other characters are kept as they are. */
  function UpperCaseOf(c: char): (u: string)
    ensures 1 <= |u| <= 3
    ensures 'A' <= c <= 'Z' || c == '_' ==> u == [c]
  {
    if 'a' <= c <= 'z' then [(c as int - 32) as char]
    else if c == '\U{00B5}' then ['\U{039C}']
    else if c == '\U{00DF}' then "SS"
    else if '\U{00E0}' <= c <= '\U{00FE}' && c != '\U{00F7}' then [(c as int - 32) as char]
    else if c == '\U{00FF}' then ['\U{0178}']
    else if c == '\U{0131}' then "I"
    else if c == '\U{017F}' then "S"
    else if c == '\U{FB00}' then "FF"
    else if c == '\U{FB01}' then "FI"
    else if c == '\U{FB02}' then "FL"
    else if c == '\U{FB03}' then "FFI"
    else if c == '\U{FB04}' then "FFL"
    else if c == '\U{FB05}' || c == '\U{FB06}' then "ST"
    else [c]
  }

  /** String.toUpperCase(Locale.ENGLISH): every character replaced by its
      upper case, left to right. The result is never shorter than the input. */
  function ToUpperCase(s: string): (r: string)
    ensures |s| <= |r| <= 3 * |s|
  {
    if s == [] then [] else UpperCaseOf(s[0]) + ToUpperCase(s[1..])
  }

  /** Folds ASCII a-z onto A-Z and leaves every other character alone. */
  function AsciiFold(c: char): char {
    if 'a' <= c <= 'z' then (c as int - 32) as char else c
  }

  /** s and t differ at most in the letter case of ASCII letters
      ("partition", "Partition" and "PARTITION" are all variants of each other). */
  predicate AsciiCaseVariant(s: string, t: string) {
    |s| == |t| && forall i :: 0 <= i < |s| ==> AsciiFold(s[i]) == AsciiFold(t[i])
  }

  /** Every character of s is ASCII. */
  predicate IsAscii(s: string) {
    forall i :: 0 <= i < |s| ==> s[i] < '\U{0080}'
  }

  /** ASCII upper-casing: a-z replaced by A-Z, position by position. */
  function AsciiUpperCase(s: string): string {
    seq(|s|, i requires 0 <= i < |s| => AsciiFold(s[i]))
  }

  /** On ASCII text the English upper case keeps the length and maps each
      letter on its own. */
  lemma {:induction false} ToUpperCaseOfAscii(s: string)
    requires IsAscii(s)
    ensures ToUpperCase(s) == AsciiUpperCase(s)
  {
    if s != [] {
      assert IsAscii(s[1..]) by {
        forall i | 0 <= i < |s[1..]| ensures s[1..][i] < '\U{0080}' {
          assert s[1..][i] == s[i + 1];
        }
      }
      ToUpperCaseOfAscii(s[1..]);
      assert s[0] < '\U{0080}';
    }
  }

  /** The upper case of an ASCII string, from its position-by-position
      upper case. */
  lemma ToUpperCaseOfAsciiIs(s: string, u: string)
    requires IsAscii(s) && AsciiUpperCase(s) == u
    ensures ToUpperCase(s) == u
  {
    ToUpperCaseOfAscii(s);
  }

  lemma {:induction false} ToUpperCaseAppend(a: string, b: string)
    ensures ToUpperCase(a + b) == ToUpperCase(a) + ToUpperCase(b)
  {
    if a == [] {
      assert a + b == b;
    } else {
      assert (a + b)[0] == a[0];
      assert (a + b)[1..] == a[1..] + b;
      ToUpperCaseAppend(a[1..], b);
      calc {
        ToUpperCase(a + b);
        UpperCaseOf(a[0]) + ToUpperCase(a[1..] + b);
        UpperCaseOf(a[0]) + (ToUpperCase(a[1..]) + ToUpperCase(b));
        (UpperCaseOf(a[0]) + ToUpperCase(a[1..])) + ToUpperCase(b);
      }
    }
  }

  /** Every character that upper-casing produces is its own upper case. */
  lemma UpperCaseOfIsFixed(c: char)
    ensures ToUpperCase(UpperCaseOf(c)) == UpperCaseOf(c)
  {
    var u := UpperCaseOf(c);
    assert ToUpperCase(u[1..]) == u[1..] by {
      if |u| > 1 {
        assert ToUpperCase(u[2..]) == u[2..] by {
          if |u| > 2 {
            assert u[2..][1..] == [];
          }
        }
      }
    }
  }

  /** Upper-casing is idempotent. */
  lemma {:induction false} ToUpperCaseIdempotent(s: string)
    ensures ToUpperCase(ToUpperCase(s)) == ToUpperCase(s)
  {
    if s != [] {
      ToUpperCaseAppend(UpperCaseOf(s[0]), ToUpperCase(s[1..]));
      UpperCaseOfIsFixed(s[0]);
      ToUpperCaseIdempotent(s[1..]);
    }
  }

  lemma AsciiFoldSameUpperCase(c: char, d: char)
    requires AsciiFold(c) == AsciiFold(d)
    ensures UpperCaseOf(c) == UpperCaseOf(d)
  {
  }

  /** Strings that differ only in the case of ASCII letters have the same
      upper case. */
  lemma {:induction false} AsciiCaseVariantSameUpperCase(s: string, t: string)
    requires AsciiCaseVariant(s, t)
    ensures ToUpperCase(s) == ToUpperCase(t)
  {
    if s != [] {
      assert AsciiFold(s[0]) == AsciiFold(t[0]);
      AsciiFoldSameUpperCase(s[0], t[0]);
      assert AsciiCaseVariant(s[1..], t[1..]) by {
        forall i | 0 <= i < |s[1..]| ensures AsciiFold(s[1..][i]) == AsciiFold(t[1..][i]) {
          assert s[1..][i] == s[i + 1] && t[1..][i] == t[i + 1];
        }
      }
      AsciiCaseVariantSameUpperCase(s[1..], t[1..]);
    }
  }

  /** Character.isWhitespace(char): a space, line or paragraph separator of
      Unicode other than the no-break spaces U+00A0, U+2007 and U+202F, or
      one of the controls tab, line feed, vertical tab, form feed, carriage
      return and U+001C to U+001F. */
  function IsWhitespace(c: char): (b: bool)
    ensures c == ' ' || c == '\t' || c == '\n' || c == '\r' ==> b
    ensures b ==> c != '\U{00A0}' && c != '\U{2007}' && c != '\U{202F}'
  {
    '\U{0009}' <= c <= '\U{000D}' || '\U{001C}' <= c <= '\U{0020}'
    || c == '\U{1680}'
    || '\U{2000}' <= c <= '\U{2006}' || '\U{2008}' <= c <= '\U{200A}'
    || c == '\U{2028}' || c == '\U{2029}' || c == '\U{205F}' || c == '\U{3000}'
  }

  /** True when every character of s is whitespace (the scan in isBlank). */
  function AllWhitespace(s: string): (b: bool)
    ensures b <==> forall i :: 0 <= i < |s| ==> IsWhitespace(s[i])
  {
    if s == [] then true else IsWhitespace(s[0]) && AllWhitespace(s[1..])
  }

  /** StringUtils.isBlank: null, empty, or whitespace only. */
  function IsBlank(s: JString): (b: bool)
    ensures b <==> s.None? || forall i :: 0 <= i < |s.value| ==> IsWhitespace(s.value[i])
    ensures s == Some("") ==> b
  {
    match s
    case None => true
    case Some(t) => |t| == 0 || AllWhitespace(t)
  }

  /** What String.format's "%s" puts in place of a String argument. */
  function FormatArg(s: JString): string {
    match s
    case None => "null"
    case Some(t) => t
  }
}
