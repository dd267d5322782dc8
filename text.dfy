/** Character and string helpers shared by the model: ASCII case folding,
    substring search, decimal rendering and parsing, trimming, and the
    Unicode White_Space class the classifier's regular expression uses. */
module Text {
  import opened Wrappers

  /** ASCII lower-casing of one character; every other character is kept. */
  function AsciiLower(c: char): char {
    if 'A' <= c <= 'Z' then (c as int + 32) as char else c
  }

  /** Lower-case a string character by character (ASCII letters only):
      each upper-case ASCII letter becomes its lower-case letter, every other
      character is kept, and no upper-case ASCII letter remains. */
  function Lower(s: string): (r: string)
    ensures |r| == |s|
    ensures forall i | 0 <= i < |s| && 'A' <= s[i] <= 'Z' :: r[i] as int == s[i] as int + 32
    ensures forall i | 0 <= i < |s| && !('A' <= s[i] <= 'Z') :: r[i] == s[i]
    ensures forall i | 0 <= i < |r| :: !('A' <= r[i] <= 'Z')
  {
    seq(|s|, i requires 0 <= i < |s| => AsciiLower(s[i]))
  }

  lemma LowerAppend(a: string, b: string)
    ensures Lower(a + b) == Lower(a) + Lower(b)
  {
  }

  lemma AppendAssoc<T>(a: seq<T>, b: seq<T>, c: seq<T>)
    ensures a + (b + c) == (a + b) + c
  {
  }

  /** Lower-casing twice is lower-casing once. */
  lemma LowerIdempotent(s: string)
    ensures Lower(Lower(s)) == Lower(s)
  {
  }

  /** `str::eq_ignore_ascii_case`: equal once ASCII letters are folded. */
  predicate EqIgnoreAsciiCase(a: string, b: string) {
    Lower(a) == Lower(b)
  }

  /** `str::starts_with`. */
  predicate StartsWith(s: string, prefix: string) {
    prefix <= s
  }

  /** `w` occurs in `s` at position `i`. */
  predicate OccursAt(s: string, w: string, i: int) {
    0 <= i && i + |w| <= |s| && s[i..i + |w|] == w
  }

  /** `str::contains`. */
  predicate Contains(s: string, w: string) {
    exists i | 0 <= i <= |s| - |w| :: OccursAt(s, w, i)
  }

  /** Every character inside an occurrence of `w` is a character of `w`. */
  lemma CharOfOccurrence(s: string, w: string, i: int, k: int)
    requires OccursAt(s, w, i) && i <= k < i + |w|
    ensures s[k] in w
  {
    assert s[k] == s[i..i + |w|][k - i];
  }

  /** A keyword with no space in it occurs in `a + " " + b` exactly when it
      occurs in `a` or in `b`: a window that straddles the joint would have
      to contain the space. */
  lemma ContainsAcrossSpace(a: string, b: string, w: string)
    requires ' ' !in w
    ensures Contains(a + " " + b, w) <==> Contains(a, w) || Contains(b, w)
  {
    var t := a + " " + b;
    if Contains(t, w) {
      var i :| 0 <= i <= |t| - |w| && OccursAt(t, w, i);
      forall k | i <= k < i + |w|
        ensures t[k] in w
      {
        CharOfOccurrence(t, w, i, k);
      }
      // the window cannot cover the joining space
      assert t[|a|] == ' ';
      assert !(i <= |a| < i + |w|);
      if i + |w| <= |a| {
        assert t[i..i + |w|] == a[i..i + |w|];
        assert OccursAt(a, w, i);
      } else {
        var j := i - |a| - 1;
        assert t[|a| + 1..] == b;
        assert t[i..i + |w|] == t[|a| + 1..][j..j + |w|];
        assert OccursAt(b, w, j);
      }
    }
    if Contains(a, w) {
      var i :| 0 <= i <= |a| - |w| && OccursAt(a, w, i);
      assert t[..|a|] == a;
      assert t[i..i + |w|] == t[..|a|][i..i + |w|];
      assert OccursAt(t, w, i);
    }
    if Contains(b, w) {
      var i :| 0 <= i <= |b| - |w| && OccursAt(b, w, i);
      assert t[|a| + 1..] == b;
      assert t[|a| + 1 + i..|a| + 1 + i + |w|] == t[|a| + 1..][i..i + |w|];
      assert OccursAt(t, w, |a| + 1 + i);
    }
  }

  /** `str::trim_end_matches(c)` for a single character: drop every trailing `c`. */
  function TrimEndMatches(s: string, c: char): (r: string)
    ensures r <= s
    ensures r == [] || r[|r| - 1] != c
    ensures forall i :: |r| <= i < |s| ==> s[i] == c
  {
    if s != [] && s[|s| - 1] == c then TrimEndMatches(s[..|s| - 1], c) else s
  }

  /** Trimming is idempotent: a trimmed string has nothing left to trim. */
  lemma TrimEndMatchesIdempotent(s: string, c: char)
    ensures TrimEndMatches(TrimEndMatches(s, c), c) == TrimEndMatches(s, c)
  {
  }

  predicate IsDigit(c: char) {
    '0' <= c <= '9'
  }

  predicate AllDigits(s: string) {
    forall i :: 0 <= i < |s| ==> IsDigit(s[i])
  }

  function DigitChar(d: nat): (c: char)
    requires d < 10
    ensures IsDigit(c)
  {
    ('0' as int + d) as char
  }

  function DigitValue(c: char): (d: nat)
    requires IsDigit(c)
    ensures d < 10
  {
    c as int - '0' as int
  }

  /** The decimal text of a natural number (Rust's `to_string` / `{}` on an
      unsigned integer): no sign, no leading zeros. */
  function Decimal(n: nat): (s: string)
    decreases n
  {
    if n < 10 then [DigitChar(n)] else Decimal(n / 10) + [DigitChar(n % 10)]
  }

  /** The value of a string of decimal digits, most significant first. */
  function DigitsValue(s: string): nat
    requires AllDigits(s)
  {
    if s == [] then 0 else DigitsValue(s[..|s| - 1]) * 10 + DigitValue(s[|s| - 1])
  }

  /** A non-empty run of decimal digits and its value; anything else is refused. */
  function ParseDigits(s: string): (r: Option<nat>)
    ensures r.Some? <==> s != [] && AllDigits(s)
  {
    if s != [] && AllDigits(s) then Some(DigitsValue(s)) else None
  }

  /** Reading back the decimal text of `n` gives `n`. */
  lemma {:induction false} DecimalRoundTrip(n: nat)
    ensures Decimal(n) != [] && AllDigits(Decimal(n))
    ensures ParseDigits(Decimal(n)) == Some(n)
    decreases n
  {
    if n >= 10 {
      DecimalRoundTrip(n / 10);
      var s := Decimal(n);
      assert s == Decimal(n / 10) + [DigitChar(n % 10)];
      assert s[..|s| - 1] == Decimal(n / 10);
      assert DigitValue(s[|s| - 1]) == n % 10;
      assert DigitsValue(s) == DigitsValue(Decimal(n / 10)) * 10 + n % 10;
    } else {
      var s := Decimal(n);
      assert s == [DigitChar(n)];
      assert s[..|s| - 1] == [];
      assert DigitsValue(s) == DigitValue(s[0]);
    }
  }

  /** Distinct numbers have distinct decimal texts. */
  lemma DecimalInjective(m: nat, n: nat)
    requires m != n
    ensures Decimal(m) != Decimal(n)
  {
    DecimalRoundTrip(m);
    DecimalRoundTrip(n);
  }

  /** Rust's `str::parse` for an unsigned integer type whose values are those
      below `limit`: an optional leading '+', then at least one decimal digit,
      and a value that fits; anything else is an error. */
  function ParseUnsigned(s: string, limit: nat): (r: Option<nat>)
    ensures r.Some? ==> r.value < limit
  {
    var digits := if s != [] && s[0] == '+' then s[1..] else s;
    match ParseDigits(digits)
    case Some(v) => if v < limit then Some(v) else None
    case None => None
  }

  /** Every value that fits parses back from its decimal text. */
  lemma ParseUnsignedDecimal(n: nat, limit: nat)
    requires n < limit
    ensures ParseUnsigned(Decimal(n), limit) == Some(n)
  {
    DecimalRoundTrip(n);
  }

  /** The Unicode White_Space property, which `\s` matches in a Rust regular
      expression compiled in its default Unicode mode. */
  predicate IsWhitespace(c: char) {
    ('\t' <= c <= '\r') || c == ' ' || c == '\U{85}' || c == '\U{A0}' || c == '\U{1680}'
    || ('\U{2000}' <= c <= '\U{200A}') || c == '\U{2028}' || c == '\U{2029}'
    || c == '\U{202F}' || c == '\U{205F}' || c == '\U{3000}'
  }
}
