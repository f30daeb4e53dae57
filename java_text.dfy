/** The few pieces of Java and hutool string behaviour the core relies on:
    `String.trim()`, ASCII case folding as `Pattern.CASE_INSENSITIVE` does it,
    hutool's blank test, and the decimal rendering of an id. */
module JavaText {
  import opened Common

  /** `String.trim()` removes every leading and trailing char whose code is
      at most U+0020 (space and all control characters below it). */
  predicate Trimmable(c: char) { c <= ' ' }

  function TrimStart(s: string): (r: string)
    ensures |r| <= |s| && r == s[|s| - |r|..]
    ensures forall k :: 0 <= k < |s| - |r| ==> Trimmable(s[k])
    ensures r == [] || !Trimmable(r[0])
  {
    if |s| > 0 && Trimmable(s[0]) then TrimStart(s[1..]) else s
  }

  function TrimEnd(s: string): (r: string)
    ensures |r| <= |s| && r == s[..|r|]
    ensures forall k :: |r| <= k < |s| ==> Trimmable(s[k])
    ensures r == [] || !Trimmable(r[|r| - 1])
  {
    if |s| > 0 && Trimmable(s[|s| - 1]) then TrimEnd(s[..|s| - 1]) else s
  }

  /** Java's `s.trim()`. */
  function Trim(s: string): (r: string)
    ensures |r| <= |s|
    ensures r == [] || (!Trimmable(r[0]) && !Trimmable(r[|r| - 1]))
  {
    TrimEnd(TrimStart(s))
  }

  /** The trimmed string is the slice of `s` left after dropping a trimmable
      prefix and a trimmable suffix. */
  lemma TrimIsSlice(s: string) returns (a: nat)
    ensures a + |Trim(s)| <= |s| && Trim(s) == s[a..a + |Trim(s)|]
    ensures forall k :: 0 <= k < a ==> Trimmable(s[k])
    ensures forall k :: a + |Trim(s)| <= k < |s| ==> Trimmable(s[k])
  {
    var t := TrimStart(s);
    a := |s| - |t|;
    var r := TrimEnd(t);
    assert Trim(s) == r;
    assert t == s[a..] && r == t[..|r|];
    assert s[a..a + |r|] == s[a..][..|r|];
    forall k | a + |r| <= k < |s| ensures Trimmable(s[k]) {
      assert Trimmable(t[k - a]);
      assert s[k] == t[k - a];
    }
  }

  /** `s.trim().isEmpty()` holds exactly when every char of `s` is trimmable. */
  lemma TrimEmptyIff(s: string)
    ensures Trim(s) == [] <==> forall k :: 0 <= k < |s| ==> Trimmable(s[k])
  {
    var a := TrimIsSlice(s);
    if Trim(s) == [] {
      forall k | 0 <= k < |s| ensures Trimmable(s[k]) {
        assert k < a || a + |Trim(s)| <= k;
      }
    } else {
      assert !Trimmable(s[a]);
    }
  }

  /** Trimming twice is trimming once. */
  lemma TrimIdempotent(s: string)
    ensures Trim(Trim(s)) == Trim(s)
  {
    var r := Trim(s);
    if r != [] {
      assert TrimStart(r) == r;
      assert TrimEnd(r) == r;
    }
  }

  /** Leading trimmable chars do not change the trimmed result. */
  lemma {:induction false} TrimStartSkipsBlankPrefix(x: string, w: string)
    requires forall k :: 0 <= k < |x| ==> Trimmable(x[k])
    ensures TrimStart(x + w) == TrimStart(w)
  {
    if x != [] {
      assert (x + w)[0] == x[0] && (x + w)[1..] == x[1..] + w;
      assert TrimStart(x + w) == TrimStart(x[1..] + w);
      TrimStartSkipsBlankPrefix(x[1..], w);
    } else {
      assert x + w == w;
    }
  }

  lemma TrimSkipsBlankPrefix(x: string, w: string)
    requires forall k :: 0 <= k < |x| ==> Trimmable(x[k])
    ensures Trim(x + w) == Trim(w)
  {
    TrimStartSkipsBlankPrefix(x, w);
  }

  /** ASCII-only lower-casing, the folding `Pattern.CASE_INSENSITIVE` applies
      when `UNICODE_CASE` is not set. */
  function LowerAscii(c: char): (d: char)
    ensures 'A' <= c <= 'Z' ==> 'a' <= d <= 'z' && d as int == c as int + 32
    ensures !('A' <= c <= 'Z') ==> d == c
  {
    if 'A' <= c <= 'Z' then (c as int + 32) as char else c
  }

  /** Two chars match under ASCII case-insensitive matching. */
  predicate EqualsIgnoreCase(c: char, d: char) { LowerAscii(c) == LowerAscii(d) }

  /** hutool `CharUtil.isBlankChar`: Java whitespace, Unicode space
      separators, and a handful of invisible fillers. */
  predicate IsBlankChar(c: char)
  {
    || c == '\t' || c == '\n' || c == '\U{000B}' || c == '\U{000C}' || c == '\r'
    || ('\U{001C}' <= c <= '\U{001F}')
    || c == ' ' || c == '\U{00A0}' || c == '\U{1680}'
    || ('\U{2000}' <= c <= '\U{200A}')
    || c == '\U{2028}' || c == '\U{2029}' || c == '\U{202F}' || c == '\U{205F}' || c == '\U{3000}'
    || c == '\U{FEFF}' || c == '\U{202A}' || c == '\U{0000}'
    || c == '\U{3164}' || c == '\U{2800}' || c == '\U{180E}'
  }

  /** hutool `StrUtil.isBlank`: null, empty, or only blank chars. */
  function IsBlank(s: Option<string>): (b: bool)
    ensures s.None? || s == Some("") ==> b
    ensures s.Some? && (exists k :: 0 <= k < |s.value| && !IsBlankChar(s.value[k])) ==> !b
    ensures s.Some? && (forall k :: 0 <= k < |s.value| ==> IsBlankChar(s.value[k])) ==> b
  {
    match s
    case None => true
    case Some(t) => forall k :: 0 <= k < |t| ==> IsBlankChar(t[k])
  }

  /** Decimal digits of a natural number, most significant first. */
  function DecimalString(n: nat): (r: string)
    ensures r != []
    ensures forall k :: 0 <= k < |r| ==> '0' <= r[k] <= '9'
  {
    if n < 10 then [DigitChar(n)] else DecimalString(n / 10) + [DigitChar(n % 10)]
  }

  function DigitChar(d: nat): (c: char)
    requires d < 10
    ensures '0' <= c <= '9'
  {
    ('0' as int + d) as char
  }

  /** Reads a string of decimal digits back; the inverse of DecimalString. */
  function DecimalValue(s: string): nat
    requires forall k :: 0 <= k < |s| ==> '0' <= s[k] <= '9'
  {
    if s == [] then 0 else DecimalValue(s[..|s| - 1]) * 10 + (s[|s| - 1] as int - '0' as int)
  }

  lemma {:induction false} DecimalRoundTrip(n: nat)
    ensures DecimalValue(DecimalString(n)) == n
  {
    var r := DecimalString(n);
    if n >= 10 {
      DecimalRoundTrip(n / 10);
      assert r[..|r| - 1] == DecimalString(n / 10);
    } else {
      assert r[..|r| - 1] == [];
    }
  }

  /** Distinct ids render to distinct names. */
  lemma DecimalStringInjective(m: nat, n: nat)
    ensures DecimalString(m) == DecimalString(n) ==> m == n
  {
    DecimalRoundTrip(m);
    DecimalRoundTrip(n);
  }
}
