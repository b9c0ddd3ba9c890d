/**
 * String helpers with JavaScript semantics: `String.prototype.trim`, an ASCII
 * lower-casing used where only ASCII letters matter, and decimal rendering of
 * a natural number (for message templates).
 */
module Text {

  /** ECMAScript WhiteSpace and LineTerminator code points: what `trim` removes. */
  predicate IsSpace(c: char)
  {
    c == ' ' || c == '\t' || c == '\n' || c == '\r' || c == '\U{000B}' || c == '\U{000C}'
    || c == '\U{00A0}' || c == '\U{1680}' || ('\U{2000}' <= c <= '\U{200A}')
    || c == '\U{2028}' || c == '\U{2029}' || c == '\U{202F}' || c == '\U{205F}'
    || c == '\U{3000}' || c == '\U{FEFF}'
  }

  /** Every character of `s` is white space. */
  predicate AllSpace(s: string)
  {
    forall k :: 0 <= k < |s| ==> IsSpace(s[k])
  }

  /** Drops leading white space: the result does not start with white space. */
  function TrimStart(s: string): (r: string)
    ensures |r| <= |s|
    ensures r == [] || !IsSpace(r[0])
  {
    if s != [] && IsSpace(s[0]) then TrimStart(s[1..]) else s
  }

  /** Drops trailing white space: the result does not end with white space and, unless
      empty, starts where `s` starts. */
  function TrimEnd(s: string): (r: string)
    ensures |r| <= |s|
    ensures r == [] || (r[0] == s[0] && !IsSpace(r[|r| - 1]))
  {
    if s != [] && IsSpace(s[|s| - 1]) then TrimEnd(s[..|s| - 1]) else s
  }

  /** `TrimStart` keeps a suffix and drops only white space. */
  lemma {:induction false} TrimStartDrops(s: string)
    ensures TrimStart(s) == s[|s| - |TrimStart(s)|..]
    ensures AllSpace(s[..|s| - |TrimStart(s)|])
  {
    if s != [] && IsSpace(s[0]) {
      TrimStartDrops(s[1..]);
      var k := |s| - |TrimStart(s)|;
      assert s[1..][k - 1..] == s[k..];
      forall i | 0 <= i < k ensures IsSpace(s[i]) {
        if i > 0 {
          assert s[i] == s[1..][..k - 1][i - 1];
        }
      }
    }
  }

  /** `TrimEnd` keeps a prefix and drops only white space. */
  lemma {:induction false} TrimEndDrops(s: string)
    ensures TrimEnd(s) == s[..|TrimEnd(s)|]
    ensures AllSpace(s[|TrimEnd(s)|..])
  {
    if s != [] && IsSpace(s[|s| - 1]) {
      var t := s[..|s| - 1];
      TrimEndDrops(t);
      var k := |TrimEnd(s)|;
      assert t[..k] == s[..k];
      forall i | k <= i < |s| ensures IsSpace(s[i]) {
        if i < |s| - 1 {
          assert s[i] == t[k..][i - k];
        }
      }
    }
  }

  /** A string that neither starts nor ends with white space. */
  predicate Trimmed(s: string)
  {
    s == [] || (!IsSpace(s[0]) && !IsSpace(s[|s| - 1]))
  }

  /** `String.prototype.trim`. */
  function Trim(s: string): (r: string)
    ensures |r| <= |s|
    ensures Trimmed(r)
  {
    TrimEnd(TrimStart(s))
  }

  /** The trimmed string is the infix of `s` left after cutting white space off both ends. */
  lemma TrimIsInfix(s: string)
    ensures exists i, j {:trigger s[i..j]} :: 0 <= i <= j <= |s| && Trim(s) == s[i..j]
                && AllSpace(s[..i]) && AllSpace(s[j..])
  {
    var t := TrimStart(s);
    TrimStartDrops(s);
    var i := |s| - |t|;
    var r := TrimEnd(t);
    TrimEndDrops(t);
    var j := i + |r|;
    assert t == s[i..];
    assert r == t[..|r|] == s[i..j];
    assert s[j..] == t[|r|..];
    assert Trim(s) == s[i..j];
  }

  /** Trimming leaves a string as it is exactly when it neither starts nor ends with
      white space. */
  lemma {:induction false} TrimKeepsIff(s: string)
    ensures Trim(s) == s <==> Trimmed(s)
  {
    if Trimmed(s) {
      assert TrimStart(s) == s;
      assert TrimEnd(s) == s;
    }
  }

  /** Trimming twice is trimming once. */
  lemma TrimIdempotent(s: string)
    ensures Trim(Trim(s)) == Trim(s)
  {
    TrimKeepsIff(Trim(s));
  }

  /** ASCII upper-case letters mapped to lower case; every other character kept. */
  function AsciiLower(s: string): (r: string)
    ensures |r| == |s|
    ensures forall k :: 0 <= k < |s| ==> r[k] == LowerChar(s[k])
  {
    if s == [] then [] else [LowerChar(s[0])] + AsciiLower(s[1..])
  }

  function LowerChar(c: char): char
  {
    if 'A' <= c <= 'Z' then (c as int - 'A' as int + 'a' as int) as char else c
  }

  /** Decimal digits of `n`, without leading zeros. */
  function NatToString(n: nat): (r: string)
    ensures |r| >= 1
    ensures forall k :: 0 <= k < |r| ==> '0' <= r[k] <= '9'
    decreases n
  {
    if n < 10 then [Digit(n)] else NatToString(n / 10) + [Digit(n % 10)]
  }

  function Digit(d: nat): (c: char)
    requires d < 10
    ensures '0' <= c <= '9'
  {
    ('0' as int + d) as char
  }
}
