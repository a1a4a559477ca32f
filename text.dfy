/** String operations of JavaScript used by the source: trim, case
    mapping, split/join on a separator, includes, slice. */
module Text {

  /** JavaScript's WhiteSpace and LineTerminator characters, which
      `String.prototype.trim` strips. */
  predicate IsWhitespace(c: char) {
    || c == ' ' || c == '\t' || c == '\n' || c == '\r'
    || c == '\U{B}' || c == '\U{C}' || c == '\U{A0}' || c == '\U{FEFF}'
    || c == '\U{1680}' || ('\U{2000}' <= c <= '\U{200A}')
    || c == '\U{2028}' || c == '\U{2029}' || c == '\U{202F}'
    || c == '\U{205F}' || c == '\U{3000}'
  }

  /** Number of leading whitespace characters of `s`. */
  function LeadingWhitespace(s: string): (n: nat)
    ensures n <= |s| && AllWhitespace(s[..n])
    ensures n < |s| ==> !IsWhitespace(s[n])
  {
    if s != [] && IsWhitespace(s[0]) then
      var n := 1 + LeadingWhitespace(s[1..]);
      assert forall k :: 1 <= k < n ==> s[k] == s[1..][..n - 1][k - 1];
      n
    else 0
  }

  /** Length of `s` without its trailing whitespace. */
  function TrailingStart(s: string): (j: nat)
    ensures j <= |s| && AllWhitespace(s[j..])
    ensures 0 < j ==> !IsWhitespace(s[j - 1])
  {
    if s != [] && IsWhitespace(s[|s| - 1]) then
      var j := TrailingStart(s[..|s| - 1]);
      assert forall k :: j <= k < |s| - 1 ==> s[k] == s[..|s| - 1][j..][k - j];
      j
    else |s|
  }

  predicate AllWhitespace(s: string) {
    forall i :: 0 <= i < |s| ==> IsWhitespace(s[i])
  }

  /** `s.trim()`: the input without leading and trailing whitespace. */
  function Trim(s: string): (r: string)
    ensures r != [] ==> !IsWhitespace(r[0]) && !IsWhitespace(r[|r| - 1])
    ensures r == [] <==> AllWhitespace(s)
  {
    var i := LeadingWhitespace(s);
    var t := s[i..];
    var j := TrailingStart(t);
    assert j > 0 ==> t[0] == s[i];
    assert j == 0 ==> forall k :: 0 <= k < |s| ==> IsWhitespace(s[..i][k]);
    t[..j]
  }

  /** Trimming only removes characters. */
  lemma TrimKeepsChars(s: string)
    ensures forall k :: 0 <= k < |Trim(s)| ==> Trim(s)[k] in s
  {
    var i := LeadingWhitespace(s);
    var t := s[i..];
    var j := TrailingStart(t);
    assert Trim(s) == t[..j];
    forall k | 0 <= k < |Trim(s)| ensures Trim(s)[k] in s {
      assert Trim(s)[k] == s[i + k];
    }
  }

  /** A string without whitespace is its own trim. */
  lemma TrimNoWhitespace(s: string)
    requires forall k :: 0 <= k < |s| ==> !IsWhitespace(s[k])
    ensures Trim(s) == s
  {
    assert LeadingWhitespace(s) == 0;
  }

  function UpperChar(c: char): char {
    if 'a' <= c <= 'z' then (c as int - 32) as char else c
  }

  function LowerChar(c: char): char {
    if 'A' <= c <= 'Z' then (c as int + 32) as char else c
  }

  /** `s.toUpperCase()` on the ASCII letters */
  function ToUpper(s: string): (r: string)
    ensures |r| == |s|
  {
    seq(|s|, i requires 0 <= i < |s| => UpperChar(s[i]))
  }

  /** `s.toLowerCase()` on the ASCII letters */
  function ToLower(s: string): (r: string)
    ensures |r| == |s|
  {
    seq(|s|, i requires 0 <= i < |s| => LowerChar(s[i]))
  }

  /** Lower-casing twice is lower-casing once. */
  lemma ToLowerIdempotent(s: string)
    ensures ToLower(ToLower(s)) == ToLower(s)
  {
  }

  /** `s.includes(k)` */
  predicate Contains(s: string, k: string) {
    k <= s || (s != [] && Contains(s[1..], k))
  }

  /** `s.slice(0, n)` and `s.substring(0, n)` for n >= 0 */
  function Take(s: string, n: nat): (r: string)
    ensures |r| <= n && r <= s
    ensures |s| <= n ==> r == s
  {
    if |s| <= n then s else s[..n]
  }

  /** Index of the first `c` in `s`, or |s| when there is none. */
  function IndexOf(s: string, c: char): (i: nat)
    ensures i <= |s| && c !in s[..i]
    ensures i < |s| ==> s[i] == c
  {
    if s == [] then 0
    else if s[0] == c then 0
    else 1 + IndexOf(s[1..], c)
  }

  /** `s.split(sep)` for a one-character separator. */
  function Split(s: string, sep: char): (parts: seq<string>)
    ensures |parts| >= 1
    decreases |s|
  {
    var i := IndexOf(s, sep);
    if i == |s| then [s] else [s[..i]] + Split(s[i + 1..], sep)
  }

  /** `parts.join(sep)` */
  function Join(parts: seq<string>, sep: string): string {
    if parts == [] then ""
    else if |parts| == 1 then parts[0]
    else parts[0] + sep + Join(parts[1..], sep)
  }

  /** Splitting on a character and joining with it gives the input back,
      and no piece contains the separator. */
  lemma {:induction false} SplitJoin(s: string, sep: char)
    ensures Join(Split(s, sep), [sep]) == s
    ensures forall k :: 0 <= k < |Split(s, sep)| ==> sep !in Split(s, sep)[k]
    decreases |s|
  {
    var i := IndexOf(s, sep);
    if i < |s| {
      var rest := Split(s[i + 1..], sep);
      SplitJoin(s[i + 1..], sep);
      assert Split(s, sep) == [s[..i]] + rest;
      calc {
        Join(Split(s, sep), [sep]);
        s[..i] + [sep] + Join(rest, [sep]);
        s[..i] + [sep] + s[i + 1..];
        { assert s == s[..i] + [s[i]] + s[i + 1..]; }
        s;
      }
      forall k | 0 <= k < |Split(s, sep)| ensures sep !in Split(s, sep)[k] {
        if k > 0 { assert Split(s, sep)[k] == rest[k - 1]; }
      }
    }
  }

  lemma {:induction false} ContainsAt(s: string, k: string, i: nat)
    requires i + |k| <= |s| && s[i..i + |k|] == k
    ensures Contains(s, k)
    decreases i
  {
    if i == 0 {
      assert k == s[..|k|];
    } else {
      assert s[1..][i - 1..i - 1 + |k|] == k;
      ContainsAt(s[1..], k, i - 1);
    }
  }

  lemma {:induction false} ContainsEmptyString(k: string)
    requires k != []
    ensures !Contains("", k)
  {
  }
}
