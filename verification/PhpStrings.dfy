/** The PHP string built-ins the service relies on, with PHP 8 semantics:
    `strncmp`, `substr`, `strpos` and `strtolower`. PHP strings are byte
    strings; here each byte is a `char`. */
module PhpStrings {
  import opened Wrappers

  function Min(a: nat, b: nat): nat {
    if a <= b then a else b
  }

  /** `memcmp` over positions `i` up to `m`: the difference of the first pair
      of characters that differ, or 0 when the two ranges coincide. */
  function MemCmp(a: string, b: string, i: nat, m: nat): (r: int)
    requires i <= m <= |a| && m <= |b|
    ensures r == 0 <==> a[i..m] == b[i..m]
    decreases m - i
  {
    if i == m then 0
    else if a[i] != b[i] then
      assert a[i..m][0] != b[i..m][0];
      a[i] as int - b[i] as int
    else
      var rest := MemCmp(a, b, i + 1, m);
      assert a[i..m] == [a[i]] + a[i + 1..m];
      assert b[i..m] == [b[i]] + b[i + 1..m];
      rest
  }

  /** PHP's binary-safe `strncmp(a, b, n)`: compare the first `n` bytes of
      both strings; when the shorter one runs out first, the difference of
      the compared lengths decides. */
  function Strncmp(a: string, b: string, n: nat): (r: int)
    ensures r == 0 <==> a[..Min(n, |a|)] == b[..Min(n, |b|)]
  {
    var m := Min(n, Min(|a|, |b|));
    var d := MemCmp(a, b, 0, m);
    if d != 0 then
      assert a[..m] != b[..m];
      assert a[..Min(n, |a|)][..m] == a[..m];
      assert b[..Min(n, |b|)][..m] == b[..m];
      d
    else
      assert a[..m] == b[..m];
      Min(n, |a|) - Min(n, |b|)
  }

  /** `strncmp(s, p, strlen(p)) === 0` is exactly the test "p is a prefix of s". */
  lemma StrncmpPrefix(s: string, p: string)
    ensures Strncmp(s, p, |p|) == 0 <==> p <= s
  {
  }

  /** `substr(s, start)` for a non-negative start; PHP 8 answers "" when the
      start lies at or beyond the end. */
  function SubstrFrom(s: string, start: nat): (r: string)
    ensures start <= |s| ==> s == s[..start] + r
    ensures |s| < start ==> r == ""
  {
    if start <= |s| then s[start..] else ""
  }

  /** `substr(s, start, length)` for a non-negative start and length. */
  function Substr(s: string, start: nat, length: nat): (r: string)
    ensures |r| == if start <= |s| then Min(length, |s| - start) else 0
    ensures forall i :: 0 <= i < |r| ==> r[i] == s[start + i]
  {
    if |s| < start then "" else s[start..start + Min(length, |s| - start)]
  }

  /** Does `needle` occur in `haystack` starting at position `k`? */
  predicate OccursAt(haystack: string, needle: string, k: int) {
    0 <= k && k + |needle| <= |haystack| && haystack[k..k + |needle|] == needle
  }

  /** `strpos(haystack, needle, i)`: the first position at or after `i` where
      `needle` occurs, or `None` for PHP's `false`. */
  function StrPosFrom(haystack: string, needle: string, i: nat): (r: Option<nat>)
    requires i <= |haystack|
    ensures r.Some? ==> i <= r.value && OccursAt(haystack, needle, r.value)
    ensures r.Some? ==> forall k :: i <= k < r.value ==> !OccursAt(haystack, needle, k)
    ensures r.None? ==> forall k :: i <= k ==> !OccursAt(haystack, needle, k)
    decreases |haystack| - i
  {
    if |haystack| < i + |needle| then None
    else if haystack[i..i + |needle|] == needle then Some(i)
    else if i == |haystack| then None
    else StrPosFrom(haystack, needle, i + 1)
  }

  /** `strpos(haystack, needle)`: the first occurrence, or `None` for `false`.
      An empty needle occurs at position 0 (PHP 8). */
  function StrPos(haystack: string, needle: string): (r: Option<nat>)
    ensures r.Some? <==> exists k :: OccursAt(haystack, needle, k)
    ensures r.Some? ==> OccursAt(haystack, needle, r.value)
    ensures r.Some? ==> forall k :: 0 <= k < r.value ==> !OccursAt(haystack, needle, k)
  {
    StrPosFrom(haystack, needle, 0)
  }

  predicate IsUpperAscii(c: char) {
    'A' <= c <= 'Z'
  }

  function LowerAscii(c: char): char {
    if IsUpperAscii(c) then (c as int + 32) as char else c
  }

  /** `strtolower`: maps the ASCII letters A-Z to a-z and leaves every other
      byte alone (PHP 8.2 and later; earlier versions consulted the locale). */
  function StrToLower(s: string): (r: string)
    ensures |r| == |s|
    ensures forall i :: 0 <= i < |r| ==> !IsUpperAscii(r[i])
    ensures forall i :: 0 <= i < |s| && !IsUpperAscii(s[i]) ==> r[i] == s[i]
    ensures forall i :: 0 <= i < |s| && IsUpperAscii(s[i]) ==> r[i] as int == s[i] as int + 32
  {
    seq(|s|, i requires 0 <= i < |s| => LowerAscii(s[i]))
  }
}
