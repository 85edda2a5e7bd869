/**
 * `generate_cache_key` of the backend: `"search:"` followed by the query
 * lower-cased and with surrounding whitespace removed, so that one cache
 * entry serves every spelling that differs only in case or padding.
 *
 * Case mapping covers ASCII letters and whitespace the ASCII characters
 * Python's `str.strip` removes; other Unicode characters are kept as they are.
 */
module CacheKeys {

  const KeyPrefix := "search:"

  /**
   * The ASCII characters for which Python's `str.isspace` holds: space,
   * tab, line feed, vertical tab, form feed, carriage return (9 to 13) and
   * the four separators 28 to 31.
   */
  predicate IsSpace(c: char)
  {
    c == ' ' || '\t' <= c <= '\r' || 28 <= c as int <= 31
  }

  predicate AllSpace(s: string) { forall i :: 0 <= i < |s| ==> IsSpace(s[i]) }

  predicate IsUpper(c: char) { 'A' <= c <= 'Z' }

  function LowerChar(c: char): (d: char)
    ensures !IsUpper(d)
    ensures !IsUpper(c) ==> d == c
    ensures IsUpper(c) ==> d as int == c as int + 32
  {
    if IsUpper(c) then (c as int + 32) as char else c
  }

  /** `str.lower`. */
  function Lower(s: string): (r: string)
    ensures |r| == |s|
    ensures forall i :: 0 <= i < |s| ==> r[i] == LowerChar(s[i])
  {
    if s == [] then [] else [LowerChar(s[0])] + Lower(s[1..])
  }

  /** Leading whitespace removed. */
  function TrimStart(s: string): string
  {
    if s != [] && IsSpace(s[0]) then TrimStart(s[1..]) else s
  }

  /** Trailing whitespace removed. */
  function TrimEnd(s: string): string
  {
    if s != [] && IsSpace(s[|s| - 1]) then TrimEnd(s[..|s| - 1]) else s
  }

  /** `str.strip()`. */
  function Strip(s: string): string
  {
    TrimEnd(TrimStart(s))
  }

  /** `generate_cache_key(query)`. */
  function CacheKey(query: string): (key: string)
    ensures |key| >= |KeyPrefix| && key[..|KeyPrefix|] == KeyPrefix
  {
    KeyPrefix + Strip(Lower(query))
  }

  // ---- properties of the pieces ----

  /** `TrimStart` drops a whitespace prefix of length `k` and stops at a non-space. */
  lemma {:induction false} TrimStartShape(s: string) returns (k: nat)
    ensures k <= |s| && AllSpace(s[..k]) && TrimStart(s) == s[k..]
    ensures k < |s| ==> !IsSpace(s[k])
  {
    if s != [] && IsSpace(s[0]) {
      var k' := TrimStartShape(s[1..]);
      k := k' + 1;
      assert s[..k] == [s[0]] + s[1..][..k'];
      assert s[k..] == s[1..][k'..];
    } else {
      k := 0;
    }
  }

  /** `TrimEnd` keeps a prefix of length `k` followed only by whitespace and ending in a non-space. */
  lemma {:induction false} TrimEndShape(s: string) returns (k: nat)
    ensures k <= |s| && AllSpace(s[k..]) && TrimEnd(s) == s[..k]
    ensures k > 0 ==> !IsSpace(s[k - 1])
  {
    if s != [] && IsSpace(s[|s| - 1]) {
      var t := s[..|s| - 1];
      k := TrimEndShape(t);
      assert s[k..] == t[k..] + [s[|s| - 1]];
      assert s[..k] == t[..k];
    } else {
      k := |s|;
    }
  }

  /** `strip` keeps the slice `s[i..j]`, removes only whitespace around it, and the slice has none at its ends. */
  lemma StripShape(s: string) returns (i: nat, j: nat)
    ensures i <= j <= |s| && AllSpace(s[..i]) && AllSpace(s[j..]) && Strip(s) == s[i..j]
    ensures i < j ==> !IsSpace(s[i]) && !IsSpace(s[j - 1])
  {
    var t := TrimStart(s);
    i := TrimStartShape(s);
    var k := TrimEndShape(t);
    j := i + k;
    assert t[k..] == s[j..];
    assert t[..k] == s[i..j];
    if k > 0 {
      assert t[0] == s[i];
      assert t[k - 1] == s[j - 1];
    }
  }

  lemma {:induction false} TrimStartAfterSpace(p: string, s: string)
    requires AllSpace(p)
    ensures TrimStart(p + s) == TrimStart(s)
  {
    if p != [] {
      assert (p + s)[1..] == p[1..] + s;
      TrimStartAfterSpace(p[1..], s);
    } else {
      assert p + s == s;
    }
  }

  lemma {:induction false} TrimEndBeforeSpace(s: string, t: string)
    requires AllSpace(t)
    ensures TrimEnd(s + t) == TrimEnd(s)
  {
    if t != [] {
      var u := s + t;
      assert u[..|u| - 1] == s + t[..|t| - 1];
      TrimEndBeforeSpace(s, t[..|t| - 1]);
    } else {
      assert s + t == s;
    }
  }

  /** Trailing text survives `TrimStart` unless everything before it was whitespace. */
  lemma {:induction false} TrimStartAppend(s: string, t: string)
    ensures AllSpace(s) ==> TrimStart(s + t) == TrimStart(t)
    ensures !AllSpace(s) ==> TrimStart(s + t) == TrimStart(s) + t
  {
    if s == [] {
      assert s + t == t;
    } else {
      assert (s + t)[0] == s[0];
      assert (s + t)[1..] == s[1..] + t;
      TrimStartAppend(s[1..], t);
      if IsSpace(s[0]) {
        assert AllSpace(s) <==> AllSpace(s[1..]) by {
          assert forall i :: 1 <= i < |s| ==> s[i] == s[1..][i - 1];
        }
      }
    }
  }

  lemma {:induction false} TrimStartAllSpace(s: string)
    requires AllSpace(s)
    ensures TrimStart(s) == []
  {
    if s != [] {
      TrimStartAllSpace(s[1..]);
    }
  }

  /** Whitespace around a text never changes what `strip` keeps. */
  lemma StripIgnoresPadding(p: string, s: string, t: string)
    requires AllSpace(p) && AllSpace(t)
    ensures Strip(p + s + t) == Strip(s)
  {
    assert p + s + t == p + (s + t);
    TrimStartAfterSpace(p, s + t);
    TrimStartAppend(s, t);
    if AllSpace(s) {
      TrimStartAllSpace(s);
      TrimStartAllSpace(t);
    } else {
      TrimEndBeforeSpace(TrimStart(s), t);
    }
  }

  lemma LowerLeavesSpace(s: string)
    requires AllSpace(s)
    ensures Lower(s) == s
  {
  }

  lemma LowerAppend(a: string, b: string)
    ensures Lower(a + b) == Lower(a) + Lower(b)
  {
  }

  // ---- what the key promises ----

  /** `strip` keeps a slice, so it adds no upper-case letter and leaves no whitespace at either end. */
  lemma StripOfNoUpper(l: string)
    requires forall k :: 0 <= k < |l| ==> !IsUpper(l[k])
    ensures forall k :: 0 <= k < |Strip(l)| ==> !IsUpper(Strip(l)[k])
    ensures Strip(l) != [] ==> !IsSpace(Strip(l)[0]) && !IsSpace(Strip(l)[|Strip(l)| - 1])
  {
    var i, j := StripShape(l);
    var r := Strip(l);
    forall k | 0 <= k < |r|
      ensures !IsUpper(r[k])
    {
      assert r[k] == l[i + k];
    }
    if r != [] {
      assert r[0] == l[i];
      assert r[|r| - 1] == l[j - 1];
    }
  }

  /** The normalised query holds no upper-case letter and no whitespace at either end. */
  lemma NormalisedQueryShape(query: string)
    ensures forall k :: 0 <= k < |Strip(Lower(query))| ==> !IsUpper(Strip(Lower(query))[k])
    ensures Strip(Lower(query)) != [] ==>
              !IsSpace(Strip(Lower(query))[0]) && !IsSpace(Strip(Lower(query))[|Strip(Lower(query))| - 1])
  {
    StripOfNoUpper(Lower(query));
  }

  /** After the prefix comes the query folded to lower case with no whitespace at either end. */
  lemma CacheKeyShape(query: string)
    ensures CacheKey(query)[|KeyPrefix|..] == Strip(Lower(query))
    ensures forall k :: |KeyPrefix| <= k < |CacheKey(query)| ==> !IsUpper(CacheKey(query)[k])
    ensures |CacheKey(query)| > |KeyPrefix| ==>
              !IsSpace(CacheKey(query)[|KeyPrefix|]) && !IsSpace(CacheKey(query)[|CacheKey(query)| - 1])
  {
    var r := Strip(Lower(query));
    NormalisedQueryShape(query);
    PrefixedShape(r);
  }

  /** What follows the prefix in `KeyPrefix + r` is `r`, position by position. */
  lemma PrefixedShape(r: string)
    requires forall k :: 0 <= k < |r| ==> !IsUpper(r[k])
    requires r != [] ==> !IsSpace(r[0]) && !IsSpace(r[|r| - 1])
    ensures (KeyPrefix + r)[|KeyPrefix|..] == r
    ensures forall k :: |KeyPrefix| <= k < |KeyPrefix + r| ==> !IsUpper((KeyPrefix + r)[k])
    ensures |KeyPrefix + r| > |KeyPrefix| ==>
              !IsSpace((KeyPrefix + r)[|KeyPrefix|]) && !IsSpace((KeyPrefix + r)[|KeyPrefix + r| - 1])
  {
    var key := KeyPrefix + r;
    forall k | |KeyPrefix| <= k < |key|
      ensures !IsUpper(key[k])
    {
      assert key[k] == r[k - |KeyPrefix|];
    }
    if r != [] {
      assert key[|KeyPrefix|] == r[0];
      assert key[|key| - 1] == r[|r| - 1];
    }
  }

  /** Queries that differ only in the case of their letters share a key. */
  lemma CacheKeyIgnoresCase(a: string, b: string)
    requires |a| == |b| && forall i :: 0 <= i < |a| ==> LowerChar(a[i]) == LowerChar(b[i])
    ensures CacheKey(a) == CacheKey(b)
  {
    assert Lower(a) == Lower(b);
  }

  /** Queries that differ only in surrounding whitespace share a key. */
  lemma CacheKeyIgnoresPadding(p: string, query: string, t: string)
    requires AllSpace(p) && AllSpace(t)
    ensures CacheKey(p + query + t) == CacheKey(query)
  {
    LowerAppend(p + query, t);
    LowerAppend(p, query);
    LowerLeavesSpace(p);
    LowerLeavesSpace(t);
    StripIgnoresPadding(p, Lower(query), t);
  }
}
