/** String helpers standing in for JavaScript's `includes`, `join`, `toLowerCase` and `slice`. */
module Text {

  /** `s.includes(pat)`: `pat` occurs in `s` at some position (the empty pattern always does). */
  predicate Includes(s: string, pat: string) {
    exists i :: 0 <= i <= |s| - |pat| && pat <= s[i..]
  }

  lemma IncludesMiddle(p: string, x: string, q: string)
    ensures Includes(p + x + q, x)
  {
    var s := p + x + q;
    assert x <= s[|p|..];
  }

  lemma IncludesExtendRight(s: string, x: string, q: string)
    requires Includes(s, x)
    ensures Includes(s + q, x)
  {
    var i :| 0 <= i <= |s| - |x| && x <= s[i..];
    assert (s + q)[i..][..|x|] == s[i..][..|x|];
    assert x <= (s + q)[i..];
  }

  lemma IncludesExtendLeft(p: string, s: string, x: string)
    requires Includes(s, x)
    ensures Includes(p + s, x)
  {
    var i :| 0 <= i <= |s| - |x| && x <= s[i..];
    assert (p + s)[|p| + i..] == s[i..];
  }

  lemma IncludesTransitive(x: string, y: string, z: string)
    requires Includes(y, x) && Includes(z, y)
    ensures Includes(z, x)
  {
    var i :| 0 <= i <= |y| - |x| && x <= y[i..];
    var j :| 0 <= j <= |z| - |y| && y <= z[j..];
    assert z[j + i..][..|x|] == y[i..][..|x|];
    assert x <= z[j + i..];
  }

  /** `t` is a suffix of `s`. */
  predicate EndsWith(s: string, t: string) {
    |t| <= |s| && s[|s| - |t|..] == t
  }

  /** `parts.join(sep)`: the first part opens the result and the last part closes it. */
  function Join(parts: seq<string>, sep: string): (r: string)
    ensures |parts| > 0 ==> parts[0] <= r && EndsWith(r, parts[|parts| - 1])
    decreases |parts|
  {
    if |parts| == 0 then ""
    else if |parts| == 1 then parts[0]
    else parts[0] + sep + Join(parts[1..], sep)
  }

  /** Joining non-empty parts gives the empty string exactly when there are no parts. */
  lemma {:induction false} JoinEmptyIff(parts: seq<string>, sep: string)
    requires forall i :: 0 <= i < |parts| ==> parts[i] != ""
    ensures Join(parts, sep) == "" <==> parts == []
  {
    if |parts| >= 1 {
      assert |Join(parts, sep)| >= |parts[0]| > 0;
    }
  }

  /** A prefix occurs in the string. */
  lemma PrefixIncluded(x: string, s: string)
    requires x <= s
    ensures Includes(s, x)
  {
    assert s[0..] == s;
  }

  /** Every part occurs in the joined string. */
  lemma {:induction false} JoinIncludesPart(parts: seq<string>, sep: string, k: nat)
    requires k < |parts|
    ensures Includes(Join(parts, sep), parts[k])
    decreases |parts|
  {
    if k == 0 {
      PrefixIncluded(parts[0], Join(parts, sep));
    } else {
      var rest := parts[1..];
      JoinIncludesPart(rest, sep, k - 1);
      assert rest[k - 1] == parts[k];
      IncludesExtendLeft(parts[0] + sep, Join(rest, sep), parts[k]);
      assert Join(parts, sep) == parts[0] + sep + Join(rest, sep);
    }
  }

  /** `s.toLowerCase()`, with the character mapping abstracted as `lower`. */
  function ToLower(s: string, lower: char -> char): (r: string)
    ensures |r| == |s|
    ensures forall i :: 0 <= i < |s| ==> r[i] == lower(s[i])
  {
    seq(|s|, i requires 0 <= i < |s| => lower(s[i]))
  }

  /** `s.slice(0, n)` for `n >= 0`: the first `min(n, |s|)` characters. */
  function Take(s: string, n: nat): (r: string)
    ensures |r| == if |s| <= n then |s| else n
    ensures r <= s
  {
    if |s| <= n then s else s[..n]
  }

  lemma NonEmptyPair(a: string, b: string)
    ensures NonEmpty([a, b]) == (if a != "" then [a] else []) + (if b != "" then [b] else [])
  {
    assert [a, b][1..] == [b];
    assert [b][1..] == [];
  }

  /** `parts.filter(Boolean)` on strings: the non-empty parts, in order. */
  function NonEmpty(parts: seq<string>): (r: seq<string>)
    ensures forall i :: 0 <= i < |r| ==> r[i] != ""
    ensures |r| <= |parts|
    ensures forall s :: s in r <==> s in parts && s != ""
    decreases |parts|
  {
    if parts == [] then []
    else (if parts[0] != "" then [parts[0]] else []) + NonEmpty(parts[1..])
  }

  /** The filter keeps the order: filtering two runs of parts and concatenating is filtering their concatenation. */
  lemma {:induction false} NonEmptyAppend(a: seq<string>, b: seq<string>)
    ensures NonEmpty(a + b) == NonEmpty(a) + NonEmpty(b)
    decreases |a|
  {
    if a == [] {
      assert a + b == b;
    } else {
      assert (a + b)[0] == a[0];
      assert (a + b)[1..] == a[1..] + b;
      NonEmptyAppend(a[1..], b);
    }
  }

  /** A list of non-empty parts passes the filter unchanged. */
  lemma {:induction false} NonEmptyKeepsAll(parts: seq<string>)
    requires forall i :: 0 <= i < |parts| ==> parts[i] != ""
    ensures NonEmpty(parts) == parts
    decreases |parts|
  {
    if parts != [] {
      NonEmptyKeepsAll(parts[1..]);
      assert [parts[0]] + parts[1..] == parts;
    }
  }
}
