/** The behaviour of Python's built-in `str` that a lazy string hands its
    operations to: indexing with negative indices, slicing with clamped
    bounds, substring membership, repetition, code-point ordering, and
    iteration one character at a time. */
module PyStrings {
  import opened Wrappers

  /** The position `s[i]` reads: a negative index counts from the end. */
  function Normalize(i: int, n: nat): int {
    if i < 0 then i + n else i
  }

  /** `s[i]`, a one-character string, or `None` for the `IndexError`
      Python raises when `i` is outside `-len(s) .. len(s) - 1`. */
  function Index(s: string, i: int): (r: Option<string>)
    ensures r.Some? <==> -|s| <= i < |s|
    ensures r.Some? ==> |r.value| == 1 && r.value[0] == s[Normalize(i, |s|)]
  {
    if -|s| <= i < |s| then Some([s[Normalize(i, |s|)]]) else None
  }

  /** Counting from the end and from the front reach the same character. */
  lemma IndexFromEnd(s: string, k: int)
    requires 0 <= k < |s|
    ensures Index(s, k - |s|) == Index(s, k)
  {
  }

  /** One bound of `s[start:stop]`: a negative bound counts from the end, and
      the result is clamped to `0 .. n`; a missing bound takes `default`. */
  function SliceBound(b: Option<int>, n: nat, default: nat): (r: nat)
    requires default <= n
    ensures r <= n
    ensures b.Some? && 0 <= b.value <= n ==> r == b.value
    ensures b.Some? && b.value < 0 && 0 <= b.value + n ==> r == b.value + n
    ensures b.Some? && b.value > n ==> r == n
    ensures b.Some? && b.value + n < 0 ==> r == 0
    ensures b.None? ==> r == default
  {
    match b
    case None => default
    case Some(i) =>
      var j := Normalize(i, n);
      if j < 0 then 0 else if j > n then n else j
  }

  /** `s[start:stop]` with step 1; never raises. */
  function Slice(s: string, start: Option<int>, stop: Option<int>): (r: string)
    ensures |r| <= |s|
  {
    var lo, hi := SliceBound(start, |s|, 0), SliceBound(stop, |s|, |s|);
    if lo < hi then s[lo..hi] else []
  }

  /** The full slice `s[:]` is the string itself. */
  lemma SliceWhole(s: string)
    ensures Slice(s, None, None) == s
  {
  }

  /** `s[:k] + s[k:] == s` for every integer `k`, in range or not. */
  lemma SliceSplit(s: string, k: int)
    ensures Slice(s, None, Some(k)) + Slice(s, Some(k), None) == s
  {
    var m := SliceBound(Some(k), |s|, 0);
    assert Slice(s, None, Some(k)) == s[..m];
    assert Slice(s, Some(k), None) == s[m..];
  }

  /** `needle` occurs in `hay` starting at position `i`. */
  ghost predicate OccursAt(hay: string, needle: string, i: int) {
    0 <= i && i + |needle| <= |hay| && hay[i..i + |needle|] == needle
  }

  /** `needle in hay`: substring search from the front. */
  function Contains(hay: string, needle: string): (b: bool)
    ensures b <==> exists i :: OccursAt(hay, needle, i)
    decreases |hay|
  {
    if |needle| > |hay| then false
    else if hay[..|needle|] == needle then
      assert OccursAt(hay, needle, 0);
      true
    else
      var rest := Contains(hay[1..], needle);
      assert rest ==> exists i :: OccursAt(hay, needle, i) by {
        if rest {
          var i :| OccursAt(hay[1..], needle, i);
          assert hay[1..][i..i + |needle|] == hay[i + 1..i + 1 + |needle|];
          assert OccursAt(hay, needle, i + 1);
        }
      }
      assert (exists i :: OccursAt(hay, needle, i)) ==> rest by {
        if i :| OccursAt(hay, needle, i) {
          assert i != 0;
          assert hay[1..][i - 1..i - 1 + |needle|] == hay[i..i + |needle|];
          assert OccursAt(hay[1..], needle, i - 1);
        }
      }
      rest
  }

  /** `s * n`: `n` copies of `s` side by side; empty when `n <= 0`. */
  function Repeat(s: string, n: int): (r: string)
    ensures |r| == if n <= 0 then 0 else n * |s|
    decreases if n <= 0 then 0 else n
  {
    if n <= 0 then [] else s + Repeat(s, n - 1)
  }

  /** Copy `q` of the repetition holds `s` itself: character `q * |s| + j`
      is `s[j]`. */
  lemma {:induction false} RepeatAt(s: string, n: int, q: int, j: int)
    requires 0 <= q < n && 0 <= j < |s|
    ensures q * |s| + j < |Repeat(s, n)| && Repeat(s, n)[q * |s| + j] == s[j]
  {
    assert Repeat(s, n) == s + Repeat(s, n - 1);
    if q > 0 {
      RepeatAt(s, n - 1, q - 1, j);
      assert q * |s| + j == |s| + ((q - 1) * |s| + j);
    }
  }

  /** Python's `<` on strings: code-point order, a proper prefix first. */
  predicate Less(a: string, b: string) {
    if a == [] then b != []
    else if b == [] then false
    else if a[0] != b[0] then a[0] < b[0]
    else Less(a[1..], b[1..])
  }

  lemma {:induction false} LessIrreflexive(a: string)
    ensures !Less(a, a)
  {
    if a != [] {
      LessIrreflexive(a[1..]);
    }
  }

  lemma {:induction false} LessTransitive(a: string, b: string, c: string)
    requires Less(a, b) && Less(b, c)
    ensures Less(a, c)
  {
    if a != [] && b != [] && c != [] && a[0] == b[0] == c[0] {
      LessTransitive(a[1..], b[1..], c[1..]);
    }
  }

  /** Exactly one of `a < b`, `a == b`, `b < a` holds. */
  lemma {:induction false} LessTrichotomy(a: string, b: string)
    ensures Less(a, b) || a == b || Less(b, a)
    ensures !(Less(a, b) && Less(b, a))
    ensures a == b ==> !Less(a, b)
  {
    if a != [] && b != [] && a[0] == b[0] {
      LessTrichotomy(a[1..], b[1..]);
      assert a == [a[0]] + a[1..] && b == [b[0]] + b[1..];
    }
  }

  /** A proper extension sorts after the string it extends. */
  lemma {:induction false} PrefixIsLess(a: string, t: string)
    requires t != []
    ensures Less(a, a + t)
  {
    if a != [] {
      assert (a + t)[1..] == a[1..] + t;
      PrefixIsLess(a[1..], t);
    }
  }

  /** `iter(s)`: the one-character strings of `s`, in order. */
  function Chars(s: string): (r: seq<string>)
    ensures |r| == |s|
    ensures forall i :: 0 <= i < |s| ==> r[i] == [s[i]]
  {
    if s == [] then [] else [[s[0]]] + Chars(s[1..])
  }

  /** `"".join(parts)`. */
  function Join(parts: seq<string>): string {
    if parts == [] then "" else parts[0] + Join(parts[1..])
  }

  /** Joining the characters an iteration yields gives the string back. */
  lemma {:induction false} JoinChars(s: string)
    ensures Join(Chars(s)) == s
  {
    if s != [] {
      JoinChars(s[1..]);
      assert Chars(s)[1..] == Chars(s[1..]);
    }
  }
}
