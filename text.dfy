/** The pieces of Rust's `str` API that location.rs relies on: `find`/`rfind`,
    `split_once`/`rsplit_once`, `strip_prefix`/`strip_suffix`. A string is a
    sequence of ASCII characters, so a character index is also a byte index.
    A `char` pattern such as `'<'` is the one-character string `"<"`. */
module Text {
  import opened Wrappers

  /** `sep` occurs in `s` starting at index `k`. */
  predicate OccursAt(s: string, sep: string, k: int) {
    0 <= k && k + |sep| <= |s| && s[k..k + |sep|] == sep
  }

  lemma OccursAtTail(s: string, sep: string, k: int)
    requires |s| > 0 && k >= 0
    ensures OccursAt(s[1..], sep, k) <==> OccursAt(s, sep, k + 1)
  {
    if 0 <= k && k + |sep| <= |s| - 1 {
      assert s[1..][k..k + |sep|] == s[k + 1..k + 1 + |sep|];
    }
  }

  lemma OccursAtInit(s: string, sep: string, k: int)
    requires |s| > 0
    ensures OccursAt(s[..|s| - 1], sep, k) <==> OccursAt(s, sep, k) && k + |sep| < |s|
  {
    if 0 <= k && k + |sep| < |s| {
      assert s[..|s| - 1][k..k + |sep|] == s[k..k + |sep|];
    }
  }

  /** Whether `sep` occurs at `k` depends only on a prefix long enough to hold it. */
  lemma OccursAtPrefix(s: string, t: string, sep: string, k: int)
    requires t <= s && 0 <= k && k + |sep| <= |t|
    ensures OccursAt(s, sep, k) <==> OccursAt(t, sep, k)
  {
    assert s[k..k + |sep|] == t[k..k + |sep|];
  }

  /** A separator that occurs nowhere in `s` occurs nowhere in a slice of it. */
  lemma NoOccurrenceInSlice(s: string, t: string, sep: string, offset: nat)
    requires offset + |t| <= |s| && t == s[offset..offset + |t|]
    requires forall k :: !OccursAt(s, sep, k)
    ensures forall k :: !OccursAt(t, sep, k)
  {
    forall k | 0 <= k && k + |sep| <= |t| ensures !OccursAt(t, sep, k) {
      var here, there := t[k..k + |sep|], s[offset + k..offset + k + |sep|];
      forall i | 0 <= i < |sep| ensures here[i] == there[i] {
        assert here[i] == t[k + i] == s[offset + k + i];
      }
      assert here == there;
      assert !OccursAt(s, sep, offset + k);
    }
  }

  /** Index of the first occurrence of `sep` in `s` (`str::find`). */
  function FindFirst(s: string, sep: string): (r: Option<nat>)
    ensures r.Some? ==> OccursAt(s, sep, r.value)
    ensures r.Some? ==> forall k | k < r.value :: !OccursAt(s, sep, k)
    ensures r.None? ==> forall k :: !OccursAt(s, sep, k)
  {
    if |s| < |sep| then None
    else if s[..|sep|] == sep then Some(0)
    else
      var rest := FindFirst(s[1..], sep);
      assert forall k | k >= 0 :: OccursAt(s[1..], sep, k) <==> OccursAt(s, sep, k + 1) by {
        forall k | k >= 0 ensures OccursAt(s[1..], sep, k) <==> OccursAt(s, sep, k + 1) {
          OccursAtTail(s, sep, k);
        }
      }
      assert !OccursAt(s, sep, 0);
      match rest
      case None =>
        assert forall k :: !OccursAt(s, sep, k) by {
          forall k ensures !OccursAt(s, sep, k) {
            if k >= 1 { assert !OccursAt(s[1..], sep, k - 1); }
          }
        }
        None
      case Some(i) =>
        assert forall k | k < i + 1 :: !OccursAt(s, sep, k) by {
          forall k | k < i + 1 ensures !OccursAt(s, sep, k) {
            if k >= 1 { assert !OccursAt(s[1..], sep, k - 1); }
          }
        }
        Some(i + 1)
  }

  /** Index of the last occurrence of `sep` in `s` (`str::rfind`). */
  function FindLast(s: string, sep: string): (r: Option<nat>)
    ensures r.Some? ==> OccursAt(s, sep, r.value)
    ensures r.Some? ==> forall k | k > r.value :: !OccursAt(s, sep, k)
    ensures r.None? ==> forall k :: !OccursAt(s, sep, k)
    decreases |s|
  {
    if |s| < |sep| then None
    else if s[|s| - |sep|..] == sep then Some(|s| - |sep|)
    else
      var init := s[..|s| - 1];
      var rest := FindLast(init, sep);
      assert forall k :: OccursAt(init, sep, k) <==> OccursAt(s, sep, k) && k + |sep| < |s| by {
        forall k ensures OccursAt(init, sep, k) <==> OccursAt(s, sep, k) && k + |sep| < |s| {
          OccursAtInit(s, sep, k);
        }
      }
      assert !OccursAt(s, sep, |s| - |sep|);
      rest
  }

  /** `str::split_once`: the text before and after the first `sep`. */
  function SplitOnce(s: string, sep: string): (r: Option<(string, string)>)
    ensures r.None? <==> forall k :: !OccursAt(s, sep, k)
    ensures r.Some? ==> s == r.value.0 + sep + r.value.1
    ensures r.Some? ==> forall k | k < |r.value.0| :: !OccursAt(s, sep, k)
  {
    match FindFirst(s, sep)
    case None => None
    case Some(i) =>
      assert s == s[..i] + sep + s[i + |sep|..];
      Some((s[..i], s[i + |sep|..]))
  }

  /** `str::rsplit_once`: the text before and after the last `sep`. */
  function RSplitOnce(s: string, sep: string): (r: Option<(string, string)>)
    ensures r.None? <==> forall k :: !OccursAt(s, sep, k)
    ensures r.Some? ==> s == r.value.0 + sep + r.value.1
    ensures r.Some? ==> forall k | k > |r.value.0| :: !OccursAt(s, sep, k)
  {
    match FindLast(s, sep)
    case None => None
    case Some(i) =>
      assert s == s[..i] + sep + s[i + |sep|..];
      Some((s[..i], s[i + |sep|..]))
  }

  /** The text after the last separator contains no separator. */
  lemma RSplitOnceAfter(s: string, sep: string)
    requires |sep| > 0 && RSplitOnce(s, sep).Some?
    ensures forall k :: !OccursAt(RSplitOnce(s, sep).value.1, sep, k)
  {
    var (a, b) := RSplitOnce(s, sep).value;
    forall k | 0 <= k && k + |sep| <= |b| ensures !OccursAt(b, sep, k) {
      assert !OccursAt(s, sep, |a| + |sep| + k);
      assert s[|a| + |sep| + k..|a| + |sep| + k + |sep|] == b[k..k + |sep|];
    }
  }

  /** The text before the first `c` contains no `c`. */
  lemma SplitOnceCharBefore(s: string, c: char)
    requires SplitOnce(s, [c]).Some?
    ensures c !in SplitOnce(s, [c]).value.0
  {
    var a := SplitOnce(s, [c]).value.0;
    forall k | 0 <= k < |a| ensures a[k] != c {
      assert !OccursAt(s, [c], k);
      assert s[k..k + 1] == [a[k]];
    }
  }

  /** A string with no split at `c` contains no `c`. */
  lemma SplitOnceCharNone(s: string, c: char)
    requires SplitOnce(s, [c]).None?
    ensures c !in s
  {
    forall k | 0 <= k < |s| ensures s[k] != c {
      assert !OccursAt(s, [c], k);
      assert s[k..k + 1] == [s[k]];
    }
  }

  /** `str::strip_prefix`. */
  function StripPrefix(s: string, prefix: string): (r: Option<string>)
    ensures r.Some? <==> prefix <= s
    ensures r.Some? ==> s == prefix + r.value
  {
    if prefix <= s then Some(s[|prefix|..]) else None
  }

  /** `str::strip_suffix`. */
  function StripSuffix(s: string, suffix: string): (r: Option<string>)
    ensures r.Some? <==> |suffix| <= |s| && s[|s| - |suffix|..] == suffix
    ensures r.Some? ==> s == r.value + suffix
  {
    if |suffix| <= |s| && s[|s| - |suffix|..] == suffix then Some(s[..|s| - |suffix|]) else None
  }

  /** A split is the first one as soon as `sep` starts nowhere inside its left part. */
  lemma SplitOnceAt(s: string, sep: string, a: string, b: string)
    requires s == a + sep + b
    requires forall k | k < |a| :: !OccursAt(s, sep, k)
    ensures SplitOnce(s, sep) == Some((a, b))
  {
    assert s[|a|..|a| + |sep|] == sep;
    assert OccursAt(s, sep, |a|);
    var r := SplitOnce(s, sep);
    var (x, y) := r.value;
    assert OccursAt(s, sep, |x|);
    assert |x| == |a|;
    assert x == s[..|a|] == a;
    assert y == s[|a| + |sep|..] == b;
  }

  /** A split is the last one as soon as `sep` starts nowhere after its left part. */
  lemma RSplitOnceAt(s: string, sep: string, a: string, b: string)
    requires s == a + sep + b
    requires forall k | k > |a| :: !OccursAt(s, sep, k)
    ensures RSplitOnce(s, sep) == Some((a, b))
  {
    assert s[|a|..|a| + |sep|] == sep;
    assert OccursAt(s, sep, |a|);
    var r := RSplitOnce(s, sep);
    var (x, y) := r.value;
    assert OccursAt(s, sep, |x|);
    assert |x| == |a|;
    assert x == s[..|a|] == a;
    assert y == s[|a| + |sep|..] == b;
  }

  /** With no `':'` after it, the `"::"` in `a + "::" + b` is the last one. */
  lemma RSplitOnceColons(a: string, b: string)
    requires ':' !in b
    ensures RSplitOnce(a + "::" + b, "::") == Some((a, b))
  {
    var s := a + "::" + b;
    forall k | k > |a| ensures !OccursAt(s, "::", k) {
      if k + 2 <= |s| {
        assert s[k + 1] == b[k + 1 - |a| - 2] != ':';
        assert s[k..k + 2][1] != ':';
      }
    }
    RSplitOnceAt(s, "::", a, b);
  }

  /** With no `c` in `a`, the one-character separator after `a` is the first `c`. */
  lemma SplitOnceChar(a: string, c: char, b: string)
    requires c !in a
    ensures SplitOnce(a + [c] + b, [c]) == Some((a, b))
  {
    var s := a + [c] + b;
    forall k | 0 <= k < |a| ensures !OccursAt(s, [c], k) {
      assert s[k] == a[k] != c;
      assert s[k..k + 1][0] != c;
    }
    SplitOnceAt(s, [c], a, b);
  }

  /** A string without `c` has no split at `c`. */
  lemma SplitOnceCharAbsent(s: string, c: char)
    requires c !in s
    ensures SplitOnce(s, [c]) == None
  {
    forall k | 0 <= k < |s| ensures !OccursAt(s, [c], k) {
      assert s[k] != c;
      assert s[k..k + 1][0] != c;
    }
  }
}
