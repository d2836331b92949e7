/**
 * The few Python string operations the scripts rely on, on `string`
 * (`seq<char>`): `str.startswith`, `str.endswith`, `str.replace`,
 * `str.split` with an explicit separator, and `sep.join`.
 * `ReplaceAll` and `Split` scan left to right and take the leftmost,
 * non-overlapping occurrences, as CPython does.
 */
module Text {

  predicate StartsWith(s: string, p: string)
  {
    |p| <= |s| && s[..|p|] == p
  }

  predicate EndsWith(s: string, p: string)
  {
    |p| <= |s| && s[|s| - |p|..] == p
  }

  /** `p` occurs in `s` starting at index `i`. */
  predicate OccursAt(s: string, p: string, i: nat)
  {
    i + |p| <= |s| && s[i..i + |p|] == p
  }

  /** `s` contains no occurrence of `p`. */
  predicate Free(s: string, p: string)
  {
    forall i: nat | i <= |s| :: !OccursAt(s, p, i)
  }

  /** No proper prefix of `p` is also a suffix of it, so two occurrences of `p` never overlap. */
  predicate BorderFree(p: string)
  {
    forall k | 0 < k < |p| :: p[..k] != p[|p| - k..]
  }

  /** No occurrence of `p` in `a + b` starts inside `a` and ends inside `b`. */
  predicate NoStraddle(a: string, b: string, p: string)
  {
    forall i: nat | i < |a| < i + |p| :: !OccursAt(a + b, p, i)
  }

  /** Python's `s.replace(p, r)` for a non-empty pattern. */
  function ReplaceAll(s: string, p: string, r: string): string
    requires p != []
    decreases |s|
  {
    if StartsWith(s, p) then r + ReplaceAll(s[|p|..], p, r)
    else if s == [] then []
    else [s[0]] + ReplaceAll(s[1..], p, r)
  }

  /** Python's `s.split(p)` for a non-empty separator: always at least one field. */
  function Split(s: string, p: string): (fields: seq<string>)
    requires p != []
    ensures |fields| >= 1
    decreases |s|
  {
    if StartsWith(s, p) then [[]] + Split(s[|p|..], p)
    else if s == [] then [[]]
    else
      var rest := Split(s[1..], p);
      [[s[0]] + rest[0]] + rest[1..]
  }

  /** Python's `sep.join(fields)` for a non-empty list of fields. */
  function Join(fields: seq<string>, sep: string): string
    requires |fields| >= 1
    decreases |fields|
  {
    if |fields| == 1 then fields[0] else fields[0] + sep + Join(fields[1..], sep)
  }

  lemma JoinConsHead(c: char, fields: seq<string>, sep: string)
    requires |fields| >= 1
    ensures Join([[c] + fields[0]] + fields[1..], sep) == [c] + Join(fields, sep)
  {
    var g := [[c] + fields[0]] + fields[1..];
    assert g[1..] == fields[1..];
  }

  lemma JoinEmptyHead(fields: seq<string>, sep: string)
    requires |fields| >= 1
    ensures Join([[]] + fields, sep) == sep + Join(fields, sep)
  {
    assert ([[]] + fields)[1..] == fields;
  }

  /** Splitting and joining with the same separator gives back the string. */
  lemma {:induction false} SplitJoin(s: string, p: string)
    requires p != []
    ensures Join(Split(s, p), p) == s
    decreases |s|
  {
    if StartsWith(s, p) {
      var tail := Split(s[|p|..], p);
      SplitJoin(s[|p|..], p);
      assert Split(s, p) == [[]] + tail;
      JoinEmptyHead(tail, p);
      assert s == p + s[|p|..];
    } else if s != [] {
      var rest := Split(s[1..], p);
      SplitJoin(s[1..], p);
      assert Split(s, p) == [[s[0]] + rest[0]] + rest[1..];
      JoinConsHead(s[0], rest, p);
      assert s == [s[0]] + s[1..];
    }
  }

  /** `replace` is `split` followed by `join` with the replacement. */
  lemma {:induction false} ReplaceIsSplitJoin(s: string, p: string, r: string)
    requires p != []
    ensures ReplaceAll(s, p, r) == Join(Split(s, p), r)
    decreases |s|
  {
    if StartsWith(s, p) {
      ReplaceIsSplitJoin(s[|p|..], p, r);
      var fields := Split(s, p);
      assert fields[1..] == Split(s[|p|..], p);
    } else if s == [] {
    } else {
      ReplaceIsSplitJoin(s[1..], p, r);
      JoinConsHead(s[0], Split(s[1..], p), r);
    }
  }

  /** The first field of a split is a prefix of the string. */
  lemma FirstFieldIsPrefix(s: string, p: string)
    requires p != []
    ensures |Split(s, p)[0]| <= |s| && s[..|Split(s, p)[0]|] == Split(s, p)[0]
  {
    var fields := Split(s, p);
    SplitJoin(s, p);
    if |fields| > 1 {
      assert s == fields[0] + (p + Join(fields[1..], p));
    }
  }

  /** The empty string holds no occurrence of a non-empty pattern. */
  lemma EmptyFree(p: string)
    requires p != []
    ensures Free([], p)
  {
    forall i: nat | i <= 0 ensures !OccursAt([], p, i) { }
  }

  /**
   * A character followed by a separator-free string is separator-free when
   * the two start a string that does not start with the separator.
   */
  lemma ConsFree(c: char, t: string, s: string, p: string)
    requires p != [] && Free(t, p) && !StartsWith(s, p)
    requires 1 + |t| <= |s| && s[..1 + |t|] == [c] + t
    ensures Free([c] + t, p)
  {
    var head := [c] + t;
    assert head[1..] == t;
    forall i: nat | i <= |head| ensures !OccursAt(head, p, i) {
      if i == 0 {
        if |p| <= |head| {
          assert s[..|p|] == head[..|p|];
        }
      } else {
        assert !OccursAt(t, p, i - 1);
        if i + |p| <= |head| {
          SliceOfDrop(head, 1, i - 1, |p|);
        }
      }
    }
  }

  /** No field of a split contains the separator. */
  lemma {:induction false} SplitFieldsFree(s: string, p: string)
    requires p != []
    ensures forall j | 0 <= j < |Split(s, p)| :: Free(Split(s, p)[j], p)
    decreases |s|
  {
    var fields := Split(s, p);
    EmptyFree(p);
    if StartsWith(s, p) {
      var tail := Split(s[|p|..], p);
      SplitFieldsFree(s[|p|..], p);
      assert fields == [[]] + tail;
      assert forall j | 1 <= j < |fields| :: fields[j] == tail[j - 1];
    } else if s != [] {
      var rest := Split(s[1..], p);
      SplitFieldsFree(s[1..], p);
      FirstFieldIsPrefix(s[1..], p);
      assert fields == [[s[0]] + rest[0]] + rest[1..];
      assert s[..1 + |rest[0]|] == [s[0]] + rest[0];
      ConsFree(s[0], rest[0], s, p);
      assert forall j | 1 <= j < |fields| :: fields[j] == rest[j];
    }
  }

  /** A string with no occurrence of `p` is left alone by `replace`. */
  lemma {:induction false} ReplaceAllFree(s: string, p: string, r: string)
    requires p != [] && Free(s, p)
    ensures ReplaceAll(s, p, r) == s
    decreases |s|
  {
    assert !OccursAt(s, p, 0);
    if s != [] {
      forall i: nat | i <= |s[1..]| ensures !OccursAt(s[1..], p, i) {
        assert !OccursAt(s, p, i + 1);
        if i + 1 + |p| <= |s| {
          SliceOfDrop(s, 1, i, |p|);
        }
      }
      ReplaceAllFree(s[1..], p, r);
    }
  }

  /** A string that lacks the first character of `p` has no occurrence of `p`. */
  lemma FreeWithoutHead(s: string, p: string)
    requires p != [] && p[0] !in s
    ensures Free(s, p)
  {
    forall i: nat | i <= |s| ensures !OccursAt(s, p, i) {
      if i + |p| <= |s| {
        assert s[i] == s[i..i + |p|][0];
      }
    }
  }

  /** Length bounds of `replace`: it keeps the length when pattern and replacement are equally long, and never shrinks a string when the replacement is at least as long. */
  lemma {:induction false} ReplaceAllLength(s: string, p: string, r: string)
    requires p != [] && |p| <= |r|
    ensures |s| <= |ReplaceAll(s, p, r)|
    ensures |p| == |r| ==> |ReplaceAll(s, p, r)| == |s|
    decreases |s|
  {
    if StartsWith(s, p) {
      ReplaceAllLength(s[|p|..], p, r);
    } else if s != [] {
      ReplaceAllLength(s[1..], p, r);
    }
  }

  /** A slice of a suffix is a slice of the whole, shifted. */
  lemma SliceOfDrop(s: string, d: nat, i: nat, n: nat)
    requires d + i + n <= |s|
    ensures s[d..][i..i + n] == s[d + i..d + i + n]
  {
  }

  /** Dropping a prefix of `a` keeps the seam free of straddling occurrences. */
  lemma NoStraddleDrop(a: string, b: string, p: string, d: nat)
    requires d <= |a| && NoStraddle(a, b, p)
    ensures NoStraddle(a[d..], b, p)
  {
    assert (a + b)[d..] == a[d..] + b;
    forall i: nat | i < |a[d..]| < i + |p| ensures !OccursAt(a[d..] + b, p, i) {
      assert !OccursAt(a + b, p, i + d);
      if i + |p| <= |a[d..] + b| {
        SliceOfDrop(a + b, d, i, |p|);
      }
    }
  }

  /** Whether `a + b` starts with `p` is decided by `a` alone when no occurrence at 0 straddles the seam. */
  lemma StartsWithAppend(a: string, b: string, p: string)
    requires a != [] && NoStraddle(a, b, p)
    ensures StartsWith(a + b, p) <==> StartsWith(a, p)
  {
    if |p| <= |a| {
      assert (a + b)[..|p|] == a[..|p|];
    } else {
      assert !OccursAt(a + b, p, 0);
    }
  }

  /** When no occurrence straddles the seam, `replace` works on the two halves separately. */
  lemma {:induction false} ReplaceAllAppend(a: string, b: string, p: string, r: string)
    requires p != [] && NoStraddle(a, b, p)
    ensures ReplaceAll(a + b, p, r) == ReplaceAll(a, p, r) + ReplaceAll(b, p, r)
    decreases |a|
  {
    if a == [] {
      assert a + b == b;
    } else {
      StartsWithAppend(a, b, p);
      var d := if StartsWith(a, p) then |p| else 1;
      var head := if StartsWith(a, p) then r else [a[0]];
      assert (a + b)[d..] == a[d..] + b;
      assert ReplaceAll(a + b, p, r) == head + ReplaceAll(a[d..] + b, p, r);
      assert ReplaceAll(a, p, r) == head + ReplaceAll(a[d..], p, r);
      NoStraddleDrop(a, b, p, d);
      ReplaceAllAppend(a[d..], b, p, r);
    }
  }

  lemma DropConcat(x: string, y: string)
    ensures (x + y)[|x|..] == y
  {
  }

  /** A window of `t + p` that starts in `t` and ends in `p` is a suffix of `t` followed by a prefix of `p`. */
  lemma SliceAcrossSeam(t: string, p: string, i: nat, n: nat)
    requires i <= |t| <= i + n <= |t| + |p|
    ensures (t + p)[i..i + n] == t[i..] + p[..i + n - |t|]
  {
  }

  /** A string ending with a border-free pattern ends, after `replace`, with the replacement. */
  lemma ReplaceAllSuffix(t: string, p: string, r: string)
    requires p != [] && BorderFree(p)
    ensures ReplaceAll(t + p, p, r) == ReplaceAll(t, p, r) + r
  {
    forall i: nat | i < |t| < i + |p| ensures !OccursAt(t + p, p, i) {
      var k := |t| - i;
      var m := |p| - k;
      var w := (t + p)[i..i + |p|];
      SliceAcrossSeam(t, p, i, |p|);
      DropConcat(t[i..], p[..m]);
      assert w[k..] == p[..m];
      assert p[..m] != p[k..];
      assert w != p;
    }
    ReplaceAllAppend(t, p, p, r);
    assert StartsWith(p, p);
    assert p[|p|..] == [];
  }
}
