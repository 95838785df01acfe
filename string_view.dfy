/** String views: a borrowed span of characters, compared by content only.
    A view is modelled by the characters it spans; characters compare by their
    code, as the C library compares bytes. */
module StringView {

  /** Whether the first k characters of a and b agree, compared one by one from the front. */
  function SamePrefix(a: seq<char>, b: seq<char>, k: nat): (r: bool)
    requires k <= |a| && k <= |b|
    ensures r <==> a[..k] == b[..k]
  {
    if k == 0 then true
    else
      assert a[..k] == [a[0]] + a[1..][..k - 1];
      assert b[..k] == [b[0]] + b[1..][..k - 1];
      a[0] == b[0] && SamePrefix(a[1..], b[1..], k - 1)
  }

  /** lxl_sv_equal: two views are equal when they have the same length and the same characters. */
  function Equal(a: seq<char>, b: seq<char>): (r: bool)
    ensures r <==> a == b
  {
    |a| == |b| && SamePrefix(a, b, |a|)
  }

  /** lxl_sv_compare: three-way lexicographic comparison, normalised to -1, 0 or 1.
      The first differing character decides; otherwise the shorter view comes first. */
  function Compare(a: seq<char>, b: seq<char>): (r: int)
    ensures r == -1 || r == 0 || r == 1
  {
    if a == [] && b == [] then 0
    else if a == [] then -1
    else if b == [] then 1
    else if a[0] < b[0] then -1
    else if a[0] > b[0] then 1
    else Compare(a[1..], b[1..])
  }

  /** Reference definition of the strict lexicographic order: a is a proper prefix of b,
      or at the first position where they differ a has the smaller character. */
  ghost predicate LexLess(a: seq<char>, b: seq<char>)
  {
    (|a| < |b| && a == b[..|a|]) ||
    (exists i :: 0 <= i < |a| && i < |b| && a[..i] == b[..i] && a[i] < b[i])
  }

  /** Compare is 0 exactly on views with identical contents, so it agrees with Equal. */
  lemma {:induction false} CompareZeroIffEqual(a: seq<char>, b: seq<char>)
    ensures Compare(a, b) == 0 <==> a == b
    ensures Compare(a, b) == 0 <==> Equal(a, b)
  {
    if a != [] && b != [] && a[0] == b[0] {
      CompareZeroIffEqual(a[1..], b[1..]);
      assert a == [a[0]] + a[1..] && b == [b[0]] + b[1..];
    }
  }

  /** Swapping the arguments negates the result. */
  lemma {:induction false} CompareAntisymmetric(a: seq<char>, b: seq<char>)
    ensures Compare(b, a) == -Compare(a, b)
  {
    if a != [] && b != [] && a[0] == b[0] {
      CompareAntisymmetric(a[1..], b[1..]);
    }
  }

  /** Compare returns -1 exactly when a precedes b in the lexicographic order. */
  lemma {:induction false} CompareNegativeIffLess(a: seq<char>, b: seq<char>)
    ensures Compare(a, b) == -1 <==> LexLess(a, b)
  {
    if a == [] && b == [] {
    } else if a == [] {
      assert a == b[..0];
    } else if b == [] {
    } else if a[0] < b[0] {
      assert a[..0] == b[..0];
    } else if a[0] > b[0] {
    } else {
      CompareNegativeIffLess(a[1..], b[1..]);
      if LexLess(a[1..], b[1..]) {
        if |a[1..]| < |b[1..]| && a[1..] == b[1..][..|a[1..]|] {
          assert a == [a[0]] + a[1..] && b[..|a|] == [b[0]] + b[1..][..|a[1..]|];
        } else {
          var i :| 0 <= i < |a[1..]| && i < |b[1..]| && a[1..][..i] == b[1..][..i] && a[1..][i] < b[1..][i];
          assert a[..i + 1] == [a[0]] + a[1..][..i];
          assert b[..i + 1] == [b[0]] + b[1..][..i];
          assert a[i + 1] < b[i + 1];
        }
      }
      if LexLess(a, b) {
        if |a| < |b| && a == b[..|a|] {
          assert a[1..] == b[1..][..|a[1..]|];
        } else {
          var i :| 0 <= i < |a| && i < |b| && a[..i] == b[..i] && a[i] < b[i];
          assert i != 0;
          assert a[1..][..i - 1] == a[..i][1..] == b[..i][1..] == b[1..][..i - 1];
          assert a[1..][i - 1] < b[1..][i - 1];
        }
      }
    }
  }

  /** Compare returns 1 exactly when b precedes a: the mirror of CompareNegativeIffLess. */
  lemma ComparePositiveIffGreater(a: seq<char>, b: seq<char>)
    ensures Compare(a, b) == 1 <==> LexLess(b, a)
  {
    CompareAntisymmetric(a, b);
    CompareNegativeIffLess(b, a);
  }

  /** The order Compare induces is transitive. */
  lemma {:induction false} CompareTransitive(a: seq<char>, b: seq<char>, c: seq<char>)
    requires Compare(a, b) == -1 && Compare(b, c) == -1
    ensures Compare(a, c) == -1
  {
    if a != [] && b != [] && c != [] && a[0] == b[0] && b[0] == c[0] {
      CompareTransitive(a[1..], b[1..], c[1..]);
    }
  }

  /** The expected outputs of the string-view test program. */
  lemma StringViewTestCases()
    ensures Equal("abc", "abc")
    ensures !Equal("abc", "cba")
    ensures Compare("ab", "abc") == -1
    ensures Compare("ab", "a") == 1
    ensures Compare("abc", "abc") == 0
    ensures Compare("ab", "b") == -1
    ensures Compare("a", "b") == -1
  {
  }
}
