/**
 * Plugin versions and PHP's `version_compare` restricted to purely numeric
 * dotted versions: `'1.3'` is the sequence [1, 3].
 */
module Versions {

  type Version = seq<nat>

  /** What `get_option` yields when the version option was never stored: `'0'`. */
  const DefaultVersion: Version := [0]

  /** The version whose cache format the migration establishes: `'1.3'`. */
  const CurrentVersion: Version := [1, 3]

  /**
   * `version_compare(a, b)`: parts are compared numerically from the left;
   * when one version runs out first, the one with a numeric part left over is
   * the greater (so `'1.3' < '1.3.0'`; there is no zero padding).
   */
  function Compare(a: Version, b: Version): (r: int)
    ensures -1 <= r <= 1
  {
    if a == [] && b == [] then 0
    else if a == [] then -1
    else if b == [] then 1
    else if a[0] < b[0] then -1
    else if a[0] > b[0] then 1
    else Compare(a[1..], b[1..])
  }

  /** `version_compare(a, b, '<')`. */
  predicate Less(a: Version, b: Version) {
    Compare(a, b) < 0
  }

  /** Lexicographic order, stated directly: `a` is a proper prefix of `b`, or is smaller at the first difference. */
  predicate LexLess(a: Version, b: Version) {
    (|a| < |b| && a == b[..|a|]) ||
    exists i :: 0 <= i < |a| && i < |b| && a[..i] == b[..i] && a[i] < b[i]
  }

  lemma {:induction false} LessIsLexLess(a: Version, b: Version)
    ensures Less(a, b) <==> LexLess(a, b)
    decreases |a|
  {
    if a == [] || b == [] {
    } else if a[0] < b[0] {
      assert a[..0] == b[..0];
    } else if a[0] > b[0] {
    } else {
      var a', b' := a[1..], b[1..];
      LessIsLexLess(a', b');
      if LexLess(a', b') {
        if |a'| < |b'| && a' == b'[..|a'|] {
          assert b[..|a|] == [b[0]] + b'[..|a'|];
          assert a == b[..|a|];
        } else {
          var i :| 0 <= i < |a'| && i < |b'| && a'[..i] == b'[..i] && a'[i] < b'[i];
          assert a[..i + 1] == [a[0]] + a'[..i] && b[..i + 1] == [b[0]] + b'[..i];
          assert a[i + 1] == a'[i] && b[i + 1] == b'[i];
        }
      }
      if LexLess(a, b) {
        if |a| < |b| && a == b[..|a|] {
          assert a' == a[1..] == b[..|a|][1..] == b'[..|a'|];
        } else {
          var i :| 0 <= i < |a| && i < |b| && a[..i] == b[..i] && a[i] < b[i];
          assert i > 0;
          assert a'[..i - 1] == a[..i][1..] && b'[..i - 1] == b[..i][1..];
          assert a'[i - 1] == a[i] && b'[i - 1] == b[i];
        }
      }
    }
  }

  /** Swapping the arguments negates the answer. */
  lemma {:induction false} CompareAntisymmetric(a: Version, b: Version)
    ensures Compare(a, b) == -Compare(b, a)
    decreases |a|
  {
    if a != [] && b != [] && a[0] == b[0] {
      CompareAntisymmetric(a[1..], b[1..]);
    }
  }

  /** Two versions compare equal exactly when they are the same sequence of parts. */
  lemma {:induction false} CompareZeroIffEqual(a: Version, b: Version)
    ensures Compare(a, b) == 0 <==> a == b
    decreases |a|
  {
    if a != [] && b != [] && a[0] == b[0] {
      CompareZeroIffEqual(a[1..], b[1..]);
      assert a == [a[0]] + a[1..] && b == [b[0]] + b[1..];
    }
  }

  lemma {:induction false} LessTransitive(a: Version, b: Version, c: Version)
    requires Less(a, b) && Less(b, c)
    ensures Less(a, c)
    decreases |a|
  {
    if a != [] && b != [] && c != [] && a[0] == b[0] == c[0] {
      LessTransitive(a[1..], b[1..], c[1..]);
    }
  }

  /** The migration gate: exactly the versions `'0…'`, `'1'` and `'1.0…'`–`'1.2…'` lie below `'1.3'`. */
  lemma BelowCurrent(v: Version)
    ensures Less(v, CurrentVersion) <==> v == [] || v[0] == 0 || (v[0] == 1 && (|v| == 1 || v[1] < 3))
  {
    if v != [] && v[0] == 1 {
      assert Compare(v, CurrentVersion) == Compare(v[1..], [3]);
      if |v| >= 2 && v[1] == 3 {
        assert Compare(v[1..], [3]) == Compare(v[2..], []);
      }
    }
  }
}
