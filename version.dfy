/**
 * Firmware versions (replicatorg.drivers.Version): an immutable pair of Java
 * ints ordered lexicographically, major number first.
 */
module Versions {
  import opened Common

  datatype Version = Version(major: Int32, minor: Int32)

  /** equals(Object) for an argument that is a Version: both numbers agree. */
  predicate Equals(v: Version, w: Version)
  {
    v.major == w.major && v.minor == w.minor
  }

  /** hashCode: major * 31 + minor in 32-bit wrap-around arithmetic. */
  function HashCode(v: Version): (h: Int32)
    ensures (h - (v.major * 31 + v.minor)) % TwoTo32 == 0
  {
    Wrap32(Wrap32(v.major * 31) + v.minor)
  }

  /** compareTo: 1 when `v` is newer, 0 when equal, -1 otherwise. */
  function CompareTo(v: Version, w: Version): (r: int)
    ensures r == -1 || r == 0 || r == 1
  {
    if v.major > w.major || (v.major == w.major && v.minor > w.minor) then 1
    else if Equals(v, w) then 0
    else -1
  }

  /** atLeast: compareTo(v) >= 0. */
  predicate AtLeast(v: Version, w: Version)
  {
    CompareTo(v, w) >= 0
  }

  /** toString: decimal major, '.', decimal minor. */
  function ToString(v: Version): (s: string)
    ensures |s| >= 3
  {
    IntString(v.major) + "." + IntString(v.minor)
  }

  /** The lexicographic order on (major, minor), stated independently of compareTo. */
  predicate LexBefore(v: Version, w: Version)
  {
    v.major < w.major || (v.major == w.major && v.minor < w.minor)
  }

  lemma EqualsIsValueEquality(v: Version, w: Version)
    ensures Equals(v, w) <==> v == w
  {
  }

  lemma CompareToIsLexicographic(v: Version, w: Version)
    ensures CompareTo(v, w) == 1 <==> LexBefore(w, v)
    ensures CompareTo(v, w) == 0 <==> Equals(v, w)
    ensures CompareTo(v, w) == -1 <==> LexBefore(v, w)
  {
  }

  lemma CompareToAntisymmetric(v: Version, w: Version)
    ensures CompareTo(v, w) == -CompareTo(w, v)
  {
  }

  lemma CompareToTransitive(u: Version, v: Version, w: Version)
    requires CompareTo(u, v) > 0 && CompareTo(v, w) > 0
    ensures CompareTo(u, w) > 0
  {
  }

  lemma AtLeastReflexive(v: Version)
    ensures AtLeast(v, v)
  {
  }

  lemma AtLeastTransitive(u: Version, v: Version, w: Version)
    requires AtLeast(u, v) && AtLeast(v, w)
    ensures AtLeast(u, w)
  {
  }

  /** Equal versions hash alike; without overflow the hash is major * 31 + minor. */
  lemma HashCodeConsistent(v: Version, w: Version)
    requires Equals(v, w)
    ensures HashCode(v) == HashCode(w)
    ensures -TwoTo31 <= v.major * 31 < TwoTo31 && -TwoTo31 <= v.major * 31 + v.minor < TwoTo31
            ==> HashCode(v) == v.major * 31 + v.minor
  {
  }

  /** Distinct versions print differently, so toString loses nothing. */
  lemma {:induction false} ToStringInjective(v: Version, w: Version)
    requires ToString(v) == ToString(w)
    ensures v == w
  {
    var s := ToString(v);
    var a, b := IntString(v.major), IntString(w.major);
    NoDotInIntString(v.major);
    NoDotInIntString(w.major);
    NoDotInIntString(v.minor);
    NoDotInIntString(w.minor);
    assert s[|a|] == '.' && '.' !in s[..|a|];
    assert ToString(w)[|b|] == '.' && '.' !in ToString(w)[..|b|];
    assert |a| == |b| by {
      if |a| < |b| {
        assert false;
      } else if |b| < |a| {
        assert false;
      }
    }
    assert a == s[..|a|] == ToString(w)[..|b|] == b;
    IntStringInjective(v.major, w.major);
    assert IntString(v.minor) == s[|a| + 1..] == ToString(w)[|b| + 1..] == IntString(w.minor);
    IntStringInjective(v.minor, w.minor);
  }

  lemma NoDotInIntString(n: int)
    ensures '.' !in IntString(n)
  {
    var s := IntString(n);
    forall k | 0 <= k < |s| ensures s[k] != '.' {
      if n < 0 && k > 0 {
        assert s[k] == NatString(-n)[k - 1];
      }
    }
  }
}
