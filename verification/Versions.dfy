/**
 Comparing dotted version strings, as the Node.js version gate does: components are
 numbers, and a missing or unreadable component counts as zero.
 */
module Versions {

  /** What `Number` makes of one component. */
  datatype Part = NaN | MinusInfinity | Finite(value: real) | Infinity

  const ZERO := Finite(0.0)

  predicate Less(a: Part, b: Part) {
    match (a, b)
    case (Finite(x), Finite(y)) => x < y
    case (MinusInfinity, Finite(_)) => true
    case (MinusInfinity, Infinity) => true
    case (Finite(_), Infinity) => true
    case _ => false
  }

  /** `parts[i] || 0` */
  function At(parts: seq<Part>, i: nat): (part: Part)
    ensures part != NaN
  {
    if i < |parts| && parts[i] != NaN then parts[i] else ZERO
  }

  // ----- the order the gate is meant to use -----

  predicate AgreeBelow(a: seq<Part>, b: seq<Part>, i: nat) {
    forall j :: 0 <= j < i ==> At(a, j) == At(b, j)
  }

  predicate Decides(a: seq<Part>, b: seq<Part>, i: nat) {
    AgreeBelow(a, b, i) && Less(At(a, i), At(b, i))
  }

  /** Lexicographic, over the zero-padded components. */
  ghost predicate Earlier(a: seq<Part>, b: seq<Part>) { exists i: nat :: Decides(a, b, i) }

  ghost predicate Same(a: seq<Part>, b: seq<Part>) { forall i: nat :: At(a, i) == At(b, i) }

  method CompareVersions(a: seq<Part>, b: seq<Part>) returns (sign: int)
    ensures sign == -1 || sign == 0 || sign == 1
    ensures sign == -1 <==> Earlier(a, b)
    ensures sign == 1 <==> Earlier(b, a)
    ensures sign == 0 <==> Same(a, b)
  {
    var length := if |a| > |b| then |a| else |b|;
    for i := 0 to length
      invariant AgreeBelow(a, b, i)
    {
      if Less(At(b, i), At(a, i)) {
        assert Decides(b, a, i);
        OnlyOneHolds(b, a);
        return 1;
      }
      if Less(At(a, i), At(b, i)) {
        assert Decides(a, b, i);
        OnlyOneHolds(a, b);
        return -1;
      }
    }
    assert Same(a, b);
    return 0;
  }

  /** A version is not earlier than one that is earlier than it, nor than its equal. */
  lemma OnlyOneHolds(a: seq<Part>, b: seq<Part>)
    requires Earlier(a, b)
    ensures !Earlier(b, a) && !Same(a, b) && !Same(b, a)
  {
    var i: nat :| Decides(a, b, i);
    forall k: nat ensures !Decides(b, a, k) {
      assert k < i ==> At(a, k) == At(b, k);
      assert k > i && AgreeBelow(b, a, k) ==> At(b, i) == At(a, i);
    }
    assert At(a, i) != At(b, i) && At(b, i) != At(a, i);
  }

  lemma EarlierIsTransitive(a: seq<Part>, b: seq<Part>, c: seq<Part>)
    requires Earlier(a, b) && Earlier(b, c)
    ensures Earlier(a, c)
  {
    var i: nat :| Decides(a, b, i);
    var j: nat :| Decides(b, c, j);
    var k := if i < j then i else j;
    assert Decides(a, c, k) by {
      forall m | 0 <= m < k ensures At(a, m) == At(c, m) {
        assert At(a, m) == At(b, m) && At(b, m) == At(c, m);
      }
      assert i < j ==> At(b, i) == At(c, i);
      assert j < i ==> At(a, j) == At(b, j);
    }
  }

  /** Equal versions are interchangeable on either side of a comparison. */
  lemma SameIsACongruence(a: seq<Part>, b: seq<Part>, c: seq<Part>)
    requires Same(a, b)
    ensures Earlier(a, c) <==> Earlier(b, c)
    ensures Earlier(c, a) <==> Earlier(c, b)
    ensures Same(a, c) <==> Same(b, c)
  {
    forall i: nat
      ensures Decides(a, c, i) <==> Decides(b, c, i)
      ensures Decides(c, a, i) <==> Decides(c, b, i)
    {
      forall j: nat ensures At(a, j) == At(b, j) {
      }
    }
    forall i: nat ensures At(a, i) == At(b, i) {
    }
  }

  // ----- when two versions are the same -----

  function Read(parts: seq<Part>): (read: seq<Part>)
    ensures |read| == |parts| && forall i :: 0 <= i < |parts| ==> read[i] == At(parts, i)
  {
    seq(|parts|, i requires 0 <= i < |parts| => At(parts, i))
  }

  function WithoutTrailingZeros(parts: seq<Part>): seq<Part> {
    if parts != [] && parts[|parts| - 1] == ZERO
    then WithoutTrailingZeros(parts[..|parts| - 1])
    else parts
  }

  function Canonical(parts: seq<Part>): seq<Part> { WithoutTrailingZeros(Read(parts)) }

  lemma {:induction false} TrimKeepsValue(parts: seq<Part>)
    requires NaN !in parts
    ensures var trimmed := WithoutTrailingZeros(parts);
            && trimmed <= parts && Same(parts, trimmed)
            && (trimmed == [] || trimmed[|trimmed| - 1] != ZERO)
  {
    if parts != [] && parts[|parts| - 1] == ZERO {
      TrimKeepsValue(parts[..|parts| - 1]);
      forall i: nat ensures At(parts, i) == At(WithoutTrailingZeros(parts), i) {
        assert At(parts, i) == At(parts[..|parts| - 1], i);
      }
    }
  }

  lemma CanonicalKeepsValue(parts: seq<Part>)
    ensures var canonical := Canonical(parts);
            && Same(parts, canonical) && NaN !in canonical
            && (canonical == [] || canonical[|canonical| - 1] != ZERO)
  {
    var read := Read(parts);
    TrimKeepsValue(read);
    forall i: nat ensures At(parts, i) == At(Canonical(parts), i) {
      assert At(parts, i) == At(read, i);
    }
  }

  /** Versions compare equal exactly when they agree once trailing zeros are dropped. */
  lemma SameExactlyWhenCanonicalsAgree(a: seq<Part>, b: seq<Part>)
    ensures Same(a, b) <==> Canonical(a) == Canonical(b)
  {
    CanonicalKeepsValue(a);
    CanonicalKeepsValue(b);
    var x, y := Canonical(a), Canonical(b);
    if x == y {
      forall i: nat ensures At(a, i) == At(b, i) {
        assert At(a, i) == At(x, i) && At(b, i) == At(y, i);
      }
    }
    if Same(a, b) {
      forall i: nat ensures At(x, i) == At(y, i) {
        assert At(a, i) == At(x, i) && At(b, i) == At(y, i) && At(a, i) == At(b, i);
      }
      SameLength(x, y);
      SameLength(y, x);
      forall i | 0 <= i < |x| ensures x[i] == y[i] {
        assert At(x, i) == At(y, i);
      }
    }
  }

  lemma SameLength(x: seq<Part>, y: seq<Part>)
    requires Same(x, y) && NaN !in x
    requires x == [] || x[|x| - 1] != ZERO
    ensures |x| <= |y|
  {
    if x != [] {
      assert At(x, |x| - 1) == At(y, |x| - 1);
    }
  }
}
