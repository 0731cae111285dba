/** The order `localeCompare` gives to service-zone ids.  Ids are lower-case UUIDs: hexadecimal
    digits and hyphens at fixed places, on which the collation is the plain lexicographic order. */
module Collation {

  predicate Precedes(a: string, b: string) {
    if |b| == 0 then false
    else if |a| == 0 then true
    else a[0] < b[0] || (a[0] == b[0] && Precedes(a[1..], b[1..]))
  }

  lemma {:induction false} Irreflexive(a: string)
    ensures !Precedes(a, a)
  {
    if |a| > 0 {
      Irreflexive(a[1..]);
    }
  }

  lemma {:induction false} Transitive(a: string, b: string, c: string)
    requires Precedes(a, b) && Precedes(b, c)
    ensures Precedes(a, c)
  {
    if |a| > 0 && a[0] == b[0] && b[0] == c[0] {
      Transitive(a[1..], b[1..], c[1..]);
    }
  }

  /** Two different ids never compare equal, so the tie-break leaves no tie. */
  lemma {:induction false} Connected(a: string, b: string)
    ensures a == b || Precedes(a, b) || Precedes(b, a)
  {
    if |a| > 0 && |b| > 0 && a[0] == b[0] {
      Connected(a[1..], b[1..]);
      if a[1..] == b[1..] {
        assert a == [a[0]] + a[1..] && b == [b[0]] + b[1..];
      }
    }
  }

  /** The ids agree up to place k, where the first has ended or has the smaller character. */
  predicate SmallerAt(a: string, b: string, k: nat) {
    k <= |a| && k < |b| && a[..k] == b[..k] && (k == |a| || a[k] < b[k])
  }

  ghost predicate ComesFirst(a: string, b: string) {
    exists k: nat :: SmallerAt(a, b, k)
  }

  /** The first character in which two ids differ decides which comes first. */
  lemma {:induction false} FirstDifferenceDecides(a: string, b: string)
    ensures Precedes(a, b) <==> ComesFirst(a, b)
  {
    if |a| == 0 || |b| == 0 || a[0] != b[0] {
      assert Precedes(a, b) ==> SmallerAt(a, b, 0);
      assert forall k: nat :: k > 0 && SmallerAt(a, b, k) ==> a[..k][0] == b[..k][0];
    } else {
      FirstDifferenceDecides(a[1..], b[1..]);
      if Precedes(a[1..], b[1..]) {
        var k: nat :| SmallerAt(a[1..], b[1..], k);
        assert a[..k + 1] == [a[0]] + a[1..][..k] && b[..k + 1] == [b[0]] + b[1..][..k];
        assert SmallerAt(a, b, k + 1);
      }
      if ComesFirst(a, b) {
        var k: nat :| SmallerAt(a, b, k);
        assert a[1..][..k - 1] == a[..k][1..] && b[1..][..k - 1] == b[..k][1..];
        assert SmallerAt(a[1..], b[1..], k - 1);
      }
    }
  }
}
