/** Vocabulary shared by every component: identifiers, times, optional values, and the
    order in which JavaScript's `sort` puts two identifiers. */
module Base {

  datatype Option<+T> = None | Some(value: T)

  /** A cuid. Fresh ones arrive as parameters; the generator never repeats an issued one. */
  type Id = string

  /** Milliseconds since the epoch, the precision of the store's TIMESTAMP(3) columns. */
  type Time = int

  /** Lexicographic order on character codes. */
  predicate Before(a: Id, b: Id) {
    |b| != 0 && (|a| == 0 || a[0] < b[0] || (a[0] == b[0] && Before(a[1..], b[1..])))
  }

  /** Two ids in the order `[a, b].sort()` leaves them. */
  function Sorted(a: Id, b: Id): (Id, Id) {
    if Before(b, a) then (b, a) else (a, b)
  }

  lemma {:induction false} BeforeIsTotal(a: Id, b: Id)
    ensures Before(a, b) || a == b || Before(b, a)
    ensures !(Before(a, b) && Before(b, a))
    ensures !Before(a, a)
  {
    if |a| != 0 && |b| != 0 {
      BeforeIsTotal(a[1..], b[1..]);
      assert a == [a[0]] + a[1..] && b == [b[0]] + b[1..];
    }
    if |a| != 0 {
      BeforeIsTotal(a[1..], a[1..]);
    }
  }

  /** `a` and `b` agree up to `k`, where `a` ends first or has the smaller character. */
  predicate DiffersAt(a: Id, b: Id, k: int) {
    && 0 <= k <= |a| && k < |b| && a[..k] == b[..k]
    && (k == |a| || a[k] < b[k])
  }

  /** The order is the lexicographic one. */
  lemma {:induction false} BeforeIsLexicographic(a: Id, b: Id)
    ensures Before(a, b) <==> exists k :: DiffersAt(a, b, k)
  {
    forall k | DiffersAt(a, b, k) && k > 0 ensures |a| > 0 && |b| > 0 && a[0] == b[0] {
      assert a[..k][0] == b[..k][0];
    }
    if |a| == 0 || |b| == 0 || a[0] != b[0] {
      assert Before(a, b) ==> DiffersAt(a, b, 0);
    } else {
      BeforeIsLexicographic(a[1..], b[1..]);
      if Before(a, b) {
        var k :| DiffersAt(a[1..], b[1..], k);
        assert a == [a[0]] + a[1..] && b == [b[0]] + b[1..];
        assert a[..k + 1] == [a[0]] + a[1..][..k] && b[..k + 1] == [b[0]] + b[1..][..k];
        assert DiffersAt(a, b, k + 1);
      }
      if k :| DiffersAt(a, b, k) {
        assert k > 0 && a[1..][..k - 1] == a[..k][1..] && b[1..][..k - 1] == b[..k][1..];
        assert DiffersAt(a[1..], b[1..], k - 1);
      }
    }
  }

  /** Sorting turns an ordered key into an unordered one: both users of a pair compute the same key. */
  lemma SortedForgetsOrder(a: Id, b: Id)
    ensures Sorted(a, b) == Sorted(b, a)
    ensures Sorted(a, b) == (a, b) || Sorted(a, b) == (b, a)
    ensures a != b ==> Before(Sorted(a, b).0, Sorted(a, b).1)
  {
    BeforeIsTotal(a, b);
  }
}
