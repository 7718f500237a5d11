/** Stock datatypes and the arithmetic of instants that are kept apart by a minimum gap. */
module Common {

  datatype Option<+T> = None | Some(value: T)

  /** The unit of time is the nanosecond, as in Go's time.Duration. */
  const SECOND: int := 1_000_000_000

  const MINUTE: int := 60 * SECOND

  /** Every two of the ids have instants at least gap apart. */
  ghost predicate Spaced(m: map<nat, int>, ids: set<nat>, gap: int)
    requires ids <= m.Keys
  {
    forall a, b :: a in ids && b in ids && a != b ==> m[a] - m[b] >= gap || m[b] - m[a] >= gap
  }

  lemma Pick<T>(s: set<T>) returns (x: T)
    requires s != {}
    ensures x in s
  {
    x :| x in s;
  }

  lemma {:induction false} Latest(m: map<nat, int>, ids: set<nat>) returns (last: nat)
    requires ids != {} && ids <= m.Keys
    ensures last in ids && forall x :: x in ids ==> m[x] <= m[last]
  {
    var x := Pick(ids);
    var others := ids - {x};
    if others == {} {
      assert ids == {x};
      last := x;
    } else {
      var rest := Latest(m, others);
      last := if m[rest] < m[x] then x else rest;
      assert forall y :: y in ids ==> y == x || y in others;
    }
  }

  /** A window of length hi - lo holds k instants that are gap apart only if (k - 1) * gap <= hi - lo. */
  lemma {:induction false} SpacedInWindow(m: map<nat, int>, ids: set<nat>, lo: int, hi: int, gap: int)
    requires ids != {} && ids <= m.Keys && gap >= 0 && Spaced(m, ids, gap)
    requires forall x :: x in ids ==> lo <= m[x] <= hi
    ensures (|ids| - 1) * gap <= hi - lo
  {
    var last := Latest(m, ids);
    var earlier := ids - {last};
    assert |earlier| == |ids| - 1;
    if earlier != {} {
      forall x | x in earlier ensures lo <= m[x] <= m[last] - gap {
        assert x in ids && m[x] <= m[last];
      }
      SpacedInWindow(m, earlier, lo, m[last] - gap, gap);
      OneMore(|earlier|, gap, m[last] - gap - lo, m[last] - lo);
    } else {
      assert (|ids| - 1) * gap == 0;
    }
  }

  lemma OneMore(k: nat, gap: int, x: int, y: int)
    requires (k - 1) * gap <= x && y - x >= gap
    ensures k * gap <= y
  {
    assert k * gap == (k - 1) * gap + gap;
  }

  function Decimal(n: nat): (text: string) {
    if n < 10 then [Digit(n)] else Decimal(n / 10) + [Digit(n % 10)]
  }

  function Digit(d: nat): char
    requires d < 10
  {
    '0' + d as char
  }
}
