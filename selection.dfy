/**
 * The velocity selector: a scan of the cost grid in (vx, vy, omega) index
 * order that keeps the first strictly smaller cost, starting from the
 * sentinel.
 */
module Selection {
  import opened PlannerTypes

  predicate InGrid(c: array3<real>, i: int, j: int, k: int)
  {
    0 <= i < c.Length0 && 0 <= j < c.Length1 && 0 <= k < c.Length2
  }

  /** Cell `(p, q, r)` comes before cell `(i, j, k)` in scan order. */
  predicate ScannedBefore(p: int, q: int, r: int, i: int, j: int, k: int)
  {
    p < i || (p == i && (q < j || (q == j && r < k)))
  }

  /** Some cell costs less than the sentinel. */
  ghost predicate SomeBelowSentinel(c: array3<real>)
    reads c
  {
    exists p, q, r :: InGrid(c, p, q, r) && c[p, q, r] < SENTINEL
  }

  /**
   * The cell the selector settles on. When some cost is below the
   * sentinel: a cell of minimum cost, with every cell scanned before it
   * strictly more expensive, so ties go to the first. Otherwise: `(0, 0, 0)`.
   */
  ghost predicate Selected(c: array3<real>, i: int, j: int, k: int)
    reads c
  {
    if SomeBelowSentinel(c) then
      && InGrid(c, i, j, k)
      && (forall p, q, r :: InGrid(c, p, q, r) ==> c[i, j, k] <= c[p, q, r])
      && (forall p, q, r :: InGrid(c, p, q, r) && ScannedBefore(p, q, r, i, j, k) ==> c[i, j, k] < c[p, q, r])
    else
      i == 0 && j == 0 && k == 0
  }

  /** The selection rule picks exactly one cell. */
  lemma SelectedUnique(c: array3<real>, i: nat, j: nat, k: nat, i': nat, j': nat, k': nat)
    requires Selected(c, i, j, k) && Selected(c, i', j', k')
    ensures i == i' && j == j' && k == k'
  {
  }

  /**
   * The scan of the selector. The returned cell satisfies the selection
   * rule, and it is a cell of the grid whenever the grid has any.
   */
  method ArgMin(c: array3<real>) returns (i: nat, j: nat, k: nat)
    ensures Selected(c, i, j, k)
    ensures c.Length0 > 0 && c.Length1 > 0 && c.Length2 > 0 ==> InGrid(c, i, j, k)
  {
    i, j, k := 0, 0, 0;
    var minCost := SENTINEL;
    var x := 0;
    while x < c.Length0
      invariant 0 <= x <= c.Length0
      invariant Scanned(c, x, 0, 0, i, j, k, minCost)
    {
      var y := 0;
      while y < c.Length1
        invariant 0 <= y <= c.Length1
        invariant Scanned(c, x, y, 0, i, j, k, minCost)
      {
        var z := 0;
        while z < c.Length2
          invariant 0 <= z <= c.Length2
          invariant Scanned(c, x, y, z, i, j, k, minCost)
        {
          if c[x, y, z] < minCost {
            i, j, k := x, y, z;
            minCost := c[x, y, z];
          }
          z := z + 1;
        }
        y := y + 1;
      }
      x := x + 1;
    }
    if SomeBelowSentinel(c) {
      var p, q, r :| InGrid(c, p, q, r) && c[p, q, r] < SENTINEL;
      assert ScannedBefore(p, q, r, c.Length0, 0, 0);
    }
  }

  /**
   * Loop invariant of the scan, with `(x, y, z)` the next cell to look at:
   * the running minimum is at most every cost scanned so far; while it is
   * still the sentinel the chosen cell is `(0, 0, 0)`, and once it has
   * moved it is the cost of a scanned cell that is strictly cheaper than
   * every cell scanned before it.
   */
  ghost predicate Scanned(c: array3<real>, x: int, y: int, z: int, i: int, j: int, k: int, minCost: real)
    reads c
  {
    && minCost <= SENTINEL
    && (forall p, q, r :: InGrid(c, p, q, r) && ScannedBefore(p, q, r, x, y, z) ==> minCost <= c[p, q, r])
    && (minCost == SENTINEL ==> i == 0 && j == 0 && k == 0)
    && (minCost != SENTINEL ==>
          && InGrid(c, i, j, k)
          && ScannedBefore(i, j, k, x, y, z)
          && c[i, j, k] == minCost
          && (forall p, q, r :: InGrid(c, p, q, r) && ScannedBefore(p, q, r, i, j, k) ==> minCost < c[p, q, r]))
  }

  /** A 2x2x2 grid with a single strict minimum at (1, 0, 1) selects that cell. */
  method StrictMinimumExample() returns (i: nat, j: nat, k: nat)
    ensures i == 1 && j == 0 && k == 1
  {
    var c := new real[2, 2, 2]((p: nat, q: nat, r: nat) => if p == 1 && q == 0 && r == 1 then 1.0 else 5.0);
    i, j, k := ArgMin(c);
    assert c[1, 0, 1] < SENTINEL;
    assert c[i, j, k] <= c[1, 0, 1];
  }

  /** Two equal minima at (0, 0, 0) and (1, 1, 1): the one scanned first wins. */
  method TieBreakExample() returns (i: nat, j: nat, k: nat)
    ensures i == 0 && j == 0 && k == 0
  {
    var c := new real[2, 2, 2]((p: nat, q: nat, r: nat) => if p == q == r then 1.0 else 5.0);
    i, j, k := ArgMin(c);
    assert c[0, 0, 0] < SENTINEL;
    assert c[i, j, k] <= c[0, 0, 0];
    assert !ScannedBefore(0, 0, 0, i, j, k);
  }
}
