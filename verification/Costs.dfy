/**
 Dollar amounts in the examples report: each row's cost is rounded to cents, and so is
 the exact total, so the rows need not add up to the total. Amounts are counted in
 cents; rounding is half away from zero.
 */
module Costs {

  /** A cell: absent or empty, not a number, or an exact decimal amount in cents. */
  datatype Cell = Missing | Unreadable | Amount(cents: real)

  datatype Shown = Nothing | Dollars(cents: int)

  function Floor(x: real): (n: int)
    ensures n as real <= x < n as real + 1.0
  {
    x.Floor
  }

  /** Quantizing to cents with ties going away from zero. */
  function Rounded(x: real): (n: int)
    ensures -0.5 <= n as real - x <= 0.5
    ensures n as real - x == 0.5 ==> x >= 0.0
    ensures n as real - x == -0.5 ==> x < 0.0
  {
    if x >= 0.0 then Floor(x + 0.5) else -Floor(-x + 0.5)
  }

  function FormatCost(cell: Cell): Shown {
    match cell
    case Amount(cents) => Dollars(Rounded(cents))
    case _ => Nothing
  }

  // ----- sums over the readable cells -----

  function Exact(cells: seq<Cell>): real {
    if cells == [] then 0.0
    else
      var last := cells[|cells| - 1];
      Exact(cells[..|cells| - 1]) + if last.Amount? then last.cents else 0.0
  }

  function Readable(cells: seq<Cell>): nat {
    if cells == [] then 0
    else Readable(cells[..|cells| - 1]) + if cells[|cells| - 1].Amount? then 1 else 0
  }

  /** What a reader gets by adding up the rows as printed. */
  function ShownSum(cells: seq<Cell>): int {
    if cells == [] then 0
    else
      var shown := FormatCost(cells[|cells| - 1]);
      ShownSum(cells[..|cells| - 1]) + if shown.Dollars? then shown.cents else 0
  }

  method FormatTotalCost(cells: seq<Cell>) returns (shown: Shown)
    ensures shown == Nothing <==> forall cell :: cell in cells ==> !cell.Amount?
    ensures shown.Dollars? ==> shown.cents == Rounded(Exact(cells))
  {
    var total, seen := 0.0, false;
    for i := 0 to |cells|
      invariant total == Exact(cells[..i])
      invariant seen <==> exists k :: 0 <= k < i && cells[k].Amount?
    {
      assert cells[..i + 1][..i] == cells[..i];
      if cells[i].Amount? {
        total := total + cells[i].cents;
        seen := true;
      }
    }
    assert cells[..|cells|] == cells;
    if !seen {
      return Nothing;
    }
    return Dollars(Rounded(total));
  }

  // ----- how far apart the rows and the total can be -----

  /** Each row is off by half a cent at most, and a row off by a whole half tells its sign. */
  lemma {:induction false} RowsStayClose(cells: seq<Cell>)
    ensures var off, most := ShownSum(cells) as real - Exact(cells), 0.5 * Readable(cells) as real;
            && -most <= off <= most
            && (off == most ==> Exact(cells) >= 0.0)
            && (off == -most ==> if most == 0.0 then Exact(cells) == 0.0 else Exact(cells) < 0.0)
  {
    if cells != [] {
      RowsStayClose(cells[..|cells| - 1]);
    }
  }

  /**
   The rows as printed and the total as printed differ by half a cent per readable row
   at most: rounding the total never adds a half of its own.
   */
  lemma TotalStaysClose(cells: seq<Cell>)
    ensures 0 - Readable(cells) <= 2 * (ShownSum(cells) - Rounded(Exact(cells))) <= Readable(cells)
  {
    RowsStayClose(cells);
    var rows, total, n: int := ShownSum(cells), Rounded(Exact(cells)), Readable(cells);
    assert (0 - n - 1) as real < (2 * (rows - total)) as real < (n + 1) as real;
  }

  function HalfCents(n: nat): seq<Cell> { seq(n, _ => Amount(0.5)) }

  lemma {:induction false} HalfCentsAddUp(n: nat)
    ensures var cells := HalfCents(n);
            Readable(cells) == n && ShownSum(cells) == n && Exact(cells) == 0.5 * n as real
  {
    if n > 0 {
      assert HalfCents(n)[..n - 1] == HalfCents(n - 1);
      HalfCentsAddUp(n - 1);
    }
  }

  /** The bound is reached for every number of rows, by rows of half a cent each. */
  lemma BoundIsReached(n: nat)
    ensures var cells := HalfCents(n);
            Readable(cells) == n && ShownSum(cells) - Rounded(Exact(cells)) == n / 2
  {
    HalfCentsAddUp(n);
    var half := n - n / 2;
    assert half as real <= 0.5 * n as real + 0.5 < half as real + 1.0 by {
      assert n <= 2 * half <= n + 1;
      assert n as real <= (2 * half) as real <= (n + 1) as real;
    }
  }
}
