/** The 3x3 tic-tac-toe grid shared by the relay server (server.js) and the
    peer-to-peer game (ox.js): the two sides, and the eight winning triples. */
module Grid {

  /** The two marks, 'x' and 'o'. */
  datatype Side = X | O

  function Other(s: Side): (r: Side)
    ensures r != s
  {
    if s == X then O else X
  }

  /** WINNING_COMBINATIONS, in the order both source files list them. */
  const Combos: seq<(int, int, int)> :=
    [(0, 1, 2), (3, 4, 5), (6, 7, 8),
     (0, 3, 6), (1, 4, 7), (2, 5, 8),
     (0, 4, 8), (2, 4, 6)]

  /** `owned[i]` says whether cell i carries the mark under test. */
  predicate AllOwned(owned: seq<bool>, t: (int, int, int))
    requires |owned| == 9
    requires 0 <= t.0 < 9 && 0 <= t.1 < 9 && 0 <= t.2 < 9
  {
    owned[t.0] && owned[t.1] && owned[t.2]
  }

  /** `WINNING_COMBINATIONS.some(c => c.every(i => owned[i]))`. */
  predicate HasLine(owned: seq<bool>)
    requires |owned| == 9
  {
    exists k | 0 <= k < |Combos| :: AllOwned(owned, Combos[k])
  }

  /** Independent reference: cell (row, col) of the grid, row-major. */
  ghost predicate At(owned: seq<bool>, row: int, col: int)
    requires |owned| == 9 && 0 <= row < 3 && 0 <= col < 3
  {
    owned[3 * row + col]
  }

  ghost predicate FullRow(owned: seq<bool>, row: int)
    requires |owned| == 9 && 0 <= row < 3
  {
    forall col | 0 <= col < 3 :: At(owned, row, col)
  }

  ghost predicate FullColumn(owned: seq<bool>, col: int)
    requires |owned| == 9 && 0 <= col < 3
  {
    forall row | 0 <= row < 3 :: At(owned, row, col)
  }

  ghost predicate FullDiagonal(owned: seq<bool>)
    requires |owned| == 9
  {
    At(owned, 0, 0) && At(owned, 1, 1) && At(owned, 2, 2)
  }

  ghost predicate FullAntiDiagonal(owned: seq<bool>)
    requires |owned| == 9
  {
    At(owned, 0, 2) && At(owned, 1, 1) && At(owned, 2, 0)
  }

  /** Three in a row, in a column or on a diagonal, stated on the geometry of the grid. */
  ghost predicate ThreeInARow(owned: seq<bool>)
    requires |owned| == 9
  {
    || (exists row | 0 <= row < 3 :: FullRow(owned, row))
    || (exists col | 0 <= col < 3 :: FullColumn(owned, col))
    || FullDiagonal(owned)
    || FullAntiDiagonal(owned)
  }

  /** The eight listed triples are exactly the rows, columns and diagonals. */
  lemma HasLineIsThreeInARow(owned: seq<bool>)
    requires |owned| == 9
    ensures HasLine(owned) <==> ThreeInARow(owned)
  {
    if HasLine(owned) {
      var k :| 0 <= k < |Combos| && AllOwned(owned, Combos[k]);
      if k < 3 {
        assert FullRow(owned, k) by {
          forall col | 0 <= col < 3 ensures At(owned, k, col) {
            assert Combos[k] == (3 * k, 3 * k + 1, 3 * k + 2);
          }
        }
      } else if k < 6 {
        var col := k - 3;
        assert FullColumn(owned, col) by {
          forall row | 0 <= row < 3 ensures At(owned, row, col) {
            assert Combos[k] == (col, col + 3, col + 6);
          }
        }
      } else if k == 6 {
        assert FullDiagonal(owned);
      } else {
        assert FullAntiDiagonal(owned);
      }
    }
    if ThreeInARow(owned) {
      if row :| 0 <= row < 3 && FullRow(owned, row) {
        assert At(owned, row, 0) && At(owned, row, 1) && At(owned, row, 2);
        assert AllOwned(owned, Combos[row]);
      } else if col :| 0 <= col < 3 && FullColumn(owned, col) {
        assert At(owned, 0, col) && At(owned, 1, col) && At(owned, 2, col);
        assert AllOwned(owned, Combos[3 + col]);
      } else if FullDiagonal(owned) {
        assert AllOwned(owned, Combos[6]);
      } else {
        assert AllOwned(owned, Combos[7]);
      }
    }
  }

  /** The number of owned cells. */
  function Count(owned: seq<bool>): (n: nat)
    ensures n <= |owned|
  {
    if owned == [] then 0 else (if owned[0] then 1 else 0) + Count(owned[1..])
  }

  lemma {:induction false} CountNone(owned: seq<bool>)
    requires forall i | 0 <= i < |owned| :: !owned[i]
    ensures Count(owned) == 0
  {
    if owned != [] {
      CountNone(owned[1..]);
    }
  }

  /** Taking one more cell adds exactly one to the count. */
  lemma {:induction false} CountTakeOne(owned: seq<bool>, i: int)
    requires 0 <= i < |owned| && !owned[i]
    ensures Count(owned[i := true]) == Count(owned) + 1
  {
    if i > 0 {
      CountTakeOne(owned[1..], i - 1);
      assert owned[i := true][1..] == owned[1..][i - 1 := true];
    } else {
      assert owned[i := true][1..] == owned[1..];
    }
  }

  /** When every cell is owned by exactly one of two sides, their counts add up to the size of the board. */
  lemma {:induction false} CountSplit(a: seq<bool>, b: seq<bool>)
    requires |a| == |b|
    requires forall i | 0 <= i < |a| :: a[i] != b[i]
    ensures Count(a) + Count(b) == |a|
  {
    if a != [] {
      assert a[0] != b[0];
      CountSplit(a[1..], b[1..]);
    }
  }
}
