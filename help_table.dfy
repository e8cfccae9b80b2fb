/**
 * HelpTableGenerator.generateTable: the matrix of verdicts shown on `?`.
 * Row i starts with the i-th move (the computer's move) and continues with
 * its verdict against every move in list order (the user's move); the
 * heading row is the corner label followed by the moves. Only the cell
 * contents are modelled, not their rendering as text.
 */
module HelpTable {
  import opened Rules

  /** The corner cell of the heading, a single backslash between the words. */
  const Corner: string := "PC\\User"

  /** The row of the computer's move `i`: its name, then its verdict against each move. */
  function HelpRow(moves: seq<string>, i: int): seq<string>
    requires 0 <= i < |moves|
  {
    [moves[i]] + seq(|moves|, j requires 0 <= j < |moves| => DetermineOutcome(NewGameRules(moves), moves[i], moves[j]))
  }

  /** The cells the table is built from, row by row. */
  function HelpRows(moves: seq<string>): seq<seq<string>> {
    seq(|moves|, i requires 0 <= i < |moves| => HelpRow(moves, i))
  }

  /**
   * The nested forEach loops of generateTable: each row is built by pushing
   * one verdict per user move, and each finished row is added to the table.
   */
  method GenerateTable(moves: seq<string>) returns (heading: seq<string>, rows: seq<seq<string>>)
    ensures heading == [Corner] + moves
    ensures |rows| == |moves|
    ensures forall i :: 0 <= i < |rows| ==> |rows[i]| == |moves| + 1 && rows[i][0] == moves[i]
    ensures forall i, j :: 0 <= i < |moves| && 0 <= j < |moves| ==>
      rows[i][j + 1] == DetermineOutcome(NewGameRules(moves), moves[i], moves[j])
    ensures rows == HelpRows(moves)
  {
    heading := [Corner] + moves;
    var rules := NewGameRules(moves);
    rows := [];
    var i := 0;
    while i < |moves|
      invariant 0 <= i <= |moves|
      invariant rows == HelpRows(moves)[..i]
    {
      var row := [moves[i]];
      var j := 0;
      while j < |moves|
        invariant 0 <= j <= |moves|
        invariant row == HelpRow(moves, i)[..j + 1]
      {
        row := row + [DetermineOutcome(rules, moves[i], moves[j])];
        j := j + 1;
      }
      assert row == HelpRow(moves, i);
      assert HelpRows(moves)[..i + 1] == HelpRows(moves)[..i] + [row];
      rows := rows + [row];
      i := i + 1;
    }
    HelpRowsLayout(moves);
  }

  /** The help rows laid out cell by cell. */
  lemma HelpRowsLayout(moves: seq<string>)
    ensures |HelpRows(moves)| == |moves|
    ensures forall i :: 0 <= i < |moves| ==>
      |HelpRows(moves)[i]| == |moves| + 1 && HelpRows(moves)[i][0] == moves[i]
    ensures forall i, j :: 0 <= i < |moves| && 0 <= j < |moves| ==>
      HelpRows(moves)[i][j + 1] == DetermineOutcome(NewGameRules(moves), moves[i], moves[j])
  {
    forall i, j | 0 <= i < |moves| && 0 <= j < |moves|
      ensures HelpRows(moves)[i][j + 1] == DetermineOutcome(NewGameRules(moves), moves[i], moves[j])
    {
      assert HelpRows(moves)[i] == HelpRow(moves, i);
    }
  }

  /** One cell of the help rows: the verdict of move `i` against move `j`. */
  lemma Cell(moves: seq<string>, i: int, j: int)
    requires 0 <= i < |moves| && 0 <= j < |moves|
    ensures |HelpRows(moves)[i]| == |moves| + 1
    ensures HelpRows(moves)[i][j + 1] == DetermineOutcome(NewGameRules(moves), moves[i], moves[j])
  {
    assert HelpRows(moves)[i] == HelpRow(moves, i);
  }

  /** Over a list without duplicates the diagonal is all draws, and nothing off it is a draw. */
  lemma DiagonalIsDraw(moves: seq<string>, i: int, j: int)
    requires Distinct(moves) && 0 <= i < |moves| && 0 <= j < |moves|
    ensures HelpRows(moves)[i][j + 1] == Draw <==> i == j
  {
    Cell(moves, i, j);
    OutcomeOfPositions(moves, i, j);
    DrawIffSameIndex(i, j, |moves|);
  }

  /** Over an odd list without duplicates the table is antisymmetric across its diagonal. */
  lemma TableIsAntisymmetric(moves: seq<string>, i: int, j: int)
    requires Distinct(moves) && |moves| % 2 == 1 && 0 <= i < |moves| && 0 <= j < |moves|
    ensures HelpRows(moves)[j][i + 1] == Flip(HelpRows(moves)[i][j + 1])
  {
    Cell(moves, i, j);
    Cell(moves, j, i);
    OutcomeOfPositions(moves, i, j);
    OutcomeOfPositions(moves, j, i);
    SwapFlips(i, j, |moves|);
  }

  /**
   * Over an odd list without duplicates every row of the table holds one
   * draw, floor(n/2) wins for the computer and floor(n/2) wins for the user.
   */
  lemma RowCounts(moves: seq<string>, i: int)
    requires Distinct(moves) && |moves| % 2 == 1 && 0 <= i < |moves|
    ensures multiset(HelpRows(moves)[i][1..])[Draw] == 1
    ensures multiset(HelpRows(moves)[i][1..])[ComputerWins] == Half(|moves|)
    ensures multiset(HelpRows(moves)[i][1..])[YouWin] == Half(|moves|)
  {
    var n := |moves|;
    forall j | 0 <= j < n
      ensures HelpRows(moves)[i][1..][j] == VerdictRow(i, n)[j]
    {
      Cell(moves, i, j);
      OutcomeOfPositions(moves, i, j);
    }
    assert HelpRows(moves)[i][1..] == VerdictRow(i, n);
    EachMoveBeatsHalf(i, n);
  }
}
