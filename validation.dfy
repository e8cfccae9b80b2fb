/**
 * The checks main() applies to the command-line move list, in order, before
 * a game may start: no moves, exactly one move, an even number of moves, and
 * duplicates (found by comparing the size of the set of names with the
 * length of the list).
 */
module Validation {
  import opened Rules

  datatype MoveListError = NoMoves | OnlyOneMove | EvenCount | DuplicateMoves

  /** Either the game may start, or the first check that failed. */
  datatype Checked = Ok | Rejected(reason: MoveListError)

  /** The line main() prints for each rejection. */
  const ErrorPrefix: string := "Error: "
  const OddRequest: string := " Please provide an odd number of non-repeating moves"
  const NoMovesText: string := "No moves provided." + OddRequest + "."
  const OnlyOneMoveText: string := "Only one move provided." + OddRequest + " greater than 1."
  const EvenCountText: string := "Even number of moves provided." + OddRequest + "."
  const DuplicateMovesText: string := "Duplicate moves found." + " Please provide non-repeating moves."

  /** What follows the prefix in each error line. */
  function Complaint(e: MoveListError): string {
    match e
    case NoMoves => NoMovesText
    case OnlyOneMove => OnlyOneMoveText
    case EvenCount => EvenCountText
    case DuplicateMoves => DuplicateMovesText
  }

  function ErrorMessage(e: MoveListError): (msg: string)
    ensures |msg| > |ErrorPrefix| && msg[..|ErrorPrefix|] == ErrorPrefix
  {
    assert |Complaint(e)| > 0 by {
      assert NoMovesText[0] == 'N' && OnlyOneMoveText[0] == 'O';
      assert EvenCountText[0] == 'E' && DuplicateMovesText[0] == 'D';
    }
    assert (ErrorPrefix + Complaint(e))[..|ErrorPrefix|] == ErrorPrefix;
    ErrorPrefix + Complaint(e)
  }

  /** Each rejection has its own message. */
  lemma ErrorMessagesDiffer(e: MoveListError, f: MoveListError)
    requires e != f
    ensures ErrorMessage(e) != ErrorMessage(f)
  {
    assert NoMovesText[0] == 'N' && OnlyOneMoveText[0] == 'O';
    assert EvenCountText[0] == 'E' && DuplicateMovesText[0] == 'D';
    var i := |ErrorPrefix|;
    assert ErrorMessage(e)[i] == Complaint(e)[0] && ErrorMessage(f)[i] == Complaint(f)[0];
  }

  /** The elements of `new Set(moves)`. */
  function Elements(moves: seq<string>): set<string> {
    set m | m in moves
  }

  /** The set of names is as large as the list exactly when no name repeats. */
  lemma {:induction false} SetSizeIsLength(moves: seq<string>)
    ensures |Elements(moves)| <= |moves|
    ensures |Elements(moves)| == |moves| <==> Distinct(moves)
  {
    if |moves| > 0 {
      var t := moves[1..];
      SetSizeIsLength(t);
      assert Elements(moves) == {moves[0]} + Elements(t);
      if moves[0] in t {
        assert Elements(moves) == Elements(t);
        var k :| 0 <= k < |t| && t[k] == moves[0];
        assert moves[0] == moves[k + 1];
      } else {
        assert moves[0] !in Elements(t);
        if Distinct(t) {
          forall i, j | 0 <= i < j < |moves|
            ensures moves[i] != moves[j]
          {
            if i > 0 {
              assert moves[i] == t[i - 1] && moves[j] == t[j - 1];
            } else {
              assert moves[j] == t[j - 1];
            }
          }
        } else {
          var i, j :| 0 <= i < j < |t| && t[i] == t[j];
          assert moves[i + 1] == moves[j + 1];
        }
      }
    }
  }

  /**
   * The if-chain of main(): the game starts exactly when the list has an odd
   * length of at least three and no repeated name; otherwise the first failing
   * check, in the order empty, one, even, duplicate, is reported.
   */
  function Validate(moves: seq<string>): (r: Checked)
    ensures r == Ok <==> |moves| >= 3 && |moves| % 2 == 1 && Distinct(moves)
    ensures r == Rejected(NoMoves) <==> |moves| == 0
    ensures r == Rejected(OnlyOneMove) <==> |moves| == 1
    ensures r == Rejected(EvenCount) <==> |moves| >= 2 && |moves| % 2 == 0
    ensures r == Rejected(DuplicateMoves) <==> |moves| >= 3 && |moves| % 2 == 1 && !Distinct(moves)
  {
    SetSizeIsLength(moves);
    if |moves| == 0 then Rejected(NoMoves)
    else if |moves| == 1 then Rejected(OnlyOneMove)
    else if |moves| % 2 == 0 then Rejected(EvenCount)
    else if |Elements(moves)| != |moves| then Rejected(DuplicateMoves)
    else Ok
  }

  /** Sample lists: the even check comes before the duplicate check. */
  lemma ValidationExamples()
    ensures Validate([]) == Rejected(NoMoves)
    ensures Validate(["rock"]) == Rejected(OnlyOneMove)
    ensures Validate(["rock", "rock"]) == Rejected(EvenCount)
    ensures Validate(["rock", "paper", "scissors", "lizard"]) == Rejected(EvenCount)
    ensures Validate(["rock", "rock", "paper"]) == Rejected(DuplicateMoves)
    ensures Validate(["rock", "paper", "scissors"]) == Ok
  {
    var dup := ["rock", "rock", "paper"];
    assert dup[0] == dup[1];
  }
}
