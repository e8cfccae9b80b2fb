# Rock-paper-scissors for any odd number of moves — a Dafny model

The program takes an ordered list of move names from the command line. It
rejects an empty list, a single move, an even count and a list with repeated
names, in that order. It then plays one round against the computer. The
computer's move and a random secret key are fixed before the player chooses.
The HMAC of the move under that key is published first. The key is revealed
after the round, so the player can check that the computer did not change its
move.

The outcome rule generalises rock-paper-scissors to N moves. Let `a` and `b`
be the positions of the computer's and the user's moves, and
`half = floor(N/2)`. The verdict is the sign of
`((a - b + half + N) % N) - half`: zero is `Draw`, positive is
`Computer wins`, negative is `You win`.

The model has four modules:

- `Rules` (rules.dfy): the class GameRules. `IndexOf` is JavaScript's `indexOf`, `TruncRem` is
  JavaScript's `%`, `Judge` is the formula on positions and `DetermineOutcome` is the rule on
  names. `ByDistance` is an independent reference rule, stated by the cyclic distance
  `(a - b) mod N`. The lemmas prove that both rules agree and derive the game's properties.
- `Validation` (validation.dfy): the if-chain in `main` as a function returning `Ok` or
  the first failed check. The duplicate check compares the size of the set of names
  with the length of the list, as the source does.
- `HelpTable` (help_table.dfy): `generateTable` as a method with the source's two nested
  loops, building the cells of the help table.
- `Session` (session.dfy): the class RockPaperScissorsGame. Its key, computer move and HMAC
  are `const` fields set only by the constructor. `Step` is one pass of play's loop and
  `Play` is the whole loop. `Launch` is `main`. The pure functions `Respond` and `Run`
  specify `Step` and `Play`, and the lemmas about them state the commit-reveal guarantee.

Each move beats the `half` moves that precede it cyclically, not those that
follow it. By the formula on line 25, the computer wins iff `(a - b) mod N`
lies in `[1, half]`. For moves `a..e`, `a` beats `d` and `e` and loses to `b`
and `c` (`Rules.ComputerWinsIff`, `Rules.FiveMoveGame`). With
`[rock, paper, scissors]` this is the classic game (`Rules.ClassicGame`).

Before the round is resolved, nothing the session writes depends on the
secret key or the computer's move, except through the published HMAC
(`Session.UnresolvedSessionIgnoresSecrets`).

## Model

| member | source | states |
|---|---|---|
| `Rules.IndexOf` | rcs-javascript/rock-paper-scissors.js:23-24 | the result is -1 iff the name is absent; otherwise it is the first position holding the name |
| `Rules.Sign` | rcs-javascript/rock-paper-scissors.js:25 | `Math.sign`: 0 iff its argument is 0, 1 iff it is positive, -1 iff it is negative |
| `Rules.TruncRem` | rcs-javascript/rock-paper-scissors.js:25 | JavaScript's `%`: the result lies strictly between -n and n and has the sign of the dividend; for a non-negative dividend it is the mathematical remainder, and negating the dividend negates the result |
| `Rules.TruncRemCongruent` | rcs-javascript/rock-paper-scissors.js:25 | JavaScript's remainder differs from its dividend by a multiple of the divisor, for dividends of either sign |
| `Rules.Judge` | rcs-javascript/rock-paper-scissors.js:25-27 | the verdict on two positions, with `halfMoves` passed in as on line 25, is always one of `Draw`, `Computer wins`, `You win`; `Rules.JudgeIsByDistance` gives its meaning |
| `Rules.NewGameRules` | rcs-javascript/rock-paper-scissors.js:16-20 | the rules keep the list and its length, and `halfMoves` is floor(N/2) (2h <= N < 2h + 2) |
| `Rules.DetermineOutcome` | rcs-javascript/rock-paper-scissors.js:22-28 | the verdict is always one of `Draw`, `Computer wins`, `You win` |
| `Rules.OperandNonNegative` | rcs-javascript/rock-paper-scissors.js:19-25 | the left operand of `%` is >= 0 for positions >= -1, including an absent name, and > 0 for two present names; JavaScript's `%` then equals the mathematical remainder; the re-centred value lies in [-half, N-1-half], which is [-half, half] for odd N |
| `Rules.JudgeIsByDistance` | rcs-javascript/rock-paper-scissors.js:25-27 | for positions in [0, N), the formula gives the same verdict as the reference rule by cyclic distance |
| `Rules.DrawIffSameIndex` | rcs-javascript/rock-paper-scissors.js:25-26 | a draw happens iff both positions are equal |
| `Rules.ComputerWinsIff` | rcs-javascript/rock-paper-scissors.js:25-27 | the computer wins iff (a - b) mod N is in [1, (N-1)/2], and the user wins iff it is above (N-1)/2 |
| `Rules.SwapFlips` | rcs-javascript/rock-paper-scissors.js:25-27 | for odd N, swapping the two positions swaps `Computer wins` and `You win` and keeps `Draw` |
| `Rules.EvenCountNotAntisymmetric` | rcs-javascript/rock-paper-scissors.js:25-27 | for every even N, the moves at 0 and N/2 each get `You win` against the other, so the rule is not antisymmetric (this is why line 98 rejects even counts) |
| `Rules.EachMoveBeatsHalf` | rcs-javascript/rock-paper-scissors.js:19-27 | against the N moves, each move draws once, beats (N-1)/2 and loses to N-1-(N-1)/2; for odd N both counts are floor(N/2) |
| `Rules.IndexOfDistinct` | rcs-javascript/rock-paper-scissors.js:23-24 | in a list without duplicates, `indexOf` finds each element at its own position |
| `Rules.OutcomeOfPositions` | rcs-javascript/rock-paper-scissors.js:22-27 | in a list without duplicates, the verdict on two names is the verdict on their positions |
| `Rules.DrawIffSameMove` | rcs-javascript/rock-paper-scissors.js:22-26 | in a list without duplicates, two listed names draw iff they are the same name |
| `Rules.SwapMovesFlips` | rcs-javascript/rock-paper-scissors.js:22-27 | in an odd list without duplicates, swapping the computer's and the user's names swaps the winner |
| `Rules.ClassicGame` | rcs-javascript/rock-paper-scissors.js:22-27 | for `[rock, paper, scissors]`: rock beats scissors, scissors beats paper, paper beats rock |
| `Rules.FiveMoveGame` | rcs-javascript/rock-paper-scissors.js:22-27 | for `[a, b, c, d, e]`: `a` beats `d` and `e` and loses to `b` and `c` |
| `Validation.ErrorMessage` | rcs-javascript/rock-paper-scissors.js:94-101 | every rejection line starts with `Error: `, followed by the source's own text for that check |
| `Validation.ErrorMessagesDiffer` | rcs-javascript/rock-paper-scissors.js:94-101 | the four rejections print four different lines |
| `Validation.SetSizeIsLength` | rcs-javascript/rock-paper-scissors.js:100 | the set of names is never larger than the list, and is the same size iff no name repeats |
| `Validation.Validate` | rcs-javascript/rock-paper-scissors.js:94-105 | the game starts iff the list has odd length >= 3 and no repeats; otherwise the first failed check is reported, in the order empty, one, even, duplicate |
| `Validation.ValidationExamples` | rcs-javascript/rock-paper-scissors.js:94-101 | `[]` is empty, `[rock]` is one move, `[rock, rock]` and a four-move list are even, `[rock, rock, paper]` is a duplicate, `[rock, paper, scissors]` starts |
| `HelpTable.GenerateTable` | rcs-javascript/rock-paper-scissors.js:36-48 | the heading is `PC\User` followed by the moves; there are N rows in list order; row i has N+1 cells: move i, then its verdict against each move j in order |
| `HelpTable.DiagonalIsDraw` | rcs-javascript/rock-paper-scissors.js:40-44 | in a list without duplicates, a cell is `Draw` iff it lies on the diagonal |
| `HelpTable.TableIsAntisymmetric` | rcs-javascript/rock-paper-scissors.js:40-44 | in an odd list without duplicates, cell (j, i) is cell (i, j) with the winner swapped |
| `HelpTable.RowCounts` | rcs-javascript/rock-paper-scissors.js:40-46 | in an odd list without duplicates, every row has one `Draw`, floor(N/2) `Computer wins` and floor(N/2) `You win` |
| `Session.Numeral` | rcs-javascript/rock-paper-scissors.js:64 | the menu's number for k is a non-empty string of decimal digits, starting with `0` only for k = 0 |
| `Session.ParseNumber` | rcs-javascript/rock-paper-scissors.js:77 | a command is read as a number iff it is a non-empty string of decimal digits |
| `Session.LeadingZeroIgnored` | rcs-javascript/rock-paper-scissors.js:77 | as with JavaScript's number coercion, for a string of decimal digits, a leading `0` does not change the number it denotes (`01` plays move 1) |
| `Session.NumeralRoundTrip` | rcs-javascript/rock-paper-scissors.js:64 | reading back the numeral the menu prints for k gives k |
| `Session.Respond` | rcs-javascript/rock-paper-scissors.js:71-86 | a command that resolves the round writes four lines, the second naming the computer's move and the fourth the key; every other command writes exactly one line or table |
| `Session.RespondPhase` | rcs-javascript/rock-paper-scissors.js:71-86 | `0` exits, a number in [1, N] resolves, and `?` and every other command leave the session awaiting input |
| `Session.Run` | rcs-javascript/rock-paper-scissors.js:69-87 | the loop never reads more inputs than it gets, and it reads all of them when it is still awaiting input |
| `Session.RunStopsAtFirstEnd` | rcs-javascript/rock-paper-scissors.js:69-87 | the loop stops at the first command that ends the session, having read exactly the commands up to it; it is still awaiting input iff no command ends it; it exits iff that command is `0` |
| `Session.MenuNumberPlaysMove` | rcs-javascript/rock-paper-scissors.js:63-65 | typing the number the menu shows beside move i resolves the round with move i as the user's move |
| `Session.ResolvedRunEndsWithReveal` | rcs-javascript/rock-paper-scissors.js:77-83 | a loop that resolves writes, third from last, the computer's move and, last, the secret key |
| `Session.UnresolvedRunRevealsNothing` | rcs-javascript/rock-paper-scissors.js:71-86 | a loop that exits or runs out of input writes no line labelled `Computer move: ` or `HMAC key: ` |
| `Session.RespondIgnoresSecrets` | rcs-javascript/rock-paper-scissors.js:71-86 | a command that does not resolve the round gets the same response whatever the key and the computer's move |
| `Session.UnresolvedRunIgnoresSecrets` | rcs-javascript/rock-paper-scissors.js:69-87 | a loop that does not resolve ends in the same phase, reads the same number of inputs and writes the same output for every key and computer move, so nothing it writes, the verdict included, carries information about them |
| `Session.PreambleRevealsNothing` | rcs-javascript/rock-paper-scissors.js:61-67 | no preamble line is labelled `Computer move: ` or `HMAC key: `; the preamble is a function of the published digest and the moves only |
| `Session.RevealMatchesCommitment` | rcs-javascript/rock-paper-scissors.js:55-82 | when the round resolves, the HMAC of the revealed move under the revealed key equals the digest published on the first line, and these are the constructor's move and key |
| `Session.UnresolvedSessionRevealsNothing` | rcs-javascript/rock-paper-scissors.js:60-88 | a session that exits or runs out of input writes no line labelled `Computer move: ` or `HMAC key: ` |
| `Session.UnresolvedSessionIgnoresSecrets` | rcs-javascript/rock-paper-scissors.js:55-88 | a session that exits or runs out of input writes the same output for any other key and computer move with the same HMAC: it depends on them only through the published digest |
| `Session.Game.constructor` | rcs-javascript/rock-paper-scissors.js:52-58 | the key is fixed, the computer's move is the chosen list element, and the HMAC is the MAC of that move under that key |
| `Session.Game.Announce` | rcs-javascript/rock-paper-scissors.js:61-67 | appends the HMAC line, one numbered menu line per move, and the exit and help lines |
| `Session.Game.Step` | rcs-javascript/rock-paper-scissors.js:70-86 | one pass of the loop: the new phase and the appended lines are those of `Respond`; the fields set at construction cannot change |
| `Session.Game.Play` | rcs-javascript/rock-paper-scissors.js:60-88 | the final phase, the number of inputs read and the output are those of `Run`, after the preamble |
| `Session.Launch` | rcs-javascript/rock-paper-scissors.js:91-106 | an invalid list prints exactly the first failed check's error message; a valid list prints the whole session (its preamble and the loop's output, without the input prompts) |

## Left out

- Key generation (`crypto.randomBytes`) is a parameter: the model takes the key as a string given to the constructor. The source makes a 64-digit hex string; the model does not check that format.
- Session.PreambleRevealsNothing: the model does not capture that the published digest hides the key and the computer's move. That is a property of SHA-256, which is not modelled. The menu lists every move, the computer's included.
- The HMAC (`crypto.createHmac` with SHA-256) is a function-valued parameter `mac`. The model proves that the revealed key and move reproduce the published digest under that same function. It proves nothing about SHA-256 itself.
- The random choice `Math.floor(Math.random() * moves.length)` is a parameter `choice`, required to be a valid position.
- Console input (`readline-sync`) is a finite sequence of strings. When they run out, the model's loop stops; the real program would wait for more input. The prompt `Enter your move: ` that `readlineSync.question` writes on every pass of the loop is not part of the modelled output.
- Console output (`console.log`) is a log of `Output` values. The help table is kept as its cells; the `AsciiTable` rendering is not modelled.
- `process.argv` is the `args` parameter of `Launch`. Exit codes are not modelled.
- Session.ParseNumber: only plain decimal digit strings count as numbers. The source's `!isNaN(input) && input > 0 && input <= N` relies on JavaScript's number coercion. It also accepts strings such as `" 2 "`, `"2.0"`, `"1e0"` or `"0x1"`, which the model reports as invalid. A fractional value such as `"1.5"` passes the source's test and selects `moves[0.5]`, which is `undefined`; the model does not capture this.
- Rules.DetermineOutcome requires a non-empty list. With no moves, `% 0` gives `NaN` in JavaScript; `main` never builds rules for an empty list.
- The C# port in the repository is not part of this model.
