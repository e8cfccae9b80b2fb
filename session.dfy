/**
 * One game session (class RockPaperScissorsGame and the dispatch in main()).
 *
 * The constructor fixes the secret key, the computer's move and the HMAC of
 * that move under that key; play() publishes the HMAC and the menu, then reads
 * one command per iteration: "0" exits, "?" shows the help table, a number k
 * in [1, N] picks the k-th move and ends the round by revealing both moves, the
 * verdict and the key, and anything else is reported as invalid.
 *
 * Console output is a log of Output values; console input is a sequence of
 * strings. Key generation, the random choice of the computer's move and the
 * HMAC function are parameters.
 */
module Session {
  import opened Rules
  import opened Validation
  import HelpTable

  datatype Option<T> = None | Some(value: T)

  /** Where a session stands. */
  datatype Phase = AwaitingInput | Exited | Resolved

  /** What the session writes to the console: a line of text, or the help table's cells. */
  datatype Output = Line(text: string) | Table(heading: seq<string>, rows: seq<seq<string>>)

  /** The fixed texts play() writes. */
  const DigestLabel: string := "HMAC: "
  const MovesHeader: string := "Available moves:"
  const MenuSeparator: string := " - "
  const ExitHint: string := "0 - exit"
  const HelpHint: string := "? - help"
  const ExitNotice: string := "Exiting the game."
  const InvalidNotice: string := "Invalid Move! Please try again"
  const UserLabel: string := "Your move: "
  const ComputerLabel: string := "Computer move: "
  const KeyLabel: string := "HMAC key: "

  // ---------------------------------------------------------------------------
  // Decimal numerals: the menu's `${index + 1}` and the numeric commands

  predicate IsDigit(c: char) {
    '0' <= c <= '9'
  }

  predicate AllDigits(s: string) {
    forall i :: 0 <= i < |s| ==> IsDigit(s[i])
  }

  function DigitChar(d: nat): (c: char)
    requires d < 10
    ensures IsDigit(c)
  {
    (('0' as int) + d) as char
  }

  function DigitValue(c: char): nat
    requires IsDigit(c)
  {
    (c as int) - ('0' as int)
  }

  /** The decimal numeral of `k`, as a template literal renders a number. */
  function Numeral(k: nat): (s: string)
    ensures |s| > 0 && AllDigits(s)
    ensures s[0] == '0' <==> k == 0
  {
    if k < 10 then [DigitChar(k)] else Numeral(k / 10) + [DigitChar(k % 10)]
  }

  function ValueOf(s: string): nat
    requires AllDigits(s)
  {
    if |s| == 0 then 0 else ValueOf(s[..|s| - 1]) * 10 + DigitValue(s[|s| - 1])
  }

  /** The value of a command made of decimal digits only; None for anything else. */
  function ParseNumber(s: string): (r: Option<nat>)
    ensures r.Some? <==> |s| > 0 && AllDigits(s)
  {
    if |s| > 0 && AllDigits(s) then Some(ValueOf(s)) else None
  }

  /** A leading zero does not change the value of a digit string. */
  lemma {:induction false} LeadingZeroValue(s: string)
    requires AllDigits(s)
    ensures AllDigits("0" + s) && ValueOf("0" + s) == ValueOf(s)
  {
    if |s| > 0 {
      var p := s[..|s| - 1];
      LeadingZeroValue(p);
      assert ("0" + s)[..|s|] == "0" + p;
    }
  }

  /** As with JavaScript's number coercion, "01" is the command 1. */
  lemma LeadingZeroIgnored(s: string)
    requires |s| > 0
    ensures ParseNumber("0" + s) == ParseNumber(s)
  {
    if AllDigits(s) {
      LeadingZeroValue(s);
    } else {
      var i :| 0 <= i < |s| && !IsDigit(s[i]);
      assert ("0" + s)[i + 1] == s[i];
    }
  }

  /** Reading back the numeral of `k` gives `k`. */
  lemma {:induction false} NumeralRoundTrip(k: nat)
    ensures ParseNumber(Numeral(k)) == Some(k)
  {
    var c := DigitChar(k % 10);
    assert DigitValue(c) == k % 10;
    if k >= 10 {
      NumeralRoundTrip(k / 10);
      var p := Numeral(k / 10);
      assert (p + [c])[..|p|] == p;
    } else {
      assert [c][..0] == [];
      assert ValueOf([c]) == ValueOf([]) * 10 + DigitValue(c);
    }
  }

  // ---------------------------------------------------------------------------
  // The session as a function of its inputs

  /** The console lines play() writes before the first prompt. */
  function Menu(moves: seq<string>): seq<Output> {
    seq(|moves|, i requires 0 <= i < |moves| => Line(Numeral(i + 1) + MenuSeparator + moves[i]))
  }

  function Preamble(hmac: string, moves: seq<string>): seq<Output> {
    [Line(DigestLabel + hmac), Line(MovesHeader)] + Menu(moves) + [Line(ExitHint), Line(HelpHint)]
  }

  /** What a command leads to: the next phase and the lines written. */
  datatype Response = Response(next: Phase, lines: seq<Output>)

  /** The four lines that end a round, in the order play() writes them. */
  function Resolution(moves: seq<string>, computerMove: string, secretKey: string, userMove: string): Response
    requires |moves| > 0
  {
    Response(Resolved, [
      Line(UserLabel + userMove),
      Line(ComputerLabel + computerMove),
      Line(DetermineOutcome(NewGameRules(moves), computerMove, userMove)),
      Line(KeyLabel + secretKey)])
  }

  /** One iteration of play()'s loop, awaiting input. */
  function Respond(moves: seq<string>, computerMove: string, secretKey: string, input: string): (r: Response)
    requires |moves| > 0
    ensures r.next == Resolved ==>
      |r.lines| == 4 && r.lines[1] == Line(ComputerLabel + computerMove) && r.lines[3] == Line(KeyLabel + secretKey)
    ensures r.next != Resolved ==> |r.lines| == 1
  {
    if input == "0" then
      Response(Exited, [Line(ExitNotice)])
    else if input == "?" then
      Response(AwaitingInput, [Table([HelpTable.Corner] + moves, HelpTable.HelpRows(moves))])
    else
      match ParseNumber(input)
      case Some(k) =>
        if 0 < k <= |moves| then Resolution(moves, computerMove, secretKey, moves[k - 1])
        else Response(AwaitingInput, [Line(InvalidNotice)])
      case None =>
        Response(AwaitingInput, [Line(InvalidNotice)])
  }

  /** A command that ends the session: "0", or the numeral of a move's position. */
  predicate EndsSession(n: nat, input: string) {
    input == "0" || (ParseNumber(input).Some? && 1 <= ParseNumber(input).value <= n)
  }

  /**
   * "0" exits, a number in [1, n] resolves, and "?" and every other command
   * keep the session awaiting input.
   */
  lemma RespondPhase(moves: seq<string>, computerMove: string, secretKey: string, input: string)
    requires |moves| > 0
    ensures Respond(moves, computerMove, secretKey, input).next == AwaitingInput <==> !EndsSession(|moves|, input)
    ensures Respond(moves, computerMove, secretKey, input).next == Exited <==> input == "0"
  {
  }

  /** Where play() stands after the inputs: its phase, how many inputs it read, what it wrote. */
  datatype Transcript = Transcript(phase: Phase, consumed: nat, lines: seq<Output>)

  /** The loop of play() over a finite sequence of inputs; it stops when they run out. */
  function Run(moves: seq<string>, computerMove: string, secretKey: string, inputs: seq<string>): (t: Transcript)
    requires |moves| > 0
    ensures t.consumed <= |inputs|
    ensures t.phase == AwaitingInput ==> t.consumed == |inputs|
  {
    if |inputs| == 0 then Transcript(AwaitingInput, 0, [])
    else
      var r := Respond(moves, computerMove, secretKey, inputs[0]);
      if r.next != AwaitingInput then Transcript(r.next, 1, r.lines)
      else
        var t := Run(moves, computerMove, secretKey, inputs[1..]);
        Transcript(t.phase, t.consumed + 1, r.lines + t.lines)
  }

  /** Run on the inputs from position `i` on is one response followed, if the session goes on, by Run from `i + 1`. */
  lemma RunUnfolds(moves: seq<string>, computerMove: string, secretKey: string, inputs: seq<string>, i: int)
    requires |moves| > 0 && 0 <= i < |inputs|
    ensures var r := Respond(moves, computerMove, secretKey, inputs[i]);
      var t := Run(moves, computerMove, secretKey, inputs[i + 1..]);
      Run(moves, computerMove, secretKey, inputs[i..])
        == if r.next != AwaitingInput then Transcript(r.next, 1, r.lines)
           else Transcript(t.phase, t.consumed + 1, r.lines + t.lines)
  {
    assert inputs[i..][0] == inputs[i];
    assert inputs[i..][1..] == inputs[i + 1..];
  }

  /** Everything a session writes: the preamble, then the loop's output. */
  function SessionOutput(moves: seq<string>, secretKey: string, choice: nat,
                         mac: (string, string) -> string, inputs: seq<string>): seq<Output>
    requires choice < |moves|
  {
    Preamble(mac(secretKey, moves[choice]), moves) + Run(moves, moves[choice], secretKey, inputs).lines
  }

  /**
   * The loop ends at the first command that ends the session, having read
   * exactly the commands up to it; it keeps awaiting input only when no
   * command ends it.
   */
  lemma {:induction false} RunStopsAtFirstEnd(moves: seq<string>, computerMove: string, secretKey: string,
                                              inputs: seq<string>)
    requires |moves| > 0
    ensures var t := Run(moves, computerMove, secretKey, inputs);
      && (t.phase == AwaitingInput <==> forall i :: 0 <= i < |inputs| ==> !EndsSession(|moves|, inputs[i]))
      && (t.phase != AwaitingInput ==>
            && 1 <= t.consumed
            && EndsSession(|moves|, inputs[t.consumed - 1])
            && (forall i :: 0 <= i < t.consumed - 1 ==> !EndsSession(|moves|, inputs[i]))
            && (t.phase == Exited <==> inputs[t.consumed - 1] == "0"))
  {
    if |inputs| > 0 {
      RespondPhase(moves, computerMove, secretKey, inputs[0]);
      RunStopsAtFirstEnd(moves, computerMove, secretKey, inputs[1..]);
      var rest := inputs[1..];
      assert forall i :: 1 <= i < |inputs| ==> inputs[i] == rest[i - 1];
    }
  }

  /** Typing the number the menu shows beside a move plays that move. */
  lemma MenuNumberPlaysMove(moves: seq<string>, computerMove: string, secretKey: string, i: int)
    requires 0 <= i < |moves|
    ensures Menu(moves)[i] == Line(Numeral(i + 1) + MenuSeparator + moves[i])
    ensures Respond(moves, computerMove, secretKey, Numeral(i + 1))
         == Resolution(moves, computerMove, secretKey, moves[i])
  {
    var s := Numeral(i + 1);
    NumeralRoundTrip(i + 1);
    assert s != "?" by {
      assert IsDigit(s[0]);
    }
    assert s != "0" by {
      NumeralRoundTrip(0);
      assert Numeral(0) == "0";
    }
  }

  // ---------------------------------------------------------------------------
  // Commit and reveal

  predicate StartsWith(s: string, prefix: string) {
    |prefix| <= |s| && s[..|prefix|] == prefix
  }

  /** A line that discloses the secret key or the computer's move. */
  predicate Reveals(o: Output) {
    o.Line? && (StartsWith(o.text, KeyLabel) || StartsWith(o.text, ComputerLabel))
  }

  /** A labelled line starts with its label, and what follows the label is the value. */
  lemma LabelledLine(tag: string, value: string)
    ensures StartsWith(tag + value, tag) && (tag + value)[|tag|..] == value
  {
    assert (tag + value)[..|tag|] == tag;
  }

  /** The digest published on the first line, the move and key revealed at the end. */
  function PublishedDigest(out: seq<Output>): string
    requires |out| > 0 && out[0].Line? && StartsWith(out[0].text, DigestLabel)
  {
    out[0].text[|DigestLabel|..]
  }

  function RevealedMove(out: seq<Output>): string
    requires |out| >= 3 && out[|out| - 3].Line? && StartsWith(out[|out| - 3].text, ComputerLabel)
  {
    out[|out| - 3].text[|ComputerLabel|..]
  }

  function RevealedKey(out: seq<Output>): string
    requires |out| >= 1 && out[|out| - 1].Line? && StartsWith(out[|out| - 1].text, KeyLabel)
  {
    out[|out| - 1].text[|KeyLabel|..]
  }

  /** A run that resolves ends with the four resolution lines for the fixed computer move and key. */
  lemma {:induction false} ResolvedRunEndsWithReveal(moves: seq<string>, computerMove: string, secretKey: string,
                                                     inputs: seq<string>)
    requires |moves| > 0
    ensures var t := Run(moves, computerMove, secretKey, inputs);
      t.phase == Resolved ==>
        && |t.lines| >= 4
        && t.lines[|t.lines| - 3] == Line(ComputerLabel + computerMove)
        && t.lines[|t.lines| - 1] == Line(KeyLabel + secretKey)
  {
    if |inputs| > 0 {
      ResolvedRunEndsWithReveal(moves, computerMove, secretKey, inputs[1..]);
    }
  }

  /** A command that does not resolve the round writes no line disclosing the key or the computer's move. */
  lemma RespondRevealsNothing(moves: seq<string>, computerMove: string, secretKey: string, input: string)
    requires |moves| > 0
    ensures var r := Respond(moves, computerMove, secretKey, input);
      r.next != Resolved ==> forall o :: o in r.lines ==> !Reveals(o)
  {
    assert InvalidNotice[0] == 'I' && ExitNotice[0] == 'E';
  }

  /** A run that does not resolve writes no line disclosing the key or the computer's move. */
  lemma {:induction false} UnresolvedRunRevealsNothing(moves: seq<string>, computerMove: string, secretKey: string,
                                                       inputs: seq<string>)
    requires |moves| > 0
    ensures var t := Run(moves, computerMove, secretKey, inputs);
      t.phase != Resolved ==> forall o :: o in t.lines ==> !Reveals(o)
  {
    if |inputs| > 0 {
      UnresolvedRunRevealsNothing(moves, computerMove, secretKey, inputs[1..]);
      RespondRevealsNothing(moves, computerMove, secretKey, inputs[0]);
    }
  }

  /** Neither the published digest, the menu nor the help hints disclose the key or the move. */
  lemma PreambleRevealsNothing(hmac: string, moves: seq<string>)
    ensures forall o :: o in Preamble(hmac, moves) ==> !Reveals(o)
  {
    var pre := Preamble(hmac, moves);
    forall k | 0 <= k < |pre|
      ensures !Reveals(pre[k])
    {
      if k == 0 {
        assert pre[k].text[4] == ':' && pre[k].text[0] == 'H';
      } else if k == 1 {
        assert pre[k].text[0] == 'A';
      } else if k < 2 + |moves| {
        assert pre[k] == Menu(moves)[k - 2];
        assert IsDigit(pre[k].text[0]);
      } else {
        assert pre[k].text[0] == '0' || pre[k].text[0] == '?';
      }
    }
  }

  /** After the preamble, lines ending with the computer-move and key reveals are read back as such. */
  lemma RevealedOnLastLines(digest: string, moves: seq<string>, computerMove: string, secretKey: string,
                            lines: seq<Output>)
    requires |lines| >= 3
    requires lines[|lines| - 3] == Line(ComputerLabel + computerMove)
    requires lines[|lines| - 1] == Line(KeyLabel + secretKey)
    ensures var out := Preamble(digest, moves) + lines;
      && |out| >= 3
      && out[0].Line? && StartsWith(out[0].text, DigestLabel)
      && out[|out| - 3].Line? && StartsWith(out[|out| - 3].text, ComputerLabel)
      && out[|out| - 1].Line? && StartsWith(out[|out| - 1].text, KeyLabel)
      && PublishedDigest(out) == digest
      && RevealedMove(out) == computerMove
      && RevealedKey(out) == secretKey
  {
    var pre := Preamble(digest, moves);
    var out := pre + lines;
    assert out[0] == pre[0] == Line(DigestLabel + digest);
    assert out[|out| - 3] == lines[|lines| - 3];
    assert out[|out| - 1] == lines[|lines| - 1];
    LabelledLine(DigestLabel, digest);
    LabelledLine(ComputerLabel, computerMove);
    LabelledLine(KeyLabel, secretKey);
  }

  /**
   * The commit-reveal guarantee. When the round resolves, the key and the
   * computer's move revealed at the end recompute, under the HMAC, the digest
   * published on the first line before any input was read.
   */
  lemma RevealMatchesCommitment(moves: seq<string>, secretKey: string, choice: nat,
                                mac: (string, string) -> string, inputs: seq<string>)
    requires choice < |moves|
    requires Run(moves, moves[choice], secretKey, inputs).phase == Resolved
    ensures var out := SessionOutput(moves, secretKey, choice, mac, inputs);
      && |out| >= 3
      && out[0].Line? && StartsWith(out[0].text, DigestLabel)
      && out[|out| - 3].Line? && StartsWith(out[|out| - 3].text, ComputerLabel)
      && out[|out| - 1].Line? && StartsWith(out[|out| - 1].text, KeyLabel)
      && RevealedMove(out) == moves[choice]
      && RevealedKey(out) == secretKey
      && mac(RevealedKey(out), RevealedMove(out)) == PublishedDigest(out)
  {
    ResolvedRunEndsWithReveal(moves, moves[choice], secretKey, inputs);
    RevealedOnLastLines(mac(secretKey, moves[choice]), moves, moves[choice], secretKey,
                        Run(moves, moves[choice], secretKey, inputs).lines);
  }

  /** A session that exits, or runs out of input, never discloses the key or the computer's move. */
  lemma UnresolvedSessionRevealsNothing(moves: seq<string>, secretKey: string, choice: nat,
                                        mac: (string, string) -> string, inputs: seq<string>)
    requires choice < |moves|
    requires Run(moves, moves[choice], secretKey, inputs).phase != Resolved
    ensures forall o :: o in SessionOutput(moves, secretKey, choice, mac, inputs) ==> !Reveals(o)
  {
    PreambleRevealsNothing(mac(secretKey, moves[choice]), moves);
    UnresolvedRunRevealsNothing(moves, moves[choice], secretKey, inputs);
  }

  /** A command that does not resolve the round writes the same whatever the key and the computer's move. */
  lemma RespondIgnoresSecrets(moves: seq<string>, computerMove: string, secretKey: string,
                              otherMove: string, otherKey: string, input: string)
    requires |moves| > 0
    requires Respond(moves, computerMove, secretKey, input).next != Resolved
    ensures Respond(moves, otherMove, otherKey, input) == Respond(moves, computerMove, secretKey, input)
  {
  }

  /**
   * Noninterference before the reveal: a loop that does not resolve ends in
   * the same phase, reads as many inputs and writes the same output whatever
   * the key and the computer's move are. So nothing it writes, the verdict
   * included, depends on them.
   */
  lemma {:induction false} UnresolvedRunIgnoresSecrets(moves: seq<string>, computerMove: string, secretKey: string,
                                                       otherMove: string, otherKey: string, inputs: seq<string>)
    requires |moves| > 0
    requires Run(moves, computerMove, secretKey, inputs).phase != Resolved
    ensures Run(moves, otherMove, otherKey, inputs) == Run(moves, computerMove, secretKey, inputs)
  {
    if |inputs| > 0 {
      var r := Respond(moves, computerMove, secretKey, inputs[0]);
      assert r.next != Resolved;
      RespondIgnoresSecrets(moves, computerMove, secretKey, otherMove, otherKey, inputs[0]);
      if r.next == AwaitingInput {
        UnresolvedRunIgnoresSecrets(moves, computerMove, secretKey, otherMove, otherKey, inputs[1..]);
      }
    }
  }

  /**
   * A session that exits or runs out of input depends on the key and the
   * computer's move only through the published digest: any other key and
   * move with the same digest give the same output.
   */
  lemma UnresolvedSessionIgnoresSecrets(moves: seq<string>, secretKey: string, choice: nat,
                                        mac: (string, string) -> string, inputs: seq<string>,
                                        otherKey: string, otherChoice: nat)
    requires choice < |moves| && otherChoice < |moves|
    requires Run(moves, moves[choice], secretKey, inputs).phase != Resolved
    requires mac(otherKey, moves[otherChoice]) == mac(secretKey, moves[choice])
    ensures SessionOutput(moves, otherKey, otherChoice, mac, inputs) == SessionOutput(moves, secretKey, choice, mac, inputs)
  {
    UnresolvedRunIgnoresSecrets(moves, moves[choice], secretKey, moves[otherChoice], otherKey, inputs);
  }

  /** Regrouping appended output, kept apart from the loop it is used in. */
  lemma AppendAssoc<T>(a: seq<T>, b: seq<T>, c: seq<T>)
    ensures (a + b) + c == a + (b + c)
  {
  }

  // ---------------------------------------------------------------------------
  // The session object

  /** RockPaperScissorsGame: its key, computer move and HMAC are fixed at construction. */
  class Game {
    const moves: seq<string>
    const rules: GameRules
    const secretKey: string
    const computerMove: string
    const hmac: string
    var phase: Phase
    var output: seq<Output>

    ghost predicate Valid() {
      && |moves| >= 3 && |moves| % 2 == 1 && Distinct(moves)
      && rules == NewGameRules(moves)
      && computerMove in moves
    }

    /**
     * `key` stands for HashGenerator.generateKey(), `choice` for the random
     * index Math.floor(Math.random() * moves.length), and `mac` for
     * HashGenerator.calculateHmac.
     */
    constructor (moves: seq<string>, key: string, choice: nat, mac: (string, string) -> string)
      requires Validate(moves) == Ok && choice < |moves|
      ensures Valid()
      ensures this.moves == moves && secretKey == key && computerMove == moves[choice]
      ensures hmac == mac(key, computerMove)
      ensures phase == AwaitingInput && output == []
    {
      this.moves := moves;
      rules := NewGameRules(moves);
      secretKey := key;
      computerMove := moves[choice];
      hmac := mac(key, moves[choice]);
      phase := AwaitingInput;
      output := [];
    }

    /** One pass through the body of play()'s loop. */
    method Step(input: string)
      requires Valid() && phase == AwaitingInput
      modifies this
      ensures phase == Respond(moves, computerMove, secretKey, input).next
      ensures output == old(output) + Respond(moves, computerMove, secretKey, input).lines
    {
      if input == "0" {
        output := output + [Line(ExitNotice)];
        phase := Exited;
      } else if input == "?" {
        var heading, rows := HelpTable.GenerateTable(moves);
        output := output + [Table(heading, rows)];
      } else {
        var k := ParseNumber(input);
        if k.Some? && 0 < k.value <= |moves| {
          var userMove := moves[k.value - 1];
          output := output + [
            Line(UserLabel + userMove),
            Line(ComputerLabel + computerMove),
            Line(DetermineOutcome(rules, computerMove, userMove)),
            Line(KeyLabel + secretKey)];
          phase := Resolved;
        } else {
          output := output + [Line(InvalidNotice)];
        }
      }
    }

    /** The opening of play(): the published HMAC, the numbered menu and the two commands. */
    method Announce()
      requires Valid() && phase == AwaitingInput
      modifies this
      ensures phase == AwaitingInput
      ensures output == old(output) + Preamble(hmac, moves)
    {
      output := output + [Line(DigestLabel + hmac), Line(MovesHeader)];
      var m := 0;
      while m < |moves|
        invariant 0 <= m <= |moves|
        invariant phase == AwaitingInput
        invariant output == old(output) + [Line(DigestLabel + hmac), Line(MovesHeader)] + Menu(moves)[..m]
      {
        output := output + [Line(Numeral(m + 1) + MenuSeparator + moves[m])];
        assert Menu(moves)[..m + 1] == Menu(moves)[..m] + [Menu(moves)[m]];
        m := m + 1;
      }
      output := output + [Line(ExitHint), Line(HelpHint)];
      assert Menu(moves)[..|moves|] == Menu(moves);
    }

    /**
     * play(): publish the HMAC and the menu, then handle commands until one
     * ends the session or the inputs run out; returns how many were read.
     */
    method Play(inputs: seq<string>) returns (consumed: nat)
      requires Valid() && phase == AwaitingInput
      modifies this
      ensures phase == Run(moves, computerMove, secretKey, inputs).phase
      ensures consumed == Run(moves, computerMove, secretKey, inputs).consumed
      ensures output == old(output) + Preamble(hmac, moves) + Run(moves, computerMove, secretKey, inputs).lines
    {
      Announce();
      ghost var base := old(output) + Preamble(hmac, moves);
      ghost var whole := Run(moves, computerMove, secretKey, inputs);
      var i := 0;
      ghost var rest := whole;
      assert inputs[i..] == inputs;
      while i < |inputs|
        invariant 0 <= i <= |inputs| && phase == AwaitingInput
        invariant rest == Run(moves, computerMove, secretKey, inputs[i..])
        invariant output + rest.lines == base + whole.lines
        invariant rest.phase == whole.phase && i + rest.consumed == whole.consumed
      {
        ghost var r := Respond(moves, computerMove, secretKey, inputs[i]);
        ghost var before := output;
        RunUnfolds(moves, computerMove, secretKey, inputs, i);
        Step(inputs[i]);
        i := i + 1;
        if phase != AwaitingInput {
          break;
        }
        ghost var next := Run(moves, computerMove, secretKey, inputs[i..]);
        AppendAssoc(before, r.lines, next.lines);
        rest := next;
      }
      consumed := i;
    }
  }

  /**
   * main(): validate the command-line moves; print the first failed check, or
   * start a game and play it. Returns everything written to the console.
   */
  method Launch(args: seq<string>, key: string, choice: nat, mac: (string, string) -> string,
                inputs: seq<string>) returns (out: seq<Output>)
    requires Validate(args) == Ok ==> choice < |args|
    ensures Validate(args).Rejected? ==> out == [Line(ErrorMessage(Validate(args).reason))]
    ensures Validate(args) == Ok ==> out == SessionOutput(args, key, choice, mac, inputs)
  {
    var checked := Validate(args);
    if checked.Rejected? {
      out := [Line(ErrorMessage(checked.reason))];
    } else {
      var game := new Game(args, key, choice, mac);
      var _ := game.Play(inputs);
      out := game.output;
    }
  }
}
