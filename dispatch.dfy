/** What one input line does to the shell (handleInput, builtInCommands and
    executeOldCommand of shell.c), as functions of the ledger value: the new
    ledger and what the line leads to. */
module Dispatch {
  import opened Decimal
  import opened Parser
  import opened History

  /** The effect of a line, other than on the ledger.  Launch stands for
      executeCommand: fork and exec the argument vector, waiting for the
      child unless the background flag is set. */
  datatype Outcome =
    | Empty
    | Exit(status: int)
    | HistoryLines(lines: seq<string>)
    | NotFound(message: string)
    | Launch(argv: seq<string>, background: bool)

  datatype StepResult = StepResult(ledger: LedgerState, outcome: Outcome)

  /** checkDigits: `!` followed by one or more decimal digits. */
  predicate IsReplayToken(t: string): (b: bool)
    ensures b ==> StartsWithBang(t) && IsToken(t)
  {
    |t| >= 2 && t[0] == '!' && AllDigits(t[1..])
  }

  /** The first tokens handled by builtInCommands. */
  predicate IsBuiltIn(t: string) {
    t == "exit" || t == "history" || IsReplayToken(t)
  }

  /** The ID a replay token asks for (atoi of what follows the `!`). */
  function ReplayId(t: string): (n: nat)
    requires IsReplayToken(t)
    ensures n == 0 <==> forall i :: 1 <= i < |t| ==> t[i] == '0'
  {
    var digits := t[1..];
    assert forall i :: 1 <= i < |t| ==> t[i] == digits[i - 1];
    DecimalValue(digits)
  }

  /** 1 when the first token of the line starts with `!`, else 0: a line that
      can reach executeOldCommand has depth 1, a recorded line depth 0. */
  function Depth(input: string): nat {
    var p := Parse(input);
    if p.tokens != [] && StartsWithBang(p.tokens[0]) then 1 else 0
  }

  lemma StoredDepth(s: LedgerState, i: nat)
    requires WellFormed(s) && i < HistoryLength
    ensures Depth(s.slots[i].text) == 0
  {
    if i >= s.count {
      assert s.slots[i].text == "";
      NoTokensIffAllSpace("");
    }
  }

  /** handleInput: parse; ignore a line without tokens; record a line whose
      first token does not start with `!` (before anything else, so
      `history` lists itself); then hand exit, history and `!<digits>` to
      builtInCommands and launch everything else. */
  function Step(s: LedgerState, input: string): (r: StepResult)
    requires WellFormed(s)
    ensures WellFormed(r.ledger)
    decreases Depth(input), 2
  {
    var p := Parse(input);
    if p.tokens == [] then StepResult(s, Empty)
    else
      var first := p.tokens[0];
      var s1 := if StartsWithBang(first) then s else Recorded(s, input);
      assert WellFormed(s1) by {
        if !StartsWithBang(first) { RecordedWellFormed(s, input); }
      }
      if IsBuiltIn(first) then BuiltIn(s1, p.tokens)
      else StepResult(s1, Launch(p.tokens, p.background))
  }

  /** builtInCommands: exit ends the shell with status 0, history lists the
      ledger, and `!<digits>` replays a recorded line. */
  function BuiltIn(s: LedgerState, tokens: seq<string>): (r: StepResult)
    requires WellFormed(s)
    requires tokens != [] && IsBuiltIn(tokens[0])
    ensures WellFormed(r.ledger)
    decreases if StartsWithBang(tokens[0]) then 1 else 0, 1
  {
    if tokens[0] == "exit" then StepResult(s, Exit(0))
    else if tokens[0] == "history" then StepResult(s, HistoryLines(Listing(s)))
    else Replay(s, tokens[0])
  }

  /** executeOldCommand: look the ID up in all ten slots and feed the text
      found to handleInput again; report a miss. */
  function Replay(s: LedgerState, numCmd: string): (r: StepResult)
    requires WellFormed(s)
    requires IsReplayToken(numCmd)
    ensures WellFormed(r.ledger)
    decreases 1, 0
  {
    match FindSlot(s.slots, ReplayId(numCmd))
    case Some(i) =>
      StoredDepth(s, i);
      Step(s, s.slots[i].text)
    case None => StepResult(s, NotFound(numCmd + ": event not found\n"))
  }

  /** How many handleInput calls are active at once while a line is
      processed: 2 when a replay finds its line, otherwise 1.  It follows
      the branches of Step by construction: one activation for the line,
      plus those of the stored line when Replay finds it.  Never more than
      1 + Depth(input), the first component of Step's termination measure. */
  function Activations(s: LedgerState, input: string): (a: nat)
    requires WellFormed(s)
    ensures 1 <= a <= 1 + Depth(input)
    decreases Depth(input)
  {
    var p := Parse(input);
    if p.tokens != [] && IsReplayToken(p.tokens[0]) then
      match FindSlot(s.slots, ReplayId(p.tokens[0]))
      case Some(i) =>
        StoredDepth(s, i);
        1 + Activations(s, s.slots[i].text)
      case None => 1
    else 1
  }

  // ---------------------------------------------------------------------
  // Properties of one step

  /** Replay never nests: a line found in the ledger never itself replays,
      so handleInput is at most two calls deep. */
  lemma {:induction false} ReplayNestsOnce(s: LedgerState, input: string)
    requires WellFormed(s)
    ensures Activations(s, input) <= 2
    ensures Activations(s, input) == 2 <==>
      var p := Parse(input);
      p.tokens != [] && IsReplayToken(p.tokens[0]) && FindSlot(s.slots, ReplayId(p.tokens[0])).Some?
  {
    var p := Parse(input);
    if p.tokens != [] && IsReplayToken(p.tokens[0]) {
      match FindSlot(s.slots, ReplayId(p.tokens[0]))
      case Some(i) =>
        StoredDepth(s, i);
        var q := Parse(s.slots[i].text);
        assert !(q.tokens != [] && IsReplayToken(q.tokens[0]));
      case None =>
    }
  }

  /** A line without tokens (blank, or a lone `&`) changes nothing. */
  lemma EmptyLineDoesNothing(s: LedgerState, input: string)
    requires WellFormed(s)
    requires AllSpace(input) || Tokens(input) == ["&"]
    ensures Step(s, input) == StepResult(s, Empty)
  {
    EmptyParse(input);
  }

  /** A line whose first token does not start with `!` is recorded under
      the next ID before it is classified: exit, history, or a launch of its
      tokens with its background flag. */
  lemma RecordedLine(s: LedgerState, input: string)
    requires WellFormed(s) && Recordable(input)
    ensures var p, s1 := Parse(input), Recorded(s, input);
      && Step(s, input).ledger == s1
      && s1.count == s.count + 1
      && s1.slots[0] == Record(input, s.count + 1)
      && Step(s, input).outcome ==
           if p.tokens[0] == "exit" then Exit(0)
           else if p.tokens[0] == "history" then HistoryLines(Listing(s1))
           else Launch(p.tokens, p.background)
  {
    var p := Parse(input);
    assert !IsReplayToken(p.tokens[0]);
  }

  /** `history` lists its own line last, under the newest ID. */
  lemma HistoryListsItself(s: LedgerState, input: string)
    requires WellFormed(s)
    requires Parse(input).tokens != [] && Parse(input).tokens[0] == "history"
    ensures var out := Step(s, input).outcome;
      && out.HistoryLines?
      && |out.lines| == Held(Step(s, input).ledger) > 0
      && out.lines[|out.lines| - 1] == FormatRecord(Record(input, s.count + 1))
  {
    var s1 := Recorded(s, input);
    RecordedWellFormed(s, input);
    assert Step(s, input) == StepResult(s1, HistoryLines(Listing(s1)));
  }

  /** A line starting with `!` that is not `!<digits>` (such as `!` or `!x`)
      is neither recorded nor replayed: it is launched as it is. */
  lemma BangLineLaunches(s: LedgerState, input: string)
    requires WellFormed(s)
    requires var p := Parse(input);
      p.tokens != [] && StartsWithBang(p.tokens[0]) && !IsReplayToken(p.tokens[0])
    ensures Step(s, input) == StepResult(s, Launch(Parse(input).tokens, Parse(input).background))
  {
  }

  /** A `!<digits>` line goes to executeOldCommand without being recorded. */
  lemma StepReplays(s: LedgerState, input: string)
    requires WellFormed(s)
    requires var p := Parse(input); p.tokens != [] && IsReplayToken(p.tokens[0])
    ensures Step(s, input) == Replay(s, Parse(input).tokens[0])
  {
    var p := Parse(input);
    var first := p.tokens[0];
    assert StartsWithBang(first) && first != "exit" && first != "history";
    assert Step(s, input) == BuiltIn(s, p.tokens);
  }

  /** A replay that finds its line is exactly the same as typing that line
      again: for a held line that means it is recorded again under a new ID
      and run; for a never-written slot (`!0` with fewer than ten commands
      so far) its empty text does nothing. */
  lemma ReplayHit(s: LedgerState, input: string)
    requires WellFormed(s)
    requires var p := Parse(input);
      p.tokens != [] && IsReplayToken(p.tokens[0])
      && FindSlot(s.slots, ReplayId(p.tokens[0])).Some?
    ensures var i := FindSlot(s.slots, ReplayId(Parse(input).tokens[0])).value;
      && Step(s, input) == Step(s, s.slots[i].text)
      && (i < s.count ==> Step(s, input).ledger == Recorded(s, s.slots[i].text))
      && (i >= s.count ==> Step(s, input) == StepResult(s, Empty))
  {
    var first := Parse(input).tokens[0];
    var i := FindSlot(s.slots, ReplayId(first)).value;
    var text := s.slots[i].text;
    StepReplays(s, input);
    StoredDepth(s, i);
    assert Replay(s, first) == Step(s, text);
    if i < s.count {
      RecordedLine(s, text);
    } else {
      EmptyLineDoesNothing(s, text);
    }
  }

  /** A replay that finds nothing reports "<token>: event not found" and
      leaves the ledger as it was. */
  lemma ReplayMiss(s: LedgerState, input: string)
    requires WellFormed(s)
    requires var p := Parse(input);
      p.tokens != [] && IsReplayToken(p.tokens[0])
      && FindSlot(s.slots, ReplayId(p.tokens[0])).None?
    ensures Step(s, input) == StepResult(s, NotFound(Parse(input).tokens[0] + ": event not found\n"))
  {
    StepReplays(s, input);
  }

  /** Every line either leaves the ledger alone or records exactly one line
      under the next ID. */
  lemma {:induction false} StepRecordsAtMostOne(s: LedgerState, input: string)
    requires WellFormed(s)
    ensures var l := Step(s, input).ledger;
      l == s || (Recordable(l.slots[0].text) && l == Recorded(s, l.slots[0].text))
  {
    var p := Parse(input);
    if p.tokens != [] {
      var first := p.tokens[0];
      if IsReplayToken(first) {
        match FindSlot(s.slots, ReplayId(first))
        case Some(i) =>
          ReplayHit(s, input);
          if i < s.count {
            RecordedLine(s, s.slots[i].text);
          }
        case None =>
          ReplayMiss(s, input);
      } else if !StartsWithBang(first) {
        RecordedLine(s, input);
      }
    }
  }

  // ---------------------------------------------------------------------
  // Replaying what history printed

  /** The token `!<id>` for an ID that history prints replays that line. */
  lemma ListedIdReplays(s: LedgerState, k: nat, w: string)
    requires WellFormed(s) && k < Held(s)
    requires AllSpace(w)
    ensures Step(s, "!" + NatToString(s.slots[k].id) + w) == Step(s, s.slots[k].text)
  {
    var t := "!" + NatToString(s.slots[k].id);
    assert t[1..] == NatToString(s.slots[k].id);
    assert IsToken(t);
    TokensTrailingSpace(t, w);
    TokensOfToken(t);
    DecimalRoundTrip(s.slots[k].id);
    FindHeldSlot(s, k);
    ReplayHit(s, t + w);
  }

  /** Replaying a recorded `exit` line ends the shell, like typing it. */
  lemma ReplayedExitExits(s: LedgerState, k: nat, w: string)
    requires WellFormed(s) && k < Held(s)
    requires AllSpace(w)
    requires Parse(s.slots[k].text).tokens != [] && Parse(s.slots[k].text).tokens[0] == "exit"
    ensures Step(s, "!" + NatToString(s.slots[k].id) + w).outcome == Exit(0)
  {
    ListedIdReplays(s, k, w);
    RecordedLine(s, s.slots[k].text);
  }

  // ---------------------------------------------------------------------
  // A session worked out

  lemma WordLine(t: string)
    requires IsToken(t) && t != "&" && !EndsWithAmpersand(t)
    ensures Parse(t + "\n") == ParsedLine([t], false)
  {
    TokensTrailingSpace(t, "\n");
    TokensOfToken(t);
  }

  /** A one-word command line that is not a built-in is recorded and
      launched in the foreground. */
  lemma WordStep(s: LedgerState, t: string)
    requires WellFormed(s)
    requires IsToken(t) && t != "&" && !EndsWithAmpersand(t)
    requires !StartsWithBang(t) && t != "exit" && t != "history"
    ensures Step(s, t + "\n") == StepResult(Recorded(s, t + "\n"), Launch([t], false))
  {
    WordLine(t);
    RecordedLine(s, t + "\n");
  }

  /** The ledger after `pwd`, and after `pwd` then `ls`. */
  function AfterPwd(): LedgerState { Recorded(Initial(), "pwd\n") }
  function AfterPwdLs(): LedgerState { Recorded(AfterPwd(), "ls\n") }

  /** `pwd` is a plain one-word command. */
  lemma PwdIsWord()
    ensures IsToken("pwd") && "pwd" != "&" && !EndsWithAmpersand("pwd")
    ensures !StartsWithBang("pwd") && "pwd" != "exit" && "pwd" != "history"
    ensures "pwd" + "\n" == "pwd\n"
  {
  }

  lemma SessionPwd()
    ensures WellFormed(AfterPwd())
    ensures Step(Initial(), "pwd\n") == StepResult(AfterPwd(), Launch(["pwd"], false))
  {
    InitialWellFormed();
    assert "pwd" + "\n" == "pwd\n";
    WordStep(Initial(), "pwd");
  }

  lemma SessionLs()
    ensures WellFormed(AfterPwdLs())
    ensures Step(AfterPwd(), "ls\n") == StepResult(AfterPwdLs(), Launch(["ls"], false))
  {
    SessionPwd();
    assert "ls" + "\n" == "ls\n";
    WordStep(AfterPwd(), "ls");
  }

  lemma SessionLookup()
    ensures FindSlot(AfterPwdLs().slots, 1) == Some(1)
  {
    SessionLs();
    assert AfterPwdLs().slots[1] == Record("pwd\n", 1);
    FindHeldSlot(AfterPwdLs(), 1);
  }

  lemma ReplayTokenOne()
    ensures Parse("!1\n").tokens == ["!1"] && IsReplayToken("!1") && ReplayId("!1") == 1
  {
    WordLine("!1");
    assert "!1" + "\n" == "!1\n";
    assert "!1"[1..] == "1";
    assert DecimalValue("1") == 1 by { assert "1"[..0] == ""; }
  }

  /** `!1` after `pwd`, `ls` finds `pwd` in slot 1 and runs it again. */
  lemma SessionHit()
    ensures WellFormed(AfterPwdLs())
    ensures Step(AfterPwdLs(), "!1\n") == Step(AfterPwdLs(), "pwd\n")
  {
    var s := AfterPwdLs();
    SessionLs();
    SessionLookup();
    ReplayTokenOne();
    assert s.slots[1].text == "pwd\n";
    assert Parse("!1\n").tokens[0] == "!1";
    assert FindSlot(s.slots, ReplayId("!1")).value == 1;
    ReplayHit(s, "!1\n");
  }

  lemma SessionReplay()
    ensures WellFormed(AfterPwdLs())
    ensures Step(AfterPwdLs(), "!1\n") == StepResult(Recorded(AfterPwdLs(), "pwd\n"), Launch(["pwd"], false))
  {
    SessionLs();
    calc {
      Step(AfterPwdLs(), "!1\n");
      { SessionHit(); }
      Step(AfterPwdLs(), "pwd\n");
      { PwdIsWord();
        WordStep(AfterPwdLs(), "pwd"); }
      StepResult(Recorded(AfterPwdLs(), "pwd\n"), Launch(["pwd"], false));
    }
  }

  /** `pwd`, `ls`, `!1` typed one after the other: the replay runs `pwd`
      again and records it again, under ID 3. */
  lemma ReplaySession()
    ensures var s0 := Initial();
      var r1 := Step(s0, "pwd\n");
      var r2 := Step(r1.ledger, "ls\n");
      var r3 := Step(r2.ledger, "!1\n");
      && r1.outcome == Launch(["pwd"], false)
      && r2.outcome == Launch(["ls"], false)
      && r3.outcome == Launch(["pwd"], false)
      && r3.ledger.count == 3
      && r3.ledger.slots[..3] == [Record("pwd\n", 3), Record("ls\n", 2), Record("pwd\n", 1)]
  {
    SessionPwd();
    SessionLs();
    SessionReplay();
    var s3 := Recorded(AfterPwdLs(), "pwd\n");
    assert s3.slots[..3] == [Record("pwd\n", 3), Record("ls\n", 2), Record("pwd\n", 1)];
  }
}
