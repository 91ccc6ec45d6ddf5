/** The shell of shell.c: the history buffer and command counter it updates
    in place, and the functions that work on them.  Each method is proved to
    take the shell from one ledger state to the one Dispatch describes. */
module Shell {
  import opened Decimal
  import opened Parser
  import opened History
  import opened Dispatch

  /** checkDigits: scans the characters after the `!` and fails on the first
      non-digit; succeeds only if it saw at least one digit. */
  method CheckDigits(token: string) returns (valid: bool)
    ensures valid <==> IsReplayToken(token)
  {
    var hasDigits := false;
    if |token| == 0 || token[0] != '!' {
      return false;
    }
    var i := 1;
    while i < |token|
      invariant 1 <= i <= |token|
      invariant hasDigits <==> i > 1
      invariant forall j :: 1 <= j < i ==> IsDigit(token[j])
    {
      if !IsDigit(token[i]) {
        return false;
      }
      hasDigits := true;
      i := i + 1;
    }
    return hasDigits;
  }

  class Shell {
    /** historyBuffer: the ten slots, most recent command first. */
    const historyBuffer: array<Record>
    /** commandCount: the number of commands recorded so far. */
    var commandCount: nat

    ghost function State(): LedgerState
      reads this, historyBuffer
    {
      LedgerState(historyBuffer[..], commandCount)
    }

    ghost predicate Valid()
      reads this, historyBuffer
    {
      WellFormed(State())
    }

    /** Program start: the buffer is zeroed and commandCount is 0. */
    constructor ()
      ensures Valid() && State() == Initial()
    {
      historyBuffer := new Record[HistoryLength](_ => Unused);
      commandCount := 0;
      new;
      assert historyBuffer[..] == seq(HistoryLength, _ => Unused);
    }

    /** recordCommand: moves slots 8 down to 0 one place towards the tail
      (the record in slot 9 is overwritten) and puts the new one in slot 0. */
    method RecordCommand(cmd: Record)
      requires historyBuffer.Length == HistoryLength
      modifies historyBuffer
      ensures historyBuffer[..] == [cmd] + old(historyBuffer[..])[..HistoryLength - 1]
    {
      var i := HistoryLength - 2;
      while i > -1
        invariant -1 <= i <= HistoryLength - 2
        invariant forall j :: 0 <= j <= i ==> historyBuffer[j] == old(historyBuffer[j])
        invariant forall j :: i + 1 < j < HistoryLength ==> historyBuffer[j] == old(historyBuffer[j - 1])
      {
        historyBuffer[i + 1] := historyBuffer[i];
        i := i - 1;
      }
      historyBuffer[0] := cmd;
    }

    /** The recording step of handleInput: commandCount++, then the record
      built by createNewCmd (the line and the new count) goes in. */
    method AddCommand(input: string)
      requires Valid() && Recordable(input)
      modifies this, historyBuffer
      ensures Valid()
      ensures State() == Recorded(old(State()), input)
    {
      commandCount := commandCount + 1;
      var newCmd := Record(input, commandCount);
      RecordCommand(newCmd);
      RecordedWellFormed(old(State()), input);
    }

    /** printHistory: one printStruct line per held slot, from the highest
      held slot down to slot 0. */
    method PrintHistory() returns (lines: seq<string>)
      requires historyBuffer.Length == HistoryLength
      ensures lines == Listing(State())
    {
      var m := if commandCount < HistoryLength then commandCount else HistoryLength;
      lines := [];
      var i := m - 1;
      while i > -1
        invariant -1 <= i < m
        invariant |lines| == m - 1 - i
        invariant forall k :: 0 <= k < |lines| ==> lines[k] == FormatRecord(historyBuffer[m - 1 - k])
      {
        lines := lines + [FormatRecord(historyBuffer[i])];
        i := i - 1;
      }
    }

    /** The search loop of executeOldCommand: slots 0 to 9 in order, the
      first whose ID matches. */
    method Lookup(desiredID: nat) returns (slot: Option<nat>)
      requires historyBuffer.Length == HistoryLength
      ensures slot == FindSlot(historyBuffer[..], desiredID)
      ensures slot.Some? ==> slot.value < HistoryLength && historyBuffer[slot.value].id == desiredID
      ensures slot.None? ==> forall j :: 0 <= j < HistoryLength ==> historyBuffer[j].id != desiredID
    {
      var i := 0;
      while i < HistoryLength
        invariant 0 <= i <= HistoryLength
        invariant forall j :: 0 <= j < i ==> historyBuffer[j].id != desiredID
        invariant FindSlotFrom(historyBuffer[..], desiredID, i) == FindSlot(historyBuffer[..], desiredID)
      {
        if historyBuffer[i].id == desiredID {
          return Some(i);
        }
        i := i + 1;
      }
      return None;
    }

    /** executeOldCommand: reads the ID after the `!`, finds its record and
      processes the record's text with HandleInput, or reports the miss. */
    method ExecuteOldCommand(numCmd: string) returns (out: Outcome)
      requires Valid() && IsReplayToken(numCmd)
      modifies this, historyBuffer
      ensures Valid()
      ensures StepResult(State(), out) == Replay(old(State()), numCmd)
      decreases 1, 0
    {
      var desiredID := DecimalValue(numCmd[1..]);
      var slot := Lookup(desiredID);
      match slot {
        case Some(i) =>
          var currCmd := historyBuffer[i];
          StoredDepth(State(), i);
          out := HandleInput(currCmd.text);
        case None =>
          out := NotFound(numCmd + ": event not found\n");
      }
    }

    /** builtInCommands: exit, history, or a replay. */
    method BuiltInCommands(tokens: seq<string>) returns (out: Outcome)
      requires Valid() && tokens != [] && IsBuiltIn(tokens[0])
      modifies this, historyBuffer
      ensures Valid()
      ensures StepResult(State(), out) == BuiltIn(old(State()), tokens)
      decreases if StartsWithBang(tokens[0]) then 1 else 0, 1
    {
      if tokens[0] == "exit" {
        out := Exit(0);
      } else if tokens[0] == "history" {
        var lines := PrintHistory();
        out := HistoryLines(lines);
      } else {
        out := ExecuteOldCommand(tokens[0]);
      }
    }

    /** handleInput: parse the line; a line without tokens does nothing;
      record the line unless its first token starts with `!`; then run a
      built-in command or launch the tokens. */
    method HandleInput(input: string) returns (out: Outcome)
      requires Valid()
      modifies this, historyBuffer
      ensures Valid()
      ensures StepResult(State(), out) == Step(old(State()), input)
      decreases Depth(input), 2
    {
      var tokens, background := ParseCommand(input);
      if tokens == [] {
        return Empty;
      }
      if !StartsWithBang(tokens[0]) {
        AddCommand(input);
      }
      var builtIn := tokens[0] == "exit" || tokens[0] == "history";
      if !builtIn {
        builtIn := CheckDigits(tokens[0]);
      }
      if builtIn {
        out := BuiltInCommands(tokens);
      } else {
        out := Launch(tokens, background);
      }
    }
  }
}
