/** The history ledger of shell.c, as a value: the ten slots of
    historyBuffer, most recent first, and commandCount.  The class in
    shell.dfy holds the same data in an array and a counter and is proved to
    move through exactly the states described here. */
module History {
  import opened Decimal
  import opened Parser

  /** HISTORY_LENGTH: how many commands the shell remembers. */
  const HistoryLength: nat := 10

  datatype Option<T> = None | Some(value: T)

  /** A history_t: the raw line as typed (its newline included) and its ID. */
  datatype Record = Record(text: string, id: nat)

  /** The zero-initialised contents of a slot never written to. */
  const Unused := Record("", 0)

  datatype LedgerState = LedgerState(slots: seq<Record>, count: nat)

  /** The ledger when the shell starts: a zeroed buffer and commandCount 0. */
  function Initial(): LedgerState {
    LedgerState(seq(HistoryLength, _ => Unused), 0)
  }

  /** The number of slots that hold a recorded command. */
  function Held(s: LedgerState): nat {
    if s.count < HistoryLength then s.count else HistoryLength
  }

  /** First character of a token is `!` (the test `**tokens != '!'`). */
  predicate StartsWithBang(t: string) {
    |t| > 0 && t[0] == '!'
  }

  /** A line the shell records: it has tokens and the first one does not
      start with `!`. */
  predicate Recordable(text: string): (b: bool)
    ensures b ==> Tokens(text) != []
  {
    var p := Parse(text);
    p.tokens != [] && !StartsWithBang(p.tokens[0])
  }

  /** The ledger invariant: slot i holds ID commandCount - i while fewer than
      commandCount commands are in front of it, and is still zeroed
      otherwise; every recorded text is a recordable line. */
  ghost predicate WellFormed(s: LedgerState) {
    && |s.slots| == HistoryLength
    && (forall i :: 0 <= i < HistoryLength ==>
          if i < s.count then s.slots[i].id == s.count - i && Recordable(s.slots[i].text)
          else s.slots[i] == Unused)
  }

  /** commandCount++, createNewCmd and recordCommand: the new record, with ID
      the incremented count, goes to slot 0; every other record moves one
      slot down and the one in slot 9 is dropped. */
  function Recorded(s: LedgerState, text: string): (r: LedgerState)
    requires |s.slots| == HistoryLength
    ensures |r.slots| == HistoryLength && r.count == s.count + 1
    ensures r.slots[0] == Record(text, s.count + 1)
    ensures forall i :: 0 <= i < HistoryLength - 1 ==> r.slots[i + 1] == s.slots[i]
  {
    LedgerState([Record(text, s.count + 1)] + s.slots[..HistoryLength - 1], s.count + 1)
  }

  lemma InitialWellFormed()
    ensures WellFormed(Initial())
  {
  }

  /** Recording a recordable line keeps the invariant. */
  lemma RecordedWellFormed(s: LedgerState, text: string)
    requires WellFormed(s) && Recordable(text)
    ensures WellFormed(Recorded(s, text))
  {
    var r := Recorded(s, text);
    forall i | 0 <= i < HistoryLength
      ensures if i < r.count then r.slots[i].id == r.count - i && Recordable(r.slots[i].text)
              else r.slots[i] == Unused
    {
      if i > 0 {
        assert r.slots[i] == s.slots[i - 1];
      }
    }
  }

  /** Recording several lines one after the other. */
  function RecordAll(s: LedgerState, texts: seq<string>): LedgerState
    requires |s.slots| == HistoryLength
    decreases |texts|
  {
    if texts == [] then s
    else
      var s1 := Recorded(s, texts[0]);
      RecordAll(s1, texts[1..])
  }

  /** After recording n lines the count has grown by n and the slots hold
      the last of them, newest first, followed by what was there before. */
  lemma {:induction false} RecordAllShifts(s: LedgerState, texts: seq<string>)
    requires |s.slots| == HistoryLength
    ensures var r := RecordAll(s, texts);
      && |r.slots| == HistoryLength
      && r.count == s.count + |texts|
      && (forall i :: 0 <= i < HistoryLength && i < |texts| ==> r.slots[i].text == texts[|texts| - 1 - i])
      && (forall i :: |texts| <= i < HistoryLength ==> r.slots[i] == s.slots[i - |texts|])
    decreases |texts|
  {
    if texts != [] {
      var s1 := Recorded(s, texts[0]);
      var rest := texts[1..];
      RecordAllShifts(s1, rest);
      var r := RecordAll(s1, rest);
      assert r == RecordAll(s, texts);
      forall i | 0 <= i < HistoryLength && i < |texts|
        ensures r.slots[i].text == texts[|texts| - 1 - i]
      {
        if i == |rest| {
          assert r.slots[i] == s1.slots[0];
        } else {
          assert r.slots[i].text == rest[|rest| - 1 - i];
          assert rest[|rest| - 1 - i] == texts[|texts| - 1 - i];
        }
      }
      forall i | |texts| <= i < HistoryLength
        ensures r.slots[i] == s.slots[i - |texts|]
      {
        var j := i - |texts|;
        assert r.slots[i] == s1.slots[j + 1];
        assert s1.slots[j + 1] == s.slots[j];
      }
    }
  }

  /** Recording recordable lines keeps the invariant; so after eleven
      commands from the start the IDs are 11 down to 2 and the first command
      is gone. */
  lemma {:induction false} RecordAllWellFormed(s: LedgerState, texts: seq<string>)
    requires WellFormed(s)
    requires forall j :: 0 <= j < |texts| ==> Recordable(texts[j])
    ensures WellFormed(RecordAll(s, texts))
    decreases |texts|
  {
    if texts != [] {
      RecordedWellFormed(s, texts[0]);
      var rest := texts[1..];
      assert forall j :: 0 <= j < |rest| ==> Recordable(rest[j]) by {
        forall j | 0 <= j < |rest| ensures Recordable(rest[j]) {
          assert rest[j] == texts[j + 1];
        }
      }
      RecordAllWellFormed(Recorded(s, texts[0]), rest);
    }
  }

  /** Eleven recorded commands from the start leave the last ten, with IDs
      11 down to 2; the first command is gone. */
  lemma ElevenCommandsEvictFirst(texts: seq<string>)
    requires |texts| == 11
    requires forall j :: 0 <= j < |texts| ==> Recordable(texts[j])
    ensures var r := RecordAll(Initial(), texts);
      |r.slots| == HistoryLength &&
      forall i :: 0 <= i < HistoryLength ==> r.slots[i] == Record(texts[10 - i], 11 - i)
  {
    InitialWellFormed();
    RecordAllShifts(Initial(), texts);
    RecordAllWellFormed(Initial(), texts);
  }

  // ---------------------------------------------------------------------
  // printHistory and printStruct

  /** printStruct's line for a record: "\t\t<id> <text>".  Every such line
      names its record unambiguously: it reads back as exactly the ID and
      text it was printed from. */
  function FormatRecord(r: Record): (line: string)
    ensures DecodeLine(line) == Some(r)
  {
    FormattedDecodes(r.id, r.text);
    "\t\t" + NatToString(r.id) + " " + r.text
  }

  /** The lines printHistory writes: the held slots from the highest down to
      slot 0, that is oldest first. */
  function Listing(s: LedgerState): (lines: seq<string>)
    requires |s.slots| == HistoryLength
    ensures |lines| == Held(s)
    ensures Held(s) > 0 ==> lines[Held(s) - 1] == FormatRecord(s.slots[0])
  {
    var m := Held(s);
    seq(m, k requires 0 <= k < m => FormatRecord(s.slots[m - 1 - k]))
  }

  /** The listing has one line per held command, no padding, in ascending ID
      order: line k shows the slot holding ID commandCount - held + 1 + k. */
  lemma ListingAscending(s: LedgerState)
    requires WellFormed(s)
    ensures |Listing(s)| == Held(s)
    ensures forall k :: 0 <= k < Held(s) ==>
      && Listing(s)[k] == FormatRecord(s.slots[Held(s) - 1 - k])
      && s.slots[Held(s) - 1 - k].id == s.count - Held(s) + 1 + k
    ensures Held(s) > 0 ==> Listing(s)[Held(s) - 1] == FormatRecord(s.slots[0])
  {
    forall k | 0 <= k < Held(s)
      ensures Listing(s)[k] == FormatRecord(s.slots[Held(s) - 1 - k])
    {
      ListingLine(s, k);
    }
  }

  /** Line k of the listing shows slot held - 1 - k. */
  lemma ListingLine(s: LedgerState, k: nat)
    requires |s.slots| == HistoryLength && k < Held(s)
    ensures Listing(s)[k] == FormatRecord(s.slots[Held(s) - 1 - k])
  {
  }


  // Reading a listing line back

  /** The length of the run of digits at the start of s. */
  function DigitRun(s: string): (n: nat)
    ensures n <= |s| && AllDigits(s[..n])
    ensures n < |s| ==> !IsDigit(s[n])
  {
    if s == [] || !IsDigit(s[0]) then 0
    else
      var n := 1 + DigitRun(s[1..]);
      assert s[..n] == [s[0]] + s[1..][..n - 1];
      n
  }

  /** Parses a line of the history listing back into the record it shows. */
  function DecodeLine(line: string): Option<Record> {
    if |line| < 2 || line[..2] != "\t\t" then None
    else
      var rest := line[2..];
      var n := DigitRun(rest);
      if n == 0 || n == |rest| || rest[n] != ' ' then None
      else Some(Record(rest[n + 1..], DecimalValue(rest[..n])))
  }

  lemma {:induction false} DigitRunOfDigits(d: string, t: string)
    requires AllDigits(d)
    requires t == [] || !IsDigit(t[0])
    ensures DigitRun(d + t) == |d|
  {
    if d != [] {
      assert (d + t)[1..] == d[1..] + t;
      DigitRunOfDigits(d[1..], t);
    } else {
      assert d + t == t;
    }
  }

  /** The printStruct layout reads back: the digits up to the space are
      the ID and everything after the space is the text. */
  lemma FormattedDecodes(id: nat, text: string)
    ensures DecodeLine("\t\t" + NatToString(id) + " " + text) == Some(Record(text, id))
  {
    var digits := NatToString(id);
    var line := "\t\t" + NatToString(id) + " " + text;
    assert line == "\t\t" + (digits + (" " + text));
    var rest := line[2..];
    assert rest == digits + (" " + text);
    DigitRunOfDigits(digits, " " + text);
    assert rest[..|digits|] == digits;
    assert rest[|digits| + 1..] == text;
    DecimalRoundTrip(id);
  }

  // ---------------------------------------------------------------------
  // The lookup loop of executeOldCommand

  /** The first slot at or after i holding the given ID. */
  function FindSlotFrom(slots: seq<Record>, id: nat, i: nat): (r: Option<nat>)
    requires i <= |slots|
    ensures r.Some? ==> i <= r.value < |slots| && slots[r.value].id == id
    ensures r.Some? ==> forall j :: i <= j < r.value ==> slots[j].id != id
    ensures r.None? ==> forall j :: i <= j < |slots| ==> slots[j].id != id
    decreases |slots| - i
  {
    if i == |slots| then None
    else if slots[i].id == id then Some(i)
    else FindSlotFrom(slots, id, i + 1)
  }

  function FindSlot(slots: seq<Record>, id: nat): Option<nat> {
    FindSlotFrom(slots, id, 0)
  }

  /** A lookup succeeds exactly for the IDs still held, and also for ID 0
      while some slot has never been written. */
  lemma FindSlotFinds(s: LedgerState, id: nat)
    requires WellFormed(s)
    ensures FindSlot(s.slots, id).Some? <==>
      (s.count - Held(s) < id <= s.count) || (id == 0 && s.count < HistoryLength)
  {
    if s.count - Held(s) < id <= s.count {
      assert s.slots[s.count - id].id == id;
    } else if id == 0 && s.count < HistoryLength {
      assert s.slots[s.count].id == 0;
    }
  }

  /** A held record is found at its own slot. */
  lemma FindHeldSlot(s: LedgerState, k: nat)
    requires WellFormed(s) && k < Held(s)
    ensures FindSlot(s.slots, s.slots[k].id) == Some(k)
  {
    var r := FindSlot(s.slots, s.slots[k].id);
    assert s.slots[k].id == s.count - k;
  }

  /** What a lookup finds is a recordable line or a zeroed slot. */
  lemma FoundText(s: LedgerState, id: nat)
    requires WellFormed(s) && FindSlot(s.slots, id).Some?
    ensures var i := FindSlot(s.slots, id).value;
      if i < s.count then Recordable(s.slots[i].text) else s.slots[i] == Unused
  {
  }
}
