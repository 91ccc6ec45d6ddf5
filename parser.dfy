/** The tokenizer of parser.c: a command line is split into its maximal runs
    of non-whitespace characters, left to right, and a trailing `&` marks a
    background command.  A string here is the content of a C string before
    its terminator, so it holds no NUL character. */
module Parser {

  /** getNextToken's result when nothing but whitespace is left. */
  const EndOfString: int := -1

  /** isspace in the C locale: space, \t, \n, \v, \f and \r. */
  predicate IsSpace(c: char) {
    c == ' ' || c == '\t' || c == '\n' || c == '\U{000B}' || c == '\U{000C}' || c == '\r'
  }

  predicate SpaceFree(t: string) {
    forall i :: 0 <= i < |t| ==> !IsSpace(t[i])
  }

  predicate AllSpace(s: string) {
    forall i :: 0 <= i < |s| ==> IsSpace(s[i])
  }

  /** A token as parseCommand hands it out: non-empty and whitespace-free. */
  predicate IsToken(t: string) {
    |t| > 0 && SpaceFree(t)
  }

  // ---------------------------------------------------------------------
  // Specification of tokenization

  /** The first index at or after i that is not whitespace, or |s|. */
  function SkipSpace(s: string, i: nat): (j: nat)
    requires i <= |s|
    ensures i <= j <= |s|
    ensures forall p :: i <= p < j ==> IsSpace(s[p])
    ensures j < |s| ==> !IsSpace(s[j])
    decreases |s| - i
  {
    if i == |s| || !IsSpace(s[i]) then i else SkipSpace(s, i + 1)
  }

  /** The first index at or after i that is whitespace, or |s|. */
  function RunEnd(s: string, i: nat): (k: nat)
    requires i <= |s|
    ensures i <= k <= |s|
    ensures forall p :: i <= p < k ==> !IsSpace(s[p])
    ensures k < |s| ==> IsSpace(s[k])
    decreases |s| - i
  {
    if i == |s| || IsSpace(s[i]) then i else RunEnd(s, i + 1)
  }

  /** SkipSpace is the only index with its two properties. */
  lemma {:induction false} SkipSpaceIs(s: string, i: nat, j: nat)
    requires i <= j <= |s|
    requires forall p :: i <= p < j ==> IsSpace(s[p])
    requires j < |s| ==> !IsSpace(s[j])
    ensures SkipSpace(s, i) == j
    decreases j - i
  {
    if i < j {
      SkipSpaceIs(s, i + 1, j);
    }
  }

  /** RunEnd is the only index with its two properties. */
  lemma {:induction false} RunEndIs(s: string, i: nat, k: nat)
    requires i <= k <= |s|
    requires forall p :: i <= p < k ==> !IsSpace(s[p])
    requires k < |s| ==> IsSpace(s[k])
    ensures RunEnd(s, i) == k
    decreases k - i
  {
    if i < k {
      RunEndIs(s, i + 1, k);
    }
  }

  /** The maximal non-whitespace runs of s that start at or after i. */
  function TokensFrom(s: string, i: nat): (ts: seq<string>)
    requires i <= |s|
    ensures forall t :: t in ts ==> IsToken(t)
    decreases |s| - i
  {
    var j := SkipSpace(s, i);
    if j == |s| then []
    else
      var k := RunEnd(s, j);
      [s[j..k]] + TokensFrom(s, k)
  }

  /** The tokens of a command line, before the background rules. */
  function Tokens(s: string): seq<string> {
    TokensFrom(s, 0)
  }

  /** What parseCommand returns: the argument vector and the background flag. */
  datatype ParsedLine = ParsedLine(tokens: seq<string>, background: bool)

  /** The two background rules, tried in this order on the last token: a
      standalone `&` token is dropped; otherwise one trailing `&` is cut off
      the last token.  Either way the line is a background command. */
  function StripBackground(ts: seq<string>): (r: ParsedLine)
    ensures r.background <==> |ts| > 0 && EndsWithAmpersand(ts[|ts| - 1])
    ensures !r.background ==> r.tokens == ts
    ensures r.background ==> |ts| - 1 <= |r.tokens| <= |ts|
    ensures forall i :: 0 <= i < |ts| - 1 ==> r.tokens[i] == ts[i]
  {
    if |ts| == 0 then ParsedLine(ts, false)
    else
      var last := ts[|ts| - 1];
      if last == "&" then ParsedLine(ts[..|ts| - 1], true)
      else if EndsWithAmpersand(last) then
        ParsedLine(ts[..|ts| - 1] + [last[..|last| - 1]], true)
      else ParsedLine(ts, false)
  }

  predicate EndsWithAmpersand(t: string) {
    |t| > 0 && t[|t| - 1] == '&'
  }

  function Parse(s: string): (r: ParsedLine)
    ensures !r.background ==> r.tokens == Tokens(s)
    ensures |Tokens(s)| - 1 <= |r.tokens| <= |Tokens(s)|
  {
    StripBackground(Tokens(s))
  }

  // ---------------------------------------------------------------------
  // Token count (countTokens)

  /** Position p starts a token: it is not whitespace and either begins the
      line or follows whitespace. */
  predicate StartsToken(s: string, p: nat)
    requires p < |s|
  {
    !IsSpace(s[p]) && (p == 0 || IsSpace(s[p - 1]))
  }

  /** The number of token starts at positions i and beyond. */
  function BoundariesFrom(s: string, i: nat): nat
    requires i <= |s|
    decreases |s| - i
  {
    if i == |s| then 0
    else (if StartsToken(s, i) then 1 else 0) + BoundariesFrom(s, i + 1)
  }

  lemma {:induction false} NoBoundariesBetween(s: string, a: nat, b: nat)
    requires a <= b <= |s|
    requires forall p :: a <= p < b ==> !StartsToken(s, p)
    ensures BoundariesFrom(s, a) == BoundariesFrom(s, b)
    decreases b - a
  {
    if a < b {
      NoBoundariesBetween(s, a + 1, b);
    }
  }

  /** Counting token starts from a position that is not inside a token gives
      the number of tokens from there on. */
  lemma {:induction false} TokenCountFrom(s: string, i: nat)
    requires i <= |s|
    requires i == 0 || i == |s| || IsSpace(s[i - 1]) || IsSpace(s[i])
    ensures |TokensFrom(s, i)| == BoundariesFrom(s, i)
    decreases |s| - i
  {
    var j := SkipSpace(s, i);
    NoBoundariesBetween(s, i, j);
    if j < |s| {
      assert StartsToken(s, j);
      assert BoundariesFrom(s, j) == 1 + BoundariesFrom(s, j + 1);
      var k := RunEnd(s, j);
      NoBoundariesBetween(s, j + 1, k);
      TokenCountFrom(s, k);
      TokensFromAt(s, i, j, k);
    } else {
      TokensFromNone(s, i);
    }
  }

  lemma TokenCount(s: string)
    ensures |Tokens(s)| == BoundariesFrom(s, 0)
  {
    TokenCountFrom(s, 0);
  }

  // ---------------------------------------------------------------------
  // Tokens and the non-whitespace content of the line

  /** The line with every whitespace character removed. */
  function NonSpace(s: string): string {
    if s == [] then []
    else (if IsSpace(s[0]) then [] else [s[0]]) + NonSpace(s[1..])
  }

  function Concat(ts: seq<string>): string {
    if ts == [] then [] else ts[0] + Concat(ts[1..])
  }

  lemma {:induction false} NonSpaceAppend(a: string, b: string)
    ensures NonSpace(a + b) == NonSpace(a) + NonSpace(b)
  {
    if a != [] {
      assert (a + b)[1..] == a[1..] + b;
      NonSpaceAppend(a[1..], b);
    } else {
      assert a + b == b;
    }
  }

  lemma {:induction false} NonSpaceOfSpaces(s: string)
    requires AllSpace(s)
    ensures NonSpace(s) == []
  {
    if s != [] {
      NonSpaceOfSpaces(s[1..]);
    }
  }

  lemma {:induction false} NonSpaceOfToken(s: string)
    requires SpaceFree(s)
    ensures NonSpace(s) == s
  {
    if s != [] {
      NonSpaceOfToken(s[1..]);
    }
  }

  lemma {:induction false} ConcatTokensFrom(s: string, i: nat)
    requires i <= |s|
    ensures Concat(TokensFrom(s, i)) == NonSpace(s[i..])
    decreases |s| - i
  {
    var j := SkipSpace(s, i);
    if j == |s| {
      NonSpaceOfSpaces(s[i..]);
    } else {
      var k := RunEnd(s, j);
      assert s[i..] == s[i..j] + (s[j..k] + s[k..]);
      NonSpaceAppend(s[i..j], s[j..k] + s[k..]);
      NonSpaceAppend(s[j..k], s[k..]);
      NonSpaceOfSpaces(s[i..j]);
      NonSpaceOfToken(s[j..k]);
      ConcatTokensFrom(s, k);
      var ts := TokensFrom(s, i);
      assert ts[0] == s[j..k] && ts[1..] == TokensFrom(s, k);
    }
  }

  /** Gluing the tokens back together gives exactly the non-whitespace
      characters of the line, in their original order. */
  lemma ConcatTokens(s: string)
    ensures Concat(Tokens(s)) == NonSpace(s)
  {
    ConcatTokensFrom(s, 0);
    assert s[0..] == s;
  }

  /** A line has no tokens exactly when it is all whitespace (the empty line
      included). */
  lemma {:induction false} NoTokensIffAllSpace(s: string)
    ensures Tokens(s) == [] <==> AllSpace(s)
  {
    var j := SkipSpace(s, 0);
    if j < |s| {
      assert !IsSpace(s[j]);
    }
  }

  // ---------------------------------------------------------------------
  // Re-joining tokens with single spaces

  /** The tokens written out again, separated by single spaces. */
  function Join(ts: seq<string>): string {
    if |ts| == 0 then []
    else if |ts| == 1 then ts[0]
    else ts[0] + " " + Join(ts[1..])
  }

  lemma {:induction false} SkipSpaceShift(a: string, b: string, i: nat)
    requires i <= |b|
    ensures SkipSpace(a + b, |a| + i) == |a| + SkipSpace(b, i)
    decreases |b| - i
  {
    if i < |b| {
      assert (a + b)[|a| + i] == b[i];
      SkipSpaceShift(a, b, i + 1);
    }
  }

  lemma {:induction false} RunEndShift(a: string, b: string, i: nat)
    requires i <= |b|
    ensures RunEnd(a + b, |a| + i) == |a| + RunEnd(b, i)
    decreases |b| - i
  {
    if i < |b| {
      assert (a + b)[|a| + i] == b[i];
      RunEndShift(a, b, i + 1);
    }
  }

  /** Whatever precedes position |a| does not change the tokens found from
      there on. */
  lemma {:induction false} TokensFromShift(a: string, b: string, i: nat)
    requires i <= |b|
    ensures TokensFrom(a + b, |a| + i) == TokensFrom(b, i)
    decreases |b| - i
  {
    var s := a + b;
    SkipSpaceShift(a, b, i);
    var j := SkipSpace(b, i);
    if j == |b| {
      TokensFromNone(s, |a| + i);
      TokensFromNone(b, i);
    } else {
      RunEndShift(a, b, j);
      var k := RunEnd(b, j);
      var t := s[|a| + j..|a| + k];
      TokensFromAt(s, |a| + i, |a| + j, |a| + k);
      assert TokensFrom(s, |a| + i) == [t] + TokensFrom(s, |a| + k);
      TokensFromAt(b, i, j, k);
      SliceShift(a, b, j, k);
      TokensFromShift(a, b, k);
    }
  }

  /** A slice of b is the same slice of a + b, shifted by |a|. */
  lemma SliceShift(a: string, b: string, j: nat, k: nat)
    requires j <= k <= |b|
    ensures (a + b)[|a| + j..|a| + k] == b[j..k]
  {
  }

  /** No token is found from i when only whitespace follows it. */
  lemma TokensFromNone(s: string, i: nat)
    requires i <= |s| && SkipSpace(s, i) == |s|
    ensures TokensFrom(s, i) == []
  {
  }

  /** One step of TokensFrom: the token s[j..k] found from i, then the rest. */
  lemma TokensFromAt(s: string, i: nat, j: nat, k: nat)
    requires i <= j < |s| && SkipSpace(s, i) == j && RunEnd(s, j) == k
    ensures TokensFrom(s, i) == [s[j..k]] + TokensFrom(s, k)
  {
  }

  /** Whitespace after the last token adds no token. */
  lemma {:induction false} TokensFromTrailingSpace(a: string, w: string, i: nat)
    requires i <= |a|
    requires AllSpace(w)
    ensures TokensFrom(a + w, i) == TokensFrom(a, i)
    decreases |a| - i
  {
    var s := a + w;
    var j := SkipSpace(a, i);
    if j == |a| {
      forall p | i <= p < |s| ensures IsSpace(s[p]) {
        if p < |a| { assert s[p] == a[p]; } else { assert s[p] == w[p - |a|]; }
      }
      SkipSpaceIs(s, i, |s|);
    } else {
      forall p | i <= p < j ensures IsSpace(s[p]) { assert s[p] == a[p]; }
      assert s[j] == a[j];
      SkipSpaceIs(s, i, j);
      var k := RunEnd(a, j);
      forall p | j <= p < k ensures !IsSpace(s[p]) { assert s[p] == a[p]; }
      if k < |s| {
        if k < |a| { assert s[k] == a[k]; } else { assert s[k] == w[0]; }
      }
      RunEndIs(s, j, k);
      assert s[j..k] == a[j..k];
      TokensFromTrailingSpace(a, w, k);
    }
  }

  lemma TokensTrailingSpace(a: string, w: string)
    requires AllSpace(w)
    ensures Tokens(a + w) == Tokens(a)
  {
    TokensFromTrailingSpace(a, w, 0);
  }

  lemma {:induction false} TokensOfToken(t: string)
    requires IsToken(t)
    ensures Tokens(t) == [t]
  {
    SkipSpaceIs(t, 0, 0);
    RunEndIs(t, 0, |t|);
    SkipSpaceIs(t, |t|, |t|);
    assert TokensFrom(t, |t|) == [];
    assert t[0..|t|] == t;
  }

  /** Tokenizing the tokens re-joined with single spaces gives the same
      tokens back: the split is exactly at the whitespace. */
  lemma {:induction false} TokensOfJoin(ts: seq<string>)
    requires forall t :: t in ts ==> IsToken(t)
    ensures Tokens(Join(ts)) == ts
  {
    if |ts| == 1 {
      TokensOfToken(ts[0]);
    } else if |ts| > 1 {
      assert ts[0] in ts;
      TokensOfTokenThen(ts[0], Join(ts[1..]));
      forall u | u in ts[1..] ensures IsToken(u) { assert u in ts; }
      TokensOfJoin(ts[1..]);
      assert ts == [ts[0]] + ts[1..];
    }
  }

  /** A token, a space, then more: the token comes first, then the tokens of
      the rest. */
  lemma TokensOfTokenThen(t: string, rest: string)
    requires IsToken(t)
    ensures Tokens(t + " " + rest) == [t] + Tokens(rest)
  {
    var s := t + " " + rest;
    assert s == (t + " ") + rest;
    assert s[0] == t[0];
    SkipSpaceIs(s, 0, 0);
    forall p | 0 <= p < |t| ensures !IsSpace(s[p]) { assert s[p] == t[p]; }
    assert s[|t|] == ' ';
    RunEndIs(s, 0, |t|);
    assert s[0..|t|] == t;
    TokensFromAt(s, 0, 0, |t|);
    assert TokensFrom(s, |t|) == TokensFrom(s, |t| + 1);
    TokensFromShift(t + " ", rest, 0);
  }

  // ---------------------------------------------------------------------
  // What the background rules do

  function Last(ts: seq<string>): string
    requires ts != []
  {
    ts[|ts| - 1]
  }

  /** Every token parseCommand returns is non-empty and whitespace-free, even
      after a trailing `&` was cut off. */
  lemma ParsedTokensAreTokens(s: string)
    ensures forall t :: t in Parse(s).tokens ==> IsToken(t)
  {
    var ts := Tokens(s);
    if ts != [] {
      var last := Last(ts);
      assert last in ts;
      if last != "&" && EndsWithAmpersand(last) {
        var cut := last[..|last| - 1];
        assert last == cut + "&";
        assert |cut| > 0;
        var out := Parse(s).tokens;
        forall t | t in out ensures IsToken(t) {
          var i :| 0 <= i < |out| && out[i] == t;
          if i < |ts| - 1 { assert ts[i] in ts; }
        }
      }
    }
  }

  /** The background flag is set exactly when the last token ends in `&`;
      exactly one `&` disappears then, and only the last token can change. */
  lemma BackgroundRules(s: string)
    ensures var ts, p := Tokens(s), Parse(s);
      && (p.background <==> ts != [] && EndsWithAmpersand(Last(ts)))
      && (!p.background ==> p.tokens == ts)
      && (p.background ==> Concat(p.tokens) + "&" == Concat(ts))
      && (p.background ==> |ts| - 1 <= |p.tokens| <= |ts|)
      && (forall i :: 0 <= i < |ts| - 1 ==> p.tokens[i] == ts[i])
  {
    var ts, p := Tokens(s), Parse(s);
    if ts != [] {
      assert Last(ts) in ts;
      var n := |ts|;
      var last := Last(ts);
      ConcatSnoc(ts[..n - 1], last);
      assert ts == ts[..n - 1] + [last];
      if last != "&" && EndsWithAmpersand(last) {
        var cut := last[..|last| - 1];
        ConcatSnoc(ts[..n - 1], cut);
        assert cut + "&" == last;
      }
    }
  }

  lemma {:induction false} ConcatSnoc(ts: seq<string>, t: string)
    ensures Concat(ts + [t]) == Concat(ts) + t
  {
    if ts != [] {
      assert (ts + [t])[1..] == ts[1..] + [t];
      ConcatSnoc(ts[1..], t);
    } else {
      assert [t][1..] == [];
    }
  }

  /** Apart from the one `&` a background line loses, the returned tokens
      hold exactly the non-whitespace content of the line. */
  lemma ParsedContent(s: string)
    ensures Concat(Parse(s).tokens) + (if Parse(s).background then "&" else "") == NonSpace(s)
  {
    ConcatTokens(s);
    BackgroundRules(s);
  }

  /** A blank line gives no tokens and a foreground flag; a line that is only
      `&` gives no tokens and the background flag; no other line gives an
      empty argument vector. */
  lemma EmptyParse(s: string)
    ensures Parse(s) == ParsedLine([], false) <==> AllSpace(s)
    ensures Parse(s) == ParsedLine([], true) <==> Tokens(s) == ["&"]
    ensures Parse(s).tokens == [] <==> AllSpace(s) || Tokens(s) == ["&"]
  {
    NoTokensIffAllSpace(s);
    var ts := Tokens(s);
    if |ts| > 1 {
      assert |Parse(s).tokens| >= 1;
    } else if |ts| == 1 {
      assert Last(ts) in ts;
    }
  }

  // ---------------------------------------------------------------------
  // The C functions

  /** countTokens: one scan that counts the positions where a token starts. */
  method CountTokens(cmdLine: string) returns (numTokens: nat)
    ensures numTokens == |Tokens(cmdLine)|
  {
    TokenCount(cmdLine);
    if |cmdLine| == 0 {
      return 0;
    }
    numTokens := if IsSpace(cmdLine[0]) then 0 else 1;
    var i := 1;
    while i < |cmdLine|
      invariant 1 <= i <= |cmdLine|
      invariant numTokens + BoundariesFrom(cmdLine, i) == BoundariesFrom(cmdLine, 0)
    {
      if !IsSpace(cmdLine[i]) && IsSpace(cmdLine[i - 1]) {
        numTokens := numTokens + 1;
      }
      i := i + 1;
    }
  }

  /** getNextToken: skips whitespace from start and returns the end of the
      token found there, together with the token's start (the C code writes
      it back through its start argument); EndOfString when only whitespace is
      left, with start unchanged. */
  method GetNextToken(cmdLine: string, start: nat) returns (end: int, newStart: nat)
    requires start <= |cmdLine|
    ensures end == EndOfString <==> (forall p :: start <= p < |cmdLine| ==> IsSpace(cmdLine[p]))
    ensures end == EndOfString ==> newStart == start && TokensFrom(cmdLine, start) == []
    ensures end != EndOfString ==>
      && start <= newStart < end <= |cmdLine|
      && (forall p :: start <= p < newStart ==> IsSpace(cmdLine[p]))
      && (forall p :: newStart <= p < end ==> !IsSpace(cmdLine[p]))
      && (end < |cmdLine| ==> IsSpace(cmdLine[end]))
      && TokensFrom(cmdLine, start) == [cmdLine[newStart..end]] + TokensFrom(cmdLine, end)
  {
    var i := start;
    while i < |cmdLine| && IsSpace(cmdLine[i])
      invariant start <= i <= |cmdLine|
      invariant forall p :: start <= p < i ==> IsSpace(cmdLine[p])
    {
      i := i + 1;
    }
    assert i == SkipSpace(cmdLine, start);
    if i == |cmdLine| {
      return EndOfString, start;
    }
    newStart := i;
    while i < |cmdLine| && !IsSpace(cmdLine[i])
      invariant newStart <= i <= |cmdLine|
      invariant forall p :: newStart <= p < i ==> !IsSpace(cmdLine[p])
    {
      i := i + 1;
    }
    assert i == RunEnd(cmdLine, newStart);
    end := i;
  }

  /** parseCommand: fills an argument array with the tokens one by one, then
      applies the background rules to the last one.  The returned sequence
      stands for the NULL-terminated array: its length is the index of the
      terminator. */
  method ParseCommand(cmdLine: string) returns (args: seq<string>, background: bool)
    ensures ParsedLine(args, background) == Parse(cmdLine)
    ensures forall t :: t in args ==> IsToken(t)
  {
    var numTokens := CountTokens(cmdLine);
    background := false;
    var argv := new string[numTokens];
    var start: nat := 0;
    for i := 0 to numTokens
      invariant start <= |cmdLine|
      invariant argv[..i] == Tokens(cmdLine)[..i]
      invariant TokensFrom(cmdLine, start) == Tokens(cmdLine)[i..]
    {
      ghost var rest := Tokens(cmdLine)[i..];
      var end, tokenStart := GetNextToken(cmdLine, start);
      assert rest != [] && rest[0] == Tokens(cmdLine)[i];
      argv[i] := cmdLine[tokenStart..end];
      assert argv[i] == Tokens(cmdLine)[i];
      assert rest[1..] == Tokens(cmdLine)[i + 1..];
      start := end;
    }
    assert argv[..] == Tokens(cmdLine);
    if numTokens > 0 && argv[numTokens - 1] == "&" {
      background := true;
      numTokens := numTokens - 1;
    } else if numTokens > 0 {
      var length := |argv[numTokens - 1]|;
      assert argv[numTokens - 1] in Tokens(cmdLine);
      if argv[numTokens - 1][length - 1] == '&' {
        background := true;
        argv[numTokens - 1] := argv[numTokens - 1][..length - 1];
      }
    }
    args := argv[..numTokens];
    ParsedTokensAreTokens(cmdLine);
  }

  // ---------------------------------------------------------------------
  // Worked examples

  lemma ExampleTrailingAmpersandToken()
    ensures Parse("ls -l &") == ParsedLine(["ls", "-l"], true)
  {
    assert "ls -l &" == Join(["ls", "-l", "&"]);
    TokensOfJoin(["ls", "-l", "&"]);
  }

  lemma ExampleAmpersandSuffix()
    ensures Parse("sleep 5&") == ParsedLine(["sleep", "5"], true)
  {
    SleepTokens();
    assert "5&"[..1] == "5";
    assert StripBackground(["sleep", "5&"]) == ParsedLine(["sleep", "5"], true);
  }

  /** `sleep 5&` has the tokens `sleep` and `5&`. */
  lemma SleepTokens()
    ensures Tokens("sleep 5&") == ["sleep", "5&"]
  {
    var ts := ["sleep", "5&"];
    assert "sleep 5&" == Join(ts);
    TokensOfJoin(ts);
  }

  lemma ExampleAmpersandInside()
    ensures Parse("echo a&b") == ParsedLine(["echo", "a&b"], false)
  {
    assert "echo a&b" == Join(["echo", "a&b"]);
    TokensOfJoin(["echo", "a&b"]);
  }

  lemma ExampleOnlyAmpersand()
    ensures Parse("&\n") == ParsedLine([], true)
  {
    TokensTrailingSpace("&", "\n");
    TokensOfToken("&");
  }

  lemma ExampleDoubleAmpersand()
    ensures Parse("x&&") == ParsedLine(["x&"], true)
  {
    TokensOfToken("x&&");
    assert "x&&"[..2] == "x&";
  }
}
