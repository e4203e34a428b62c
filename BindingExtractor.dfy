/** The binding extractor: a forward scan over the lines of the keybindings
    file that pairs each `#` comment with the block of `bindsym` lines after
    it and records one `Binding` per usable `bindsym` line.

    Three descriptions of the same scan live here:
    - `Scanner.Run`, the loop itself, over the cursor `lineIndex` and the
      list `bindings` (the script's module-level state);
    - `Scan`, the same state machine written as a function (looking for a
      comment, skipping blank lines, checking for `bindsym`, consuming the
      block), which `Run` is proved to follow;
    - `Reference`, a line-by-line description that says, for every line on
      its own, which comment (if any) owns it; `ScanMatchesReference` proves
      that the scan from the first line computes exactly that. */
module BindingExtractor {
  import opened PyText
  import opened Outcome
  import opened Shell

  datatype Binding = Binding(description: string, binding: string, command: string)

  /** A line that can start a description: its raw text starts with `#`. */
  predicate IsComment(line: string) {
    StartsWith(line, "#")
  }

  /** A line after which a comment's block begins: `lstrip()` starts with `bindsym`. */
  predicate OpensBlock(line: string) {
    StartsWith(LStrip(line), "bindsym")
  }

  /** A line that continues a binding block: not blank and not an (indented) comment. */
  predicate InBlock(line: string) {
    !IsBlank(line) && !StartsWith(LStrip(line), "#")
  }

  /** An option token of `bindsym`, such as `--release`. */
  predicate IsOption(token: string): (b: bool)
    ensures b <==> |token| >= 2 && token[0] == '-' && token[1] == '-'
  {
    StartsWith(token, "--")
  }

  /** The description a comment line supplies: `line[1:].strip()`. */
  function Description(comment: string): (d: string)
    requires IsComment(comment)
    ensures |d| <= |comment| - 1
    ensures |d| > 0 ==> !IsSpace(d[0]) && !IsSpace(d[|d| - 1])
  {
    StripIsClean(comment[1..]);
    LStripSpec(comment[1..]);
    RStripSpec(LStrip(comment[1..]));
    Strip(comment[1..])
  }

  /** Records found so far followed by the records of the rest of the scan;
      an abort anywhere is the outcome of the whole. */
  function Then(first: Result<seq<Binding>>, rest: Result<seq<Binding>>): Result<seq<Binding>> {
    if first.Aborted? then first
    else if rest.Aborted? then rest
    else Ok(first.value + rest.value)
  }

  lemma ThenOkEmpty(r: Result<seq<Binding>>)
    ensures Then(Ok([]), r) == r
  {
    if r.Ok? {
      assert [] + r.value == r.value;
    }
  }

  lemma AppendAssoc(a: seq<Binding>, b: seq<Binding>, c: seq<Binding>)
    ensures (a + b) + c == a + (b + c)
  {
  }

  lemma ThenAssoc(a: Result<seq<Binding>>, b: Result<seq<Binding>>, c: Result<seq<Binding>>)
    ensures Then(a, Then(b, c)) == Then(Then(a, b), c)
  {
    if a.Ok? && b.Ok? && c.Ok? {
      assert a.value + (b.value + c.value) == (a.value + b.value) + c.value;
    }
  }

  // ---------------------------------------------------------------------
  // One `bindsym` line
  // ---------------------------------------------------------------------

  /** The index of the first token at or after `idx` that is not an option. */
  function OptionsEnd(tokens: seq<string>, idx: nat): (k: nat)
    requires idx <= |tokens|
    ensures idx <= k <= |tokens|
    ensures forall m :: idx <= m < k ==> IsOption(tokens[m])
    ensures k < |tokens| ==> !IsOption(tokens[k])
    decreases |tokens| - idx
  {
    if idx < |tokens| && IsOption(tokens[idx]) then OptionsEnd(tokens, idx + 1) else idx
  }

  /** The record a tokenised block line yields under `description`, if any. */
  function Record(tokens: seq<string>, description: string, join: Joiner): (r: Option<Binding>)
    ensures r.Some? ==> |tokens| >= 2 && tokens[0] == "bindsym"
    ensures r.Some? ==> r.value.description == description && !IsOption(r.value.binding)
  {
    if |tokens| == 0 || tokens[0] != "bindsym" then None
    else
      var k := OptionsEnd(tokens, 1);
      if k >= |tokens| then None
      else
        var rest := tokens[k + 1..];
        Some(Binding(description, tokens[k], if |rest| == 0 then "" else join(rest)))
  }

  /** A line yields a record exactly when its first token is `bindsym` and
      some later token is not an option; the key is the first such token, it
      never starts with `--`, and the command joins the tokens after it
      (the empty string when there are none). */
  lemma RecordSpec(tokens: seq<string>, description: string, join: Joiner)
    ensures Record(tokens, description, join).Some? <==>
            |tokens| > 0 && tokens[0] == "bindsym" &&
            exists m :: 1 <= m < |tokens| && !IsOption(tokens[m])
    ensures Record(tokens, description, join).Some? ==>
            var r := Record(tokens, description, join).value;
            r.description == description && !IsOption(r.binding) &&
            exists k :: 1 <= k < |tokens| && (forall m :: 1 <= m < k ==> IsOption(tokens[m])) &&
                        r.binding == tokens[k] &&
                        r.command == (if k + 1 == |tokens| then "" else join(tokens[k + 1..]))
  {
    if |tokens| > 0 && tokens[0] == "bindsym" {
      var k := OptionsEnd(tokens, 1);
      if k < |tokens| {
        assert 1 <= k < |tokens| && !IsOption(tokens[k]);
      } else {
        assert forall m :: 1 <= m < |tokens| ==> IsOption(tokens[m]);
      }
    }
  }

  /** Lines 92-101 of scripts/help.py, for one tokenised block line: check for
      `bindsym`, skip the option tokens, take the key and join the rest. */
  method ParseBindsym(tokens: seq<string>, description: string, join: Joiner) returns (r: Option<Binding>)
    ensures r == Record(tokens, description, join)
  {
    if |tokens| == 0 || tokens[0] != "bindsym" {
      return None;
    }
    var idx := 1;
    while idx < |tokens| && StartsWith(tokens[idx], "--")
      invariant 1 <= idx <= |tokens|
      invariant OptionsEnd(tokens, idx) == OptionsEnd(tokens, 1)
      decreases |tokens| - idx
    {
      idx := idx + 1;
    }
    if idx >= |tokens| {
      return None;
    }
    var key := tokens[idx];
    var commandTokens := tokens[idx + 1..];
    var command := if |commandTokens| > 0 then join(commandTokens) else "";
    return Some(Binding(description, key, command));
  }

  /** What block line `m` contributes under `description`: its record, if
      any, or an abort when the tokeniser rejects its stripped text. */
  function LineOutcome(lines: seq<string>, m: nat, description: string, split: Splitter, join: Joiner): (r: Result<seq<Binding>>)
    requires m < |lines|
    ensures r.Aborted? <==> split(Strip(lines[m])).None?
    ensures r.Aborted? ==> r.line == m
    ensures r.Ok? ==> |r.value| <= 1
    ensures r.Ok? ==> forall b :: b in r.value ==> b.description == description && !IsOption(b.binding)
  {
    match split(Strip(lines[m]))
    case None => Aborted(m)
    case Some(tokens) =>
      match Record(tokens, description, join)
      case None => Ok([])
      case Some(b) => Ok([b])
  }

  /** The records an optional record stands for. */
  function Records(r: Option<Binding>): seq<Binding> {
    match r
    case None => []
    case Some(b) => [b]
  }

  /** A block extended by one line is the block followed by that line's outcome. */
  lemma {:induction false} BlockSnoc(lines: seq<string>, j: nat, m: nat, description: string, split: Splitter, join: Joiner)
    requires j <= m < |lines|
    ensures Block(lines, j, m + 1, description, split, join) ==
            Then(Block(lines, j, m, description, split, join), LineOutcome(lines, m, description, split, join))
    decreases m - j
  {
    var o := LineOutcome(lines, m, description, split, join);
    if j == m {
      ThenOkEmpty(o);
      if o.Ok? {
        assert o.value + [] == o.value;
      }
    } else {
      BlockSnoc(lines, j + 1, m, description, split, join);
      ThenAssoc(LineOutcome(lines, j, description, split, join), Block(lines, j + 1, m, description, split, join), o);
    }
  }

  /** A block whose lines `[j, m)` gave the records `done`, extended by a
      line that tokenises, gives `done` and that line's record. */
  lemma BlockExtendOk(lines: seq<string>, j: nat, m: nat, description: string, split: Splitter, join: Joiner,
                      done: seq<Binding>)
    requires j <= m < |lines|
    requires Block(lines, j, m, description, split, join) == Ok(done) && split(Strip(lines[m])).Some?
    ensures Block(lines, j, m + 1, description, split, join) ==
            Ok(done + Records(Record(split(Strip(lines[m])).value, description, join)))
  {
    BlockSnoc(lines, j, m, description, split, join);
  }

  /** A block whose lines `[j, m)` all tokenise and whose line `m` does not
      aborts at line `m`, whatever follows. */
  lemma {:induction false} BlockAbortAt(lines: seq<string>, j: nat, m: nat, k: nat, description: string,
                                        split: Splitter, join: Joiner)
    requires j <= m < k <= |lines|
    requires Block(lines, j, m, description, split, join).Ok? && split(Strip(lines[m])).None?
    ensures Block(lines, j, k, description, split, join) == Aborted(m)
    decreases m - j
  {
    if j < m {
      BlockAbortAt(lines, j + 1, m, k, description, split, join);
    }
  }

  // ---------------------------------------------------------------------
  // The scan as a state machine
  // ---------------------------------------------------------------------

  /** The first line at or after `i` that is not blank (or the end). */
  function SkipBlanks(lines: seq<string>, i: nat): (j: nat)
    requires i <= |lines|
    ensures i <= j <= |lines|
    ensures forall m :: i <= m < j ==> IsBlank(lines[m])
    ensures j < |lines| ==> !IsBlank(lines[j])
    decreases |lines| - i
  {
    if i < |lines| && IsBlank(lines[i]) then SkipBlanks(lines, i + 1) else i
  }

  /** The first line at or after `j` that ends a block (or the end). */
  function BlockEnd(lines: seq<string>, j: nat): (k: nat)
    requires j <= |lines|
    ensures j <= k <= |lines|
    ensures forall m :: j <= m < k ==> InBlock(lines[m])
    ensures k < |lines| ==> !InBlock(lines[k])
    decreases |lines| - j
  {
    if j < |lines| && InBlock(lines[j]) then BlockEnd(lines, j + 1) else j
  }

  /** The outcomes of block lines `[j, k)`, in order. */
  function Block(lines: seq<string>, j: nat, k: nat, description: string, split: Splitter, join: Joiner): Result<seq<Binding>>
    requires j <= k <= |lines|
    decreases k - j
  {
    if j == k then Ok([])
    else Then(LineOutcome(lines, j, description, split, join), Block(lines, j + 1, k, description, split, join))
  }

  /** The scan with its cursor at line `i`, looking for a comment. */
  function Scan(lines: seq<string>, i: nat, split: Splitter, join: Joiner): Result<seq<Binding>>
    requires i <= |lines|
    decreases |lines| - i
  {
    if i == |lines| then Ok([])
    else if !IsComment(lines[i]) then Scan(lines, i + 1, split, join)
    else
      var j := SkipBlanks(lines, i + 1);
      if j == |lines| || !OpensBlock(lines[j]) then Scan(lines, j, split, join)
      else
        var k := BlockEnd(lines, j);
        Then(Block(lines, j, k, Description(lines[i]), split, join), Scan(lines, k, split, join))
  }

  /** A line that is not a comment is passed over. */
  lemma ScanSkipsNonComment(lines: seq<string>, i: nat, split: Splitter, join: Joiner)
    requires i < |lines| && !IsComment(lines[i])
    ensures Scan(lines, i, split, join) == Scan(lines, i + 1, split, join)
  {
  }

  /** A comment whose next non-blank line does not open a block (or that
      reaches the end) yields nothing, and the scan resumes AT that line: it
      is not consumed. */
  lemma ScanAbandonsComment(lines: seq<string>, i: nat, split: Splitter, join: Joiner)
    requires i < |lines| && IsComment(lines[i])
    requires var j := SkipBlanks(lines, i + 1); j == |lines| || !OpensBlock(lines[j])
    ensures Scan(lines, i, split, join) == Scan(lines, SkipBlanks(lines, i + 1), split, join)
  {
  }

  /** A comment followed (after blank lines) by a `bindsym` line owns the
      block that starts there; the block's lines are consumed once each and
      the scan resumes at the line that ends the block. */
  lemma ScanConsumesBlock(lines: seq<string>, i: nat, split: Splitter, join: Joiner)
    requires i < |lines| && IsComment(lines[i])
    requires var j := SkipBlanks(lines, i + 1); j < |lines| && OpensBlock(lines[j])
    ensures var j := SkipBlanks(lines, i + 1);
            Scan(lines, i, split, join) ==
            Then(Block(lines, j, BlockEnd(lines, j), Description(lines[i]), split, join),
                 Scan(lines, BlockEnd(lines, j), split, join))
  {
  }

  /** In a run of comment lines (blank lines between them allowed), every
      comment but the last is abandoned: the scan from the first comment is
      the scan from the last one, so the last supplies the description. */
  lemma {:induction false} ScanCommentRunLastWins(lines: seq<string>, i: nat, last: nat, split: Splitter, join: Joiner)
    requires i <= last < |lines|
    requires forall m :: i <= m <= last ==> IsComment(lines[m]) || IsBlank(lines[m])
    requires IsComment(lines[i]) && IsComment(lines[last])
    ensures Scan(lines, i, split, join) == Scan(lines, last, split, join)
    decreases last - i
  {
    if i < last {
      var j := SkipBlanks(lines, i + 1);
      assert j <= last by {
        if j > last {
          assert IsBlank(lines[last]);
          HashLine(lines[last]);
        }
      }
      assert IsComment(lines[j]) by {
        assert !IsBlank(lines[j]);
      }
      HashLine(lines[j]);
      assert !OpensBlock(lines[j]);
      ScanAbandonsComment(lines, i, split, join);
      ScanCommentRunLastWins(lines, j, last, split, join);
    }
  }

  // ---------------------------------------------------------------------
  // The scan line by line
  // ---------------------------------------------------------------------

  /** The first line of the run of block lines that contains line `b`. */
  function RunStart(lines: seq<string>, b: nat): (s: nat)
    requires b < |lines| && InBlock(lines[b])
    ensures s <= b
    ensures forall m :: s <= m <= b ==> InBlock(lines[m])
    ensures s == 0 || !InBlock(lines[s - 1])
    decreases b
  {
    if b > 0 && InBlock(lines[b - 1]) then RunStart(lines, b - 1) else b
  }

  /** The nearest non-blank line before line `s`, if it is a comment. */
  function CommentBefore(lines: seq<string>, s: nat): (c: Option<nat>)
    requires s <= |lines|
    ensures c.Some? ==> c.value < s && IsComment(lines[c.value])
    ensures c.Some? ==> forall m :: c.value < m < s ==> IsBlank(lines[m])
    decreases s
  {
    if s == 0 then None
    else if IsBlank(lines[s - 1]) then CommentBefore(lines, s - 1)
    else if IsComment(lines[s - 1]) then Some(s - 1)
    else None
  }

  /** The comment that owns line `b`: line `b` lies in a run of block lines
      whose first line opens a block and whose nearest non-blank predecessor
      is a comment. */
  function Owner(lines: seq<string>, b: nat): (c: Option<nat>)
    requires b < |lines|
    ensures c.Some? ==> c.value < b && IsComment(lines[c.value])
  {
    if !InBlock(lines[b]) then None
    else
      var s := RunStart(lines, b);
      if OpensBlock(lines[s]) then CommentBefore(lines, s) else None
  }

  /** What line `b` contributes: the outcome of its own tokenisation under
      its owner's description, or nothing when no comment owns it. */
  function Emission(lines: seq<string>, b: nat, split: Splitter, join: Joiner): Result<seq<Binding>>
    requires b < |lines|
  {
    match Owner(lines, b)
    case None => Ok([])
    case Some(c) => LineOutcome(lines, b, Description(lines[c]), split, join)
  }

  /** The contributions of lines `b..`, in line order. */
  function Reference(lines: seq<string>, b: nat, split: Splitter, join: Joiner): Result<seq<Binding>>
    requires b <= |lines|
    decreases |lines| - b
  {
    if b == |lines| then Ok([])
    else Then(Emission(lines, b, split, join), Reference(lines, b + 1, split, join))
  }

  lemma {:induction false} CommentBeforeIs(lines: seq<string>, s: nat, c: nat)
    requires c < s <= |lines| && IsComment(lines[c])
    requires forall m :: c < m < s ==> IsBlank(lines[m])
    ensures CommentBefore(lines, s) == Some(c)
    decreases s
  {
    HashLine(lines[c]);
    if c < s - 1 {
      CommentBeforeIs(lines, s - 1, c);
    }
  }

  lemma {:induction false} RunStartIs(lines: seq<string>, b: nat, s: nat)
    requires s <= b < |lines|
    requires forall m :: s <= m <= b ==> InBlock(lines[m])
    requires s == 0 || !InBlock(lines[s - 1])
    ensures RunStart(lines, b) == s
    decreases b
  {
    if s < b {
      RunStartIs(lines, b - 1, s);
    }
  }

  /** Blank and comment lines are never block lines. */
  lemma NotInBlock(line: string)
    requires IsBlank(line) || IsComment(line)
    ensures !InBlock(line)
  {
    if IsComment(line) {
      HashLine(line);
    }
  }

  /** Who owns what: if comment `c` owns line `b`, then the lines between
      `c` and the start `s` of `b`'s run are blank, line `s` opens the block
      and every line from `s` to `b` is a block line. */
  lemma OwnerShape(lines: seq<string>, b: nat)
    requires b < |lines| && Owner(lines, b).Some?
    ensures var c := Owner(lines, b).value; var s := RunStart(lines, b);
            c < s <= b && OpensBlock(lines[s]) &&
            (forall m :: c < m < s ==> IsBlank(lines[m])) &&
            (forall m :: s <= m <= b ==> InBlock(lines[m]))
  {
  }

  /** Every line of the block that comment `i` opens is owned by `i`. */
  lemma OwnedBlock(lines: seq<string>, i: nat, m: nat)
    requires i < |lines| && IsComment(lines[i])
    requires var j := SkipBlanks(lines, i + 1); j < |lines| && OpensBlock(lines[j])
    requires SkipBlanks(lines, i + 1) <= m < BlockEnd(lines, SkipBlanks(lines, i + 1))
    ensures Owner(lines, m) == Some(i)
  {
    var j := SkipBlanks(lines, i + 1);
    if j == i + 1 {
      NotInBlock(lines[i]);
    } else {
      NotInBlock(lines[j - 1]);
    }
    RunStartIs(lines, m, j);
    CommentBeforeIs(lines, j, i);
  }

  /** Lines nobody owns contribute nothing. */
  lemma {:induction false} ReferenceSkips(lines: seq<string>, i: nat, j: nat, split: Splitter, join: Joiner)
    requires i <= j <= |lines|
    requires forall m :: i <= m < j ==> !InBlock(lines[m])
    ensures Reference(lines, i, split, join) == Reference(lines, j, split, join)
    decreases j - i
  {
    if i < j {
      ThenOkEmpty(Reference(lines, i + 1, split, join));
      ReferenceSkips(lines, i + 1, j, split, join);
    }
  }

  /** An owned line emits its own outcome under its owner's description. */
  lemma EmissionOwned(lines: seq<string>, b: nat, c: nat, split: Splitter, join: Joiner)
    requires b < |lines| && c < |lines| && Owner(lines, b) == Some(c)
    ensures Emission(lines, b, split, join) == LineOutcome(lines, b, Description(lines[c]), split, join)
  {
  }

  /** Lines that each emit their own outcome under `description` contribute
      the block of that description. */
  lemma {:induction false} ReferenceBlock(lines: seq<string>, description: string, j: nat, k: nat, split: Splitter, join: Joiner)
    requires j <= k <= |lines|
    requires forall m :: j <= m < k ==>
               Emission(lines, m, split, join) == LineOutcome(lines, m, description, split, join)
    ensures Reference(lines, j, split, join) ==
            Then(Block(lines, j, k, description, split, join), Reference(lines, k, split, join))
    decreases k - j
  {
    if j == k {
      ThenOkEmpty(Reference(lines, k, split, join));
    } else {
      ReferenceBlock(lines, description, j + 1, k, split, join);
      ReferenceBlockStep(lines, description, j, k, split, join);
    }
  }

  /** One line of `ReferenceBlock`'s induction. */
  lemma ReferenceBlockStep(lines: seq<string>, description: string, j: nat, k: nat, split: Splitter, join: Joiner)
    requires j < k <= |lines|
    requires Emission(lines, j, split, join) == LineOutcome(lines, j, description, split, join)
    requires Reference(lines, j + 1, split, join) ==
             Then(Block(lines, j + 1, k, description, split, join), Reference(lines, k, split, join))
    ensures Reference(lines, j, split, join) ==
            Then(Block(lines, j, k, description, split, join), Reference(lines, k, split, join))
  {
    var line := LineOutcome(lines, j, description, split, join);
    var block := Block(lines, j + 1, k, description, split, join);
    var rest := Reference(lines, k, split, join);
    ThenAssoc(line, block, rest);
  }


  /** A cursor position where no later line is owned by an earlier comment:
      the scan at such a position has nothing pending. */
  ghost predicate Boundary(lines: seq<string>, i: nat)
    requires i <= |lines|
  {
    forall b :: i <= b < |lines| && Owner(lines, b).Some? ==> Owner(lines, b).value >= i
  }

  lemma BoundaryAfterLine(lines: seq<string>, i: nat)
    requires i < |lines| && !IsComment(lines[i]) && Boundary(lines, i)
    ensures Owner(lines, i).None?
    ensures Boundary(lines, i + 1)
  {
  }

  lemma BoundaryAfterAbandon(lines: seq<string>, i: nat)
    requires i < |lines| && IsComment(lines[i]) && Boundary(lines, i)
    requires var j := SkipBlanks(lines, i + 1); j == |lines| || !OpensBlock(lines[j])
    ensures Boundary(lines, SkipBlanks(lines, i + 1))
  {
    forall b | SkipBlanks(lines, i + 1) <= b < |lines| && Owner(lines, b).Some?
      ensures Owner(lines, b).value >= SkipBlanks(lines, i + 1)
    {
      OwnerShape(lines, b);
    }
  }

  lemma BoundaryAfterBlock(lines: seq<string>, i: nat)
    requires i < |lines| && IsComment(lines[i]) && Boundary(lines, i)
    requires var j := SkipBlanks(lines, i + 1); j < |lines| && OpensBlock(lines[j])
    ensures Boundary(lines, BlockEnd(lines, SkipBlanks(lines, i + 1)))
  {
    var k := BlockEnd(lines, SkipBlanks(lines, i + 1));
    forall b | k <= b < |lines| && Owner(lines, b).Some?
      ensures Owner(lines, b).value >= k
    {
      OwnerShape(lines, b);
    }
  }

  /** From a position with nothing pending, the scan computes the line-by-line contributions. */
  lemma {:induction false} ScanFromBoundary(lines: seq<string>, i: nat, split: Splitter, join: Joiner)
    requires i <= |lines| && Boundary(lines, i)
    ensures Scan(lines, i, split, join) == Reference(lines, i, split, join)
    decreases |lines| - i
  {
    if i < |lines| {
      if !IsComment(lines[i]) {
        BoundaryAfterLine(lines, i);
        ThenOkEmpty(Reference(lines, i + 1, split, join));
        ScanFromBoundary(lines, i + 1, split, join);
      } else {
        var j := SkipBlanks(lines, i + 1);
        NotInBlock(lines[i]);
        forall m | i <= m < j ensures !InBlock(lines[m]) {
          NotInBlock(lines[m]);
        }
        ReferenceSkips(lines, i, j, split, join);
        if j == |lines| || !OpensBlock(lines[j]) {
          BoundaryAfterAbandon(lines, i);
          ScanFromBoundary(lines, j, split, join);
        } else {
          var k := BlockEnd(lines, j);
          forall m | j <= m < k
            ensures Emission(lines, m, split, join) == LineOutcome(lines, m, Description(lines[i]), split, join)
          {
            OwnedBlock(lines, i, m);
            EmissionOwned(lines, m, i, split, join);
          }
          ReferenceBlock(lines, Description(lines[i]), j, k, split, join);
          BoundaryAfterBlock(lines, i);
          ScanFromBoundary(lines, k, split, join);
        }
      }
    }
  }

  /** The scan from the first line records, in line order, exactly the
      records of the lines some comment owns, each under its owner's
      description, and aborts exactly where such a line fails to tokenise. */
  lemma ScanMatchesReference(lines: seq<string>, split: Splitter, join: Joiner)
    ensures Scan(lines, 0, split, join) == Reference(lines, 0, split, join)
  {
    ScanFromBoundary(lines, 0, split, join);
  }

  // ---------------------------------------------------------------------
  // What the records look like
  // ---------------------------------------------------------------------

  /** At most one record per line; every record comes from a comment line's
      description and never has an option token as its key. */
  lemma {:induction false} ReferenceRecords(lines: seq<string>, b: nat, split: Splitter, join: Joiner)
    requires b <= |lines| && Reference(lines, b, split, join).Ok?
    ensures |Reference(lines, b, split, join).value| <= |lines| - b
    ensures forall r :: r in Reference(lines, b, split, join).value ==>
              !IsOption(r.binding) &&
              exists c :: 0 <= c < |lines| && IsComment(lines[c]) && r.description == Description(lines[c])
    decreases |lines| - b
  {
    if b < |lines| {
      ReferenceRecords(lines, b + 1, split, join);
      var e := Emission(lines, b, split, join);
      match Owner(lines, b)
      case None =>
      case Some(c) =>
        var t := split(Strip(lines[b]));
        if t.Some? {
          RecordSpec(t.value, Description(lines[c]), join);
        }
    }
  }

  /** A line's contribution aborts exactly when a comment owns it and the
      tokeniser rejects its stripped text. */
  lemma EmissionAborts(lines: seq<string>, b: nat, split: Splitter, join: Joiner)
    requires b < |lines|
    ensures Emission(lines, b, split, join).Aborted? <==>
            Owner(lines, b).Some? && split(Strip(lines[b])).None?
    ensures Emission(lines, b, split, join).Aborted? ==> Emission(lines, b, split, join).line == b
  {
  }

  /** An abort names the first owned line whose stripped text the tokeniser rejects. */
  lemma {:induction false} ReferenceAbortedAt(lines: seq<string>, b: nat, split: Splitter, join: Joiner)
    requires b <= |lines| && Reference(lines, b, split, join).Aborted?
    ensures var m := Reference(lines, b, split, join).line;
            b <= m < |lines| && Owner(lines, m).Some? && split(Strip(lines[m])).None? &&
            forall n :: b <= n < m && Owner(lines, n).Some? ==> split(Strip(lines[n])).Some?
  {
    EmissionsBeforeAbort(lines, b, split, join);
    var m := Reference(lines, b, split, join).line;
    EmissionAborts(lines, m, split, join);
    forall n | b <= n < m && Owner(lines, n).Some?
      ensures split(Strip(lines[n])).Some?
    {
      EmissionAborts(lines, n, split, join);
    }
  }

  /** The same in terms of what each line emits. */
  lemma {:induction false} EmissionsBeforeAbort(lines: seq<string>, b: nat, split: Splitter, join: Joiner)
    requires b <= |lines| && Reference(lines, b, split, join).Aborted?
    ensures var m := Reference(lines, b, split, join).line;
            b <= m < |lines| && Emission(lines, m, split, join).Aborted? &&
            forall n :: b <= n < m ==> Emission(lines, n, split, join).Ok?
    decreases |lines| - b
  {
    var e := Emission(lines, b, split, join);
    var rest := Reference(lines, b + 1, split, join);
    assert Reference(lines, b, split, join) == Then(e, rest);
    if e.Ok? {
      EmissionsBeforeAbort(lines, b + 1, split, join);
      assert Reference(lines, b, split, join) == rest;
      forall n | b <= n < rest.line
        ensures Emission(lines, n, split, join).Ok?
      {
        if n == b {
          assert Emission(lines, n, split, join) == e;
        }
      }
    } else {
      EmissionAborts(lines, b, split, join);
      assert Reference(lines, b, split, join) == e;
    }
  }


  /** Where one pass of the outer loop from line `i` leaves the cursor: just
      after a line that is not a comment, at the line that abandons a
      comment, or at the end of the comment's block. */
  function StepEnd(lines: seq<string>, i: nat): (after: nat)
    requires i < |lines|
    ensures i < after <= |lines|
  {
    if !IsComment(lines[i]) then i + 1
    else
      var j := SkipBlanks(lines, i + 1);
      if j == |lines| || !OpensBlock(lines[j]) then j else BlockEnd(lines, j)
  }

  /** What one pass of the outer loop from line `i` records: nothing, unless
      line `i` is a comment followed by a block, whose outcome it is. */
  function StepRecords(lines: seq<string>, i: nat, split: Splitter, join: Joiner): Result<seq<Binding>>
    requires i < |lines|
  {
    if !IsComment(lines[i]) then Ok([])
    else
      var j := SkipBlanks(lines, i + 1);
      if j == |lines| || !OpensBlock(lines[j]) then Ok([])
      else Block(lines, j, BlockEnd(lines, j), Description(lines[i]), split, join)
  }

  /** The scan is the outer loop's pass repeated: from line `i` it records
      what the pass records and then goes on from where the pass ends, or it
      aborts where the pass aborts. */
  lemma ScanSteps(lines: seq<string>, i: nat, split: Splitter, join: Joiner)
    requires i < |lines|
    ensures Scan(lines, i, split, join) ==
            Then(StepRecords(lines, i, split, join), Scan(lines, StepEnd(lines, i), split, join))
  {
    var j := SkipBlanks(lines, i + 1);
    if !IsComment(lines[i]) || j == |lines| || !OpensBlock(lines[j]) {
      ThenOkEmpty(Scan(lines, StepEnd(lines, i), split, join));
    }
  }

  // ---------------------------------------------------------------------
  // The script's loop
  // ---------------------------------------------------------------------

  /** The module-level state of the script: the keybinding lines, the cursor
      `line_index` and the list `bindings`. */
  class Scanner {
    const lines: seq<string>
    var lineIndex: nat
    var bindings: seq<Binding>

    constructor (lines: seq<string>)
      ensures this.lines == lines && lineIndex == 0 && bindings == []
    {
      this.lines := lines;
      lineIndex := 0;
      bindings := [];
    }

    /** `at_eof()` */
    predicate AtEof()
      reads this
    {
      lineIndex >= |lines|
    }

    /** Lines 84-85: move the cursor past blank lines. */
    method SkipBlankLines()
      requires lineIndex <= |lines|
      modifies this`lineIndex
      ensures lineIndex == SkipBlanks(lines, old(lineIndex))
    {
      while !AtEof() && IsBlank(lines[lineIndex])
        invariant old(lineIndex) <= lineIndex <= |lines|
        invariant SkipBlanks(lines, lineIndex) == SkipBlanks(lines, old(lineIndex))
        decreases |lines| - lineIndex
      {
        lineIndex := lineIndex + 1;
      }
    }

    /** Lines 89-106 of scripts/help.py, for one line of a block: tokenise its
        stripped text (an abort when the tokeniser rejects it), then append
        its record, if any. */
    method ConsumeLine(description: string, split: Splitter, join: Joiner) returns (error: Option<nat>)
      requires lineIndex < |lines|
      modifies this`lineIndex, this`bindings
      ensures lineIndex == old(lineIndex) + 1
      ensures var tokens := split(Strip(lines[old(lineIndex)]));
              (tokens.None? ==> error == Some(old(lineIndex)) && bindings == old(bindings)) &&
              (tokens.Some? ==> error.None? &&
                                bindings == old(bindings) + Records(Record(tokens.value, description, join)))
    {
      var rawLine := Strip(lines[lineIndex]);
      lineIndex := lineIndex + 1;
      var tokens := split(rawLine);
      if tokens.None? {
        return Some(lineIndex - 1);
      }
      var record := ParseBindsym(tokens.value, description, join);
      if record.Some? {
        bindings := bindings + [record.value];
      }
      return None;
    }

    /** Lines 88-106: consume the block that starts at the cursor, appending
        one record per line that yields one. Ends at the first line that ends
        the block, or just after the line whose tokenisation raised. */
    method ConsumeBlock(description: string, split: Splitter, join: Joiner) returns (error: Option<nat>)
      requires lineIndex <= |lines|
      modifies this`lineIndex, this`bindings
      ensures var outcome := Block(lines, old(lineIndex), BlockEnd(lines, old(lineIndex)), description, split, join);
              (outcome.Ok? ==> error.None? && lineIndex == BlockEnd(lines, old(lineIndex)) &&
                               bindings == old(bindings) + outcome.value) &&
              (outcome.Aborted? ==> error == Some(outcome.line) && lineIndex == outcome.line + 1 &&
                                    old(lineIndex) <= outcome.line < BlockEnd(lines, old(lineIndex)) &&
                                    old(bindings) <= bindings &&
                                    Block(lines, old(lineIndex), outcome.line, description, split, join) ==
                                    Ok(bindings[|old(bindings)|..]))
    {
      ghost var start := lineIndex;
      ghost var k := BlockEnd(lines, lineIndex);
      ghost var before := bindings;
      ghost var done: seq<Binding> := [];
      while !AtEof() && InBlock(lines[lineIndex])
        invariant start <= lineIndex <= k <= |lines|
        invariant BlockEnd(lines, lineIndex) == k
        invariant bindings == before + done
        invariant Block(lines, start, lineIndex, description, split, join) == Ok(done)
        decreases |lines| - lineIndex
      {
        ghost var m := lineIndex;
        error := ConsumeLine(description, split, join);
        if error.Some? {
          BlockAbortAt(lines, start, m, k, description, split, join);
          assert bindings[|before|..] == done;
          return;
        }
        ghost var r := Records(Record(split(Strip(lines[m])).value, description, join));
        BlockExtendOk(lines, start, m, description, split, join, done);
        AppendAssoc(before, done, r);
        done := done + r;
      }
      return None;
    }

    /** One pass of the outer loop (lines 78-106): take the line at the
        cursor; if it is a comment, skip blank lines, and if a `bindsym` line
        follows, consume its block. A line that is not a comment, and a
        comment without a block, move the cursor on and append nothing; a
        comment with a block appends that block's records under its
        description: the cursor ends at `StepEnd` and the records appended
        are `StepRecords`, whose repetition is the scan (`ScanSteps`). */
    method Step(split: Splitter, join: Joiner) returns (error: Option<nat>)
      requires lineIndex < |lines|
      modifies this`lineIndex, this`bindings
      ensures var outcome := StepRecords(lines, old(lineIndex), split, join);
              (outcome.Ok? ==> error.None? && lineIndex == StepEnd(lines, old(lineIndex)) &&
                               bindings == old(bindings) + outcome.value) &&
              (outcome.Aborted? ==> error == Some(outcome.line) && lineIndex == outcome.line + 1 &&
                                    IsComment(lines[old(lineIndex)]) &&
                                    SkipBlanks(lines, old(lineIndex) + 1) <= outcome.line < |lines| &&
                                    old(bindings) <= bindings &&
                                    Block(lines, SkipBlanks(lines, old(lineIndex) + 1), outcome.line,
                                          Description(lines[old(lineIndex)]), split, join) ==
                                    Ok(bindings[|old(bindings)|..]))
    {
      var line := lines[lineIndex];
      lineIndex := lineIndex + 1;
      if !StartsWith(line, "#") {
        return None;
      }
      SkipBlankLines();
      if AtEof() || !StartsWith(LStrip(lines[lineIndex]), "bindsym") {
        return None;
      }
      error := ConsumeBlock(Description(line), split, join);
    }

    /** The extraction loop (lines 77-106). Ends either with the cursor at the
        end of the lines and the records of the scan appended to `bindings`,
        or with the `ValueError` of the tokeniser on line `error`, just after
        that line was consumed. */
    method Run(split: Splitter, join: Joiner) returns (error: Option<nat>)
      requires lineIndex <= |lines|
      modifies this`lineIndex, this`bindings
      ensures var outcome := Scan(lines, old(lineIndex), split, join);
              (outcome.Ok? ==> error.None? && lineIndex == |lines| && bindings == old(bindings) + outcome.value) &&
              (outcome.Aborted? ==> error == Some(outcome.line) && lineIndex == outcome.line + 1)
    {
      ghost var before := bindings;
      ghost var done: seq<Binding> := [];
      ghost var total := Scan(lines, lineIndex, split, join);
      ThenOkEmpty(total);
      while !AtEof()
        invariant lineIndex <= |lines|
        invariant bindings == before + done
        invariant total == Then(Ok(done), Scan(lines, lineIndex, split, join))
        decreases |lines| - lineIndex
      {
        ghost var was := bindings;
        ghost var i := lineIndex;
        error := Step(split, join);
        ScanSteps(lines, i, split, join);
        ghost var step := StepRecords(lines, i, split, join);
        if error.Some? {
          assert step.Aborted?;
          return;
        }
        ghost var added := step.value;
        assert bindings == was + added && lineIndex == StepEnd(lines, i);
        ThenAssoc(Ok(done), Ok(added), Scan(lines, lineIndex, split, join));
        AppendAssoc(before, done, added);
        done := done + added;
      }
      assert Scan(lines, lineIndex, split, join) == Ok([]);
      assert done + [] == done;
      return None;
    }
  }

  /** The script's extraction from its initial state (`line_index = 0`,
      `bindings = []`): the records are exactly the line-by-line contributions
      of the lines some comment owns, in line order, unless the tokeniser
      aborts the script. */
  method ExtractBindings(lines: seq<string>, split: Splitter, join: Joiner) returns (bindings: seq<Binding>, error: Option<nat>)
    ensures error.None? ==> Reference(lines, 0, split, join) == Ok(bindings)
    ensures error.Some? ==> Reference(lines, 0, split, join) == Aborted(error.value)
  {
    var scanner := new Scanner(lines);
    ghost var outcome := Scan(lines, 0, split, join);
    error := scanner.Run(split, join);
    bindings := scanner.bindings;
    ScanMatchesReference(lines, split, join);
    if outcome.Ok? {
      assert [] + outcome.value == outcome.value;
    }
  }
}
