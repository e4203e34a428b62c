# Keybinding help: a Dafny model of the extraction core

The keybinding help script (`scripts/help.py`) shows the window manager's
keyboard shortcuts in a window: a label naming the modifier key, a table of
the bindings filled once, and Escape, `q` and a Quit button to close it.
Before it draws anything it does two pieces of text processing, and this
project models both:

- **The modifier key** (`read_mod_binding`, `friendly_mod_name`). The script
  reads the main window-manager configuration. It takes the first line whose
  stripped text starts with `set $mod ` and that tokenises to at least three
  words, and keeps the third word (`Mod4`, say). It falls back to `unknown`
  when the file is missing or no line qualifies. It then maps the token to a
  display name (`Mod4` → `Super`). Module `ConfigReader`.
- **The binding extractor** (lines 65-106). A cursor-driven scan over the
  lines of the keybindings file. Each `#` comment followed (after blank
  lines) by a `bindsym` line owns the block of lines that starts there. Each
  line of that block that tokenises to `bindsym [--option ...] KEY command...`
  becomes a `Binding(description, binding, command)`. Module
  `BindingExtractor`.

The script's module-level state (`lines`, `line_index`, `bindings`) is
modelled as the class `BindingExtractor.Scanner`. Its loops are methods with
loop invariants. There are three layers:

1. `Scanner.Run` is proved to follow `Scan`, the same state machine written
   as a function (looking for a comment, skipping blank lines, checking for
   `bindsym`, consuming the block).
2. `Reference` is an independent, declarative description: for every line on
   its own, which comment owns it (`Owner`).
3. `ScanMatchesReference` proves that, from the first line, the scan computes
   exactly the reference. So `ExtractBindings` (the script from its initial
   state) returns exactly the records of the owned lines, in line order.

Python's string primitives (`isspace`, `strip`, `lstrip`, `startswith`) are
modelled in `PyText`, with whitespace being exactly the set of characters
CPython's `str.isspace` accepts. `shlex.split` and `shlex.join` are
parameters (`Shell.Splitter`, `Shell.Joiner`). `None` from the splitter
stands for the `ValueError` that `shlex.split` raises on an unbalanced quote.
That exception is not caught anywhere, so it ends the script. The model
returns it as `Aborted(line)` with the index of the offending line.

Two consequences of the code are worth knowing:

- **Which comment line gives the description.** In a run of comment lines
  (blank lines between them allowed), the description comes from the *last*
  comment line before the block. When the line after a comment's blank lines
  is not a `bindsym` line, the scan abandons that comment without consuming
  the line (help.py:86-87). So the next comment line is examined afresh, and
  it is the one that finally owns the block (`ScanCommentRunLastWins`,
  `Scenarios.LastCommentWins`).
- **Malformed lines.** A block line the tokeniser rejects (an unbalanced
  quote) ends the script (help.py:91): the exception is not caught
  (`ReferenceAbortedAt`). Lines that tokenise but are not usable `bindsym`
  lines are skipped (help.py:92-98).

## Model

| member | source | states |
|---|---|---|
| PyText.LStripSpec | scripts/help.py:86 | `lstrip` removes exactly a prefix of whitespace characters and leaves a string that does not start with one |
| PyText.RStripSpec | scripts/help.py:89 | the trailing half of `strip`: it removes exactly a suffix of whitespace characters and leaves a string that does not end with one |
| PyText.IsSpace | scripts/help.py:83 | the whitespace characters of `str.isspace`, which `strip` (help.py:22, 89) and `lstrip` (help.py:86, 88) also remove: the ASCII controls TAB to CR and FS to US, the space, NEL, NO-BREAK SPACE and the Unicode space and separator characters |
| PyText.StartsWith | scripts/help.py:80 | `str.startswith`, also used at help.py:23, 86, 88 and 95: the string is at least as long as the prefix and begins with it |
| PyText.IsBlank | scripts/help.py:82-83 | `isspace`: a non-empty string of whitespace characters only |
| PyText.LStrip | scripts/help.py:86 | `lstrip`: the suffix from the first non-whitespace character |
| PyText.Strip | scripts/help.py:22 | `strip`: `lstrip` then the trailing half that drops a whitespace suffix |
| PyText.StripIsClean | scripts/help.py:22 | a stripped line neither starts nor ends with whitespace |
| PyText.StripIdempotent | scripts/help.py:22 | stripping a stripped line changes nothing |
| PyText.HashLine | scripts/help.py:80-88 | a line that starts with `#` is not blank and still starts with `#` after `lstrip`, so it never continues a block |
| PyText.BlankStripsToEmpty | scripts/help.py:82-85 | a line that `isspace` accepts strips to the empty string |
| ConfigReader.ModScan | scripts/help.py:21-29 | the scan from line `i`: the third token of the first `set $mod ` line with at least three tokens, `unknown` when there is none, or an abort at a `set $mod ` line the tokeniser rejects |
| ConfigReader.ModParts | scripts/help.py:22-24 | the definition of one line's step: the tokens of the stripped text when it starts with `set $mod `, and no tokenisation otherwise |
| ConfigReader.ModLineHasPayload | scripts/help.py:22-24 | a line that gets tokenised always has text after `set $mod `, because the prefix ends in a space and `strip` leaves none at the end |
| ConfigReader.Hit | scripts/help.py:22-26 | a `set $mod ` line with at least three tokens: the line that ends the scan |
| ConfigReader.Passes | scripts/help.py:22-25 | a line the loop moves past: not a `set $mod ` line, or one with fewer than three tokens |
| ConfigReader.ModLineCases | scripts/help.py:22-26 | every line is exactly one of: the line that ends the scan, a line the loop moves past, or a `set $mod ` line the tokeniser rejects |
| ConfigReader.ReadModBinding | scripts/help.py:18-29 | a missing file gives `unknown`; otherwise the loop over the lines returns what the scan `ModScan` defines, including its abort |
| ConfigReader.PassesSkips | scripts/help.py:21-25 | a line that is not a `set $mod ` line, or has fewer than three tokens, hands the scan on to the next line |
| ConfigReader.HitStops | scripts/help.py:23-26 | a `set $mod ` line with at least three tokens ends the scan with its third token |
| ConfigReader.ModScanFirstHit | scripts/help.py:21-26 | when every earlier line is passed over, the first `set $mod ` line with at least three tokens decides, and its third token is the result |
| ConfigReader.ModScanFirstReject | scripts/help.py:23-24 | a `set $mod ` line that the tokeniser rejects, with every earlier line passed over, aborts the scan at that line |
| ConfigReader.ModScanNoHit | scripts/help.py:21-29 | when no line qualifies, short `set $mod ` lines included, the result is `unknown` |
| ConfigReader.ModScanOkIsFirstHit | scripts/help.py:21-29 | conversely, every successful result is `unknown` with no line qualifying, or the third token of the first qualifying line |
| ConfigReader.FriendlyModName | scripts/help.py:31-40 | the dictionary lookup with the token itself as the default |
| ConfigReader.FriendlyModNameTable | scripts/help.py:31-40 | the six fixed display names, and identity for every other token |
| ConfigReader.FriendlyModNameIdempotent | scripts/help.py:31-40 | a display name maps to itself |
| ConfigReader.ResolveModifier | scripts/help.py:42-44 | module start-up: the raw token is `read_mod_binding`'s result and the display name is its lookup; the script aborts exactly when the scan does |
| BindingExtractor.IsComment | scripts/help.py:80 | a line whose raw text starts with `#` |
| BindingExtractor.OpensBlock | scripts/help.py:86 | a line whose `lstrip` starts with `bindsym` |
| BindingExtractor.InBlock | scripts/help.py:88 | a line that is not blank and whose `lstrip` does not start with `#` |
| BindingExtractor.IsOption | scripts/help.py:95 | an option token: at least two characters, the first two both `-` |
| BindingExtractor.Description | scripts/help.py:103 | the comment without its `#`, stripped: no longer than the comment and with no whitespace at either end |
| BindingExtractor.OptionsEnd | scripts/help.py:94-96 | the option-skipping loop stops at the first token that does not start with `--`, and every token it skipped does |
| BindingExtractor.Record | scripts/help.py:92-101 | the record a tokenised line yields, as the `Binding(description, binding, command)` of help.py:65-69, if any: only for a `bindsym` line of at least two tokens, under the given description, never with an option as its key |
| BindingExtractor.RecordSpec | scripts/help.py:92-101 | a tokenised line yields a record if and only if its first token is `bindsym` and some later token is not an option; the key is the first such token, never an option, and the command joins the tokens after it, or is empty when there are none |
| BindingExtractor.ParseBindsym | scripts/help.py:92-101 | the loop over the tokens computes exactly `Record` |
| BindingExtractor.SkipBlanks | scripts/help.py:84-85 | the first line at or after the cursor that is not blank, with every line skipped blank |
| BindingExtractor.BlockEnd | scripts/help.py:88 | the first line at or after the cursor that is blank or a comment after `lstrip`, with every line before it a block line |
| BindingExtractor.LineOutcome | scripts/help.py:89-101 | what one block line contributes: an abort at its own index exactly when the tokeniser rejects its stripped text, otherwise at most one record, under the given description and never with an option as its key |
| BindingExtractor.Block | scripts/help.py:88-106 | the outcome of block lines `[j, k)` in order: their records, or an abort at the first line the tokeniser rejects |
| BindingExtractor.BlockSnoc | scripts/help.py:88-106 | a block extended by one line is the block followed by that line's outcome, as the inner loop takes it |
| BindingExtractor.BlockExtendOk | scripts/help.py:89-106 | a block line that tokenises adds its record, if any, after those of the block lines before it |
| BindingExtractor.BlockAbortAt | scripts/help.py:89-91 | a line the tokeniser rejects, after block lines that all tokenise, aborts the whole block at that line |
| BindingExtractor.Scan | scripts/help.py:77-106 | the outer loop as a function of the cursor: the records of each pass in turn, or the first abort |
| BindingExtractor.StepEnd | scripts/help.py:78-106 | where one pass of the outer loop leaves the cursor: after the line, at the line that abandons the comment, or at the end of the block; always past the line it started at |
| BindingExtractor.StepRecords | scripts/help.py:78-106 | what one pass records: nothing, unless its line is a comment followed by a block, whose outcome it is |
| BindingExtractor.ScanSteps | scripts/help.py:77-106 | the scan is one pass after another: from any line, the pass's records and then the scan from where the pass ends |
| BindingExtractor.ScanSkipsNonComment | scripts/help.py:78-81 | a line that does not start with `#` contributes nothing |
| BindingExtractor.ScanAbandonsComment | scripts/help.py:84-87 | a comment whose next non-blank line is not `bindsym` yields nothing, and the scan resumes at that line without consuming it |
| BindingExtractor.ScanConsumesBlock | scripts/help.py:86-106 | a comment followed by a `bindsym` line contributes the block that starts there, under its own description, and the scan resumes at the line that ends the block |
| BindingExtractor.ScanCommentRunLastWins | scripts/help.py:77-87 | in a run of comment and blank lines, the scan from the first comment equals the scan from the last, so the last comment supplies the description |
| BindingExtractor.Owner | scripts/help.py:84-88 | the comment that owns a line: the nearest non-blank line before the line's run of block lines, when that run opens with `bindsym` |
| BindingExtractor.Reference | scripts/help.py:77-106 | the line-by-line description: each line's own contribution under its owner's description, in line order |
| BindingExtractor.OwnerShape | scripts/help.py:84-88 | a line owned by comment `c` lies in a run of block lines whose first line opens a block, with only blank lines between `c` and that run |
| BindingExtractor.OwnedBlock | scripts/help.py:84-88 | every line of the block that a comment opens is owned by that comment |
| BindingExtractor.NotInBlock | scripts/help.py:82-88 | blank lines and comment lines never continue a block |
| BindingExtractor.EmissionOwned | scripts/help.py:102-106 | an owned line contributes its own outcome under its owner's description |
| BindingExtractor.ReferenceSkips | scripts/help.py:78-85 | lines that are not block lines contribute nothing to the line-by-line description |
| BindingExtractor.ReferenceBlock | scripts/help.py:88-106 | lines owned by one comment contribute that comment's block, line by line |
| BindingExtractor.ScanMatchesReference | scripts/help.py:73-106 | the scan from the first line records, in line order, exactly the records of the lines some comment owns, each under its owner's description, and aborts exactly where such a line fails to tokenise |
| BindingExtractor.ScanFromBoundary | scripts/help.py:77-106 | from any cursor position where no later line belongs to an earlier comment, the scan equals the line-by-line description |
| BindingExtractor.ReferenceRecords | scripts/help.py:95-106 | at most one record per line; every record's description is that of some comment line, and its key is never an option |
| BindingExtractor.EmissionAborts | scripts/help.py:89-91 | a line's contribution aborts if and only if a comment owns it and the tokeniser rejects its stripped text |
| BindingExtractor.ReferenceAbortedAt | scripts/help.py:89-91 | an abort names an owned line that the tokeniser rejects, and every owned line before it tokenises |
| BindingExtractor.EmissionsBeforeAbort | scripts/help.py:89-91 | an abort names the first line whose contribution aborts |
| BindingExtractor.Scanner.constructor | scripts/help.py:71-73 | the initial state: the given lines, cursor at 0, no records |
| BindingExtractor.Scanner.AtEof | scripts/help.py:74-75 | `at_eof()`: the cursor is at or past the last line |
| BindingExtractor.Scanner.SkipBlankLines | scripts/help.py:84-85 | the cursor moves to `SkipBlanks` of where it was |
| BindingExtractor.Scanner.ConsumeLine | scripts/help.py:89-106 | one block line: the cursor advances by one; either the line's record (if any) is appended, or the line's index is reported as the abort and the records are left as they were |
| BindingExtractor.Scanner.ConsumeBlock | scripts/help.py:88-106 | the inner loop appends exactly the block's records and stops at the block's end; or it stops just after the line whose tokenisation aborts, having appended exactly the records of the block lines before it |
| BindingExtractor.Scanner.Step | scripts/help.py:78-106 | one pass of the outer loop moves the cursor to `StepEnd` and appends exactly `StepRecords`; on an abort it stops just after the rejected line, having appended the records of the block lines before it |
| BindingExtractor.Scanner.Run | scripts/help.py:77-106 | the outer loop ends at the end of the lines with the scan's records appended, or just after the line that aborts the scan |
| BindingExtractor.ExtractBindings | scripts/help.py:71-106 | from the initial state, the records are exactly the line-by-line description's, or the script aborts where that description says |
| Scenarios.CommentLine | scripts/help.py:103 | a line `# text` describes `text` |
| Scenarios.LaunchTerminal | scripts/help.py:77-106 | a comment directly above `bindsym $mod+Return exec alacritty` gives one record with that key and command |
| Scenarios.ReleaseOption | scripts/help.py:94-101 | a `--release-only` option before the key is skipped and not kept |
| Scenarios.UnusedNote | scripts/help.py:84-87 | a comment, a blank line and a line that is not `bindsym` give no records |
| Scenarios.AdjacentComments | scripts/help.py:80-87 | of two adjacent comment lines the first is abandoned: the scan from it is the scan from the second |
| Scenarios.DescribedBinding | scripts/help.py:77-106 | a `# text` line above a `bindsym` line gives exactly one record, with `text` as its description, the first non-option token as its key and the rest joined as its command |
| Scenarios.LastCommentWins | scripts/help.py:77-88 | of two comment lines above a block, the second one's text is the description |
| Scenarios.ModFour | scripts/help.py:18-40 | `set $mod Mod4` resolves to `Mod4`, displayed as `Super` |

## Left out

- The Tk window (help.py:108-168): styling, the modifier label, filling the table with the records once, and the Escape, `q` and Quit handlers that close it are display code, not text processing.
- The single-instance lock file and its clean-up (help.py:48-63): file-system side effects outside the extraction.
- Reading the files (help.py:14-16, 20, 42, 45-46): the keybindings file arrives as its list of lines, exactly as `readlines()` returns them. The main configuration arrives as `Option<seq<string>>`, where `None` is the `FileNotFoundError` that gives `unknown`. Other I/O errors and text decoding are not modelled.
- `shlex.split` and `shlex.join` are library code. They are parameters: every property holds for any tokeniser and joiner, and the scenarios state what they assume the tokeniser returns.
- BindingExtractor.Scanner.Run: on an abort, the contract fixes the reported line and the cursor but not the records appended before the abort. The script ends there with an uncaught exception, so those records are never used.
- BindingExtractor.ExtractBindings: on an abort, the returned records are left unstated, for the same reason.
