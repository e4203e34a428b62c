/** Concrete configurations and what the scans make of them, each stated
    relative to what the tokeniser and joiner return for the lines involved.
    Every line ends in a newline, as `readlines()` delivers it. */
module Scenarios {
  import opened PyText
  import opened Outcome
  import opened Shell
  import opened ConfigReader
  import opened BindingExtractor

  /** A line with a trailing newline and no other surrounding whitespace strips to its text. */
  lemma PlainLine(s: string)
    requires |s| >= 2 && s[|s| - 1] == '\n' && !IsSpace(s[0]) && !IsSpace(s[|s| - 2])
    ensures LStrip(s) == s && Strip(s) == s[..|s| - 1] && !IsBlank(s)
  {
    assert SpacesFrom(s, 0) == 0;
    assert SpacesBefore(s, |s| - 1) == |s| - 1;
  }

  /** A line `# text\n`: one space after the mark, no other surrounding whitespace. */
  predicate CommentText(s: string) {
    |s| >= 4 && s[0] == '#' && s[1] == ' ' && s[|s| - 1] == '\n' && !IsSpace(s[2]) && !IsSpace(s[|s| - 2])
  }

  /** A line `bindsym text\n` with no other surrounding whitespace. */
  predicate BindsymText(s: string) {
    |s| >= 9 && s[..8] == "bindsym " && s[|s| - 1] == '\n' && !IsSpace(s[|s| - 2])
  }

  /** A line `# text\n` describes `text`. */
  lemma CommentLine(s: string)
    requires CommentText(s)
    ensures IsComment(s) && Description(s) == s[2..|s| - 1]
  {
    assert s[..1] == "#";
    var t := s[1..];
    var u := s[2..];
    assert t[1..] == u;
    assert IsSpace(t[0]) && !IsSpace(t[1]);
    assert SpacesFrom(t, 1) == 1;
    assert SpacesFrom(t, 0) == 1;
    assert LStrip(t) == u;
    PlainLine(u);
    assert Strip(u) == RStrip(u);
    assert u[..|u| - 1] == s[2..|s| - 1];
  }

  /** A `bindsym` line whose text has no surrounding whitespace opens a block and belongs to one. */
  lemma BindsymLine(s: string)
    requires BindsymText(s)
    ensures InBlock(s) && OpensBlock(s) && Strip(s) == s[..|s| - 1]
  {
    assert s[..7] == s[..8][..7] == "bindsym";
    assert s[0] == s[..8][0] == 'b';
    PlainLine(s);
    assert s[..1] != "#" by { assert s[..1][0] == s[0]; }
  }

  /** A token that does not start with `-` is not an option. */
  lemma NotOption(token: string)
    requires |token| > 0 && token[0] != '-'
    ensures !IsOption(token)
  {
    if |token| >= 2 {
      assert token[..2][0] == token[0];
    }
  }

  /** A comment followed by one `bindsym` line, at the end of the input,
      gives that line's record under the comment's description. */
  lemma CommentThenBindsym(lines: seq<string>, i: nat, split: Splitter, join: Joiner)
    requires i + 2 == |lines| && IsComment(lines[i])
    requires InBlock(lines[i + 1]) && OpensBlock(lines[i + 1])
    requires split(Strip(lines[i + 1])).Some?
    ensures Scan(lines, i, split, join) ==
            Ok(Records(Record(split(Strip(lines[i + 1])).value, Description(lines[i]), join)))
  {
    assert SkipBlanks(lines, i + 1) == i + 1;
    assert BlockEnd(lines, i + 1) == i + 2;
    var recs := Records(Record(split(Strip(lines[i + 1])).value, Description(lines[i]), join));
    assert recs + [] == recs;
    ScanConsumesBlock(lines, i, split, join);
  }

  /** The same, for a `# text` line above a `bindsym` line whose tokens
      have their key at index `k`, after `k - 1` options: the key is that
      token and the command joins the tokens after it, or is empty when
      there are none. */
  lemma DescribedBinding(lines: seq<string>, i: nat, description: string, text: string, tokens: seq<string>, k: nat,
                          split: Splitter, join: Joiner)
    requires i + 2 == |lines|
    requires CommentText(lines[i]) && BindsymText(lines[i + 1])
    requires lines[i][2..|lines[i]| - 1] == description && lines[i + 1][..|lines[i + 1]| - 1] == text
    requires split(text) == Some(tokens)
    requires 1 <= k < |tokens| && tokens[0] == "bindsym"
    requires forall m :: 1 <= m < k ==> IsOption(tokens[m])
    requires !IsOption(tokens[k])
    ensures Scan(lines, i, split, join) ==
            Ok([Binding(description, tokens[k], if k + 1 == |tokens| then "" else join(tokens[k + 1..]))])
  {
    BindsymLine(lines[i + 1]);
    CommentLine(lines[i]);
    OptionsEndAt(tokens, 1, k);
    var rest := tokens[k + 1..];
    assert |rest| == 0 <==> k + 1 == |tokens|;
    var b := Binding(description, tokens[k], if k + 1 == |tokens| then "" else join(rest));
    assert Record(tokens, description, join) == Some(b);
    assert Records(Some(b)) == [b];
    CommentThenBindsym(lines, i, split, join);
  }

  lemma {:induction false} OptionsEndAt(tokens: seq<string>, idx: nat, k: nat)
    requires idx <= k < |tokens|
    requires forall m :: idx <= m < k ==> IsOption(tokens[m])
    requires !IsOption(tokens[k])
    ensures OptionsEnd(tokens, idx) == k
    decreases k - idx
  {
    if idx < k {
      OptionsEndAt(tokens, idx + 1, k);
    }
  }

  lemma LaunchTerminalText(lines: seq<string>)
    requires lines == ["# Launch terminal\n", "bindsym $mod+Return exec alacritty\n"]
    ensures CommentText(lines[0]) && BindsymText(lines[1])
    ensures lines[1][..|lines[1]| - 1] == "bindsym $mod+Return exec alacritty"
    ensures lines[0][2..|lines[0]| - 1] == "Launch terminal"
  {
  }

  /** A comment directly above a `bindsym` line gives one record. */
  lemma LaunchTerminal(lines: seq<string>, split: Splitter, join: Joiner)
    requires lines == ["# Launch terminal\n", "bindsym $mod+Return exec alacritty\n"]
    requires split("bindsym $mod+Return exec alacritty") == Some(["bindsym", "$mod+Return", "exec", "alacritty"])
    requires join(["exec", "alacritty"]) == "exec alacritty"
    ensures Scan(lines, 0, split, join) == Ok([Binding("Launch terminal", "$mod+Return", "exec alacritty")])
  {
    var tokens := ["bindsym", "$mod+Return", "exec", "alacritty"];
    LaunchTerminalText(lines);
    assert tokens[2..] == ["exec", "alacritty"];
    NotOption(tokens[1]);
    DescribedBinding(lines, 0, "Launch terminal", "bindsym $mod+Return exec alacritty", tokens, 1, split, join);
  }

  lemma ReleaseOptionText(lines: seq<string>)
    requires lines == ["# Help\n", "bindsym --release-only $mod+F1 exec foo\n"]
    ensures CommentText(lines[0]) && BindsymText(lines[1])
    ensures lines[1][..|lines[1]| - 1] == "bindsym --release-only $mod+F1 exec foo"
    ensures lines[0][2..|lines[0]| - 1] == "Help"
  {
  }

  /** Options before the key are skipped and not kept. */
  lemma ReleaseOption(lines: seq<string>, split: Splitter, join: Joiner)
    requires lines == ["# Help\n", "bindsym --release-only $mod+F1 exec foo\n"]
    requires split("bindsym --release-only $mod+F1 exec foo") ==
             Some(["bindsym", "--release-only", "$mod+F1", "exec", "foo"])
    requires join(["exec", "foo"]) == "exec foo"
    ensures Scan(lines, 0, split, join) == Ok([Binding("Help", "$mod+F1", "exec foo")])
  {
    var tokens := ["bindsym", "--release-only", "$mod+F1", "exec", "foo"];
    ReleaseOptionText(lines);
    assert tokens[1][..2] == "--";
    assert tokens[3..] == ["exec", "foo"];
    NotOption(tokens[2]);
    DescribedBinding(lines, 0, "Help", "bindsym --release-only $mod+F1 exec foo", tokens, 2, split, join);
  }

  /** A comment followed by a blank line and then a line that is not `bindsym` gives nothing. */
  lemma UnusedNote(lines: seq<string>, split: Splitter, join: Joiner)
    requires lines == ["# Unused note\n", "\n", "exec foo\n"]
    ensures Scan(lines, 0, split, join) == Ok([])
  {
    PlainLine(lines[2]);
    assert lines[0][..1] == "#";
    assert IsBlank(lines[1]);
    assert lines[2][..1] != "#" && lines[2][..7] != "bindsym";
    assert SkipBlanks(lines, 1) == 2;
    ScanAbandonsComment(lines, 0, split, join);
    ScanSkipsNonComment(lines, 2, split, join);
  }

  lemma WindowText(s: string)
    requires s == "# Window\n"
    ensures IsComment(s)
  {
    assert s[..1] == "#";
  }

  lemma CloseWindowText(s: string)
    requires s == "# Close window\n"
    ensures CommentText(s) && IsComment(s) && s[2..|s| - 1] == "Close window"
  {
    assert s[..1] == "#";
  }

  lemma KillText(s: string)
    requires s == "bindsym $mod+q kill\n"
    ensures BindsymText(s) && s[..|s| - 1] == "bindsym $mod+q kill"
  {
  }

  lemma LastCommentWinsText(lines: seq<string>)
    requires lines == ["# Window\n", "# Close window\n", "bindsym $mod+q kill\n"]
    ensures CommentText(lines[1]) && BindsymText(lines[2])
    ensures IsComment(lines[0]) && IsComment(lines[1])
    ensures lines[2][..|lines[2]| - 1] == "bindsym $mod+q kill"
    ensures lines[1][2..|lines[1]| - 1] == "Close window"
  {
    WindowText(lines[0]);
    CloseWindowText(lines[1]);
    KillText(lines[2]);
  }

  /** Of two adjacent comment lines, the first is abandoned. */
  lemma AdjacentComments(lines: seq<string>, i: nat, split: Splitter, join: Joiner)
    requires i + 1 < |lines| && IsComment(lines[i]) && IsComment(lines[i + 1])
    ensures Scan(lines, i, split, join) == Scan(lines, i + 1, split, join)
  {
    ScanCommentRunLastWins(lines, i, i + 1, split, join);
  }

  /** Of two comment lines above a block, the second supplies the description. */
  lemma LastCommentWins(lines: seq<string>, split: Splitter, join: Joiner)
    requires lines == ["# Window\n", "# Close window\n", "bindsym $mod+q kill\n"]
    requires split("bindsym $mod+q kill") == Some(["bindsym", "$mod+q", "kill"])
    requires join(["kill"]) == "kill"
    ensures Scan(lines, 0, split, join) == Ok([Binding("Close window", "$mod+q", "kill")])
  {
    var tokens := ["bindsym", "$mod+q", "kill"];
    LastCommentWinsText(lines);
    assert tokens[2..] == ["kill"];
    NotOption(tokens[1]);
    DescribedBinding(lines, 1, "Close window", "bindsym $mod+q kill", tokens, 1, split, join);
    AdjacentComments(lines, 0, split, join);
  }

  /** `set $mod Mod4` resolves to `Mod4`, shown as `Super`. */
  lemma ModFour(lines: seq<string>, split: Splitter)
    requires lines == ["set $mod Mod4\n"]
    requires split("set $mod Mod4") == Some(["set", "$mod", "Mod4"])
    ensures ModScan(lines, 0, split) == Ok("Mod4")
    ensures FriendlyModName(ModScan(lines, 0, split).value) == "Super"
  {
    PlainLine(lines[0]);
    assert Strip(lines[0]) == "set $mod Mod4";
    assert "set $mod Mod4"[..|ModPrefix|] == ModPrefix;
    FriendlyModNameTable("Mod4");
  }
}
