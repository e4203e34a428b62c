/** The modifier key of the window-manager configuration: the scan for the
    `set $mod` line (`read_mod_binding`) and the display name of the key it
    finds (`friendly_mod_name`). The configuration file arrives already read:
    `None` when opening it raised `FileNotFoundError`, otherwise its lines. */
module ConfigReader {
  import opened PyText
  import opened Outcome
  import opened Shell

  const ModPrefix: string := "set $mod "

  /** The token reported when no modifier can be found. */
  const Unknown: string := "unknown"

  /** The tokens of a line whose stripped form starts with `set $mod `,
      or `None` for a line the scan passes over without tokenising. */
  function ModParts(line: string, split: Splitter): Option<Option<seq<string>>> {
    var stripped := Strip(line);
    if StartsWith(stripped, ModPrefix) then Some(split(stripped)) else None
  }

  /** A line that is tokenised always has text after `set $mod `: the prefix
      ends in a space, and `strip` leaves no whitespace at the end. */
  lemma ModLineHasPayload(line: string, split: Splitter)
    ensures ModParts(line, split).Some? ==> |Strip(line)| > |ModPrefix|
  {
    StripIsClean(line);
  }

  /** The line yields the modifier: it is a `set $mod ` line with at least three tokens. */
  predicate Hit(line: string, split: Splitter) {
    var p := ModParts(line, split);
    p.Some? && p.value.Some? && |p.value.value| >= 3
  }

  /** The scan passes over the line: it is not a `set $mod ` line, or it is
      one that tokenises to fewer than three tokens. */
  predicate Passes(line: string, split: Splitter) {
    var p := ModParts(line, split);
    p.None? || (p.value.Some? && |p.value.value| < 3)
  }

  /** Every line falls into exactly one of three cases: it yields the
      modifier, the scan passes over it, or it is a `set $mod ` line the
      tokeniser rejects. */
  lemma ModLineCases(line: string, split: Splitter)
    ensures Hit(line, split) <==> !Passes(line, split) && ModParts(line, split) != Some(None)
    ensures Passes(line, split) ==> !Hit(line, split)
    ensures ModParts(line, split) == Some(None) <==> !Hit(line, split) && !Passes(line, split)
  {
  }

  /** Every line in `[i, k)` passes. */
  predicate AllPass(lines: seq<string>, split: Splitter, i: nat, k: nat)
    requires i <= k <= |lines|
  {
    forall j :: i <= j < k ==> Passes(lines[j], split)
  }

  /** The scan of `read_mod_binding` from line `i` on: the third token of the
      first line that yields one, `unknown` when none does, or an abort at a
      `set $mod ` line the tokeniser rejects. */
  function ModScan(lines: seq<string>, i: nat, split: Splitter): Result<string>
    requires i <= |lines|
    decreases |lines| - i
  {
    if i == |lines| then Ok(Unknown)
    else
      match ModParts(lines[i], split)
      case None => ModScan(lines, i + 1, split)
      case Some(None) => Aborted(i)
      case Some(Some(parts)) =>
        if |parts| >= 3 then Ok(parts[2]) else ModScan(lines, i + 1, split)
  }

  /** `read_mod_binding`: a missing file gives `unknown`; otherwise the lines
      are read in order and the first one with a modifier token ends the scan. */
  method ReadModBinding(config: Option<seq<string>>, split: Splitter) returns (r: Result<string>)
    ensures config.None? ==> r == Ok(Unknown)
    ensures config.Some? ==> r == ModScan(config.value, 0, split)
  {
    if config.None? {
      return Ok(Unknown);
    }
    var lines := config.value;
    for i := 0 to |lines|
      invariant ModScan(lines, 0, split) == ModScan(lines, i, split)
    {
      var stripped := Strip(lines[i]);
      if StartsWith(stripped, ModPrefix) {
        var parts := split(stripped);
        if parts.None? {
          return Aborted(i);
        }
        if |parts.value| >= 3 {
          return Ok(parts.value[2]);
        }
      }
    }
    return Ok(Unknown);
  }

  /** A line that passes hands the scan on to the next line. */
  lemma PassesSkips(lines: seq<string>, split: Splitter, i: nat)
    requires i < |lines| && Passes(lines[i], split)
    ensures ModScan(lines, i, split) == ModScan(lines, i + 1, split)
  {
  }

  /** A line that yields the modifier ends the scan with its third token. */
  lemma HitStops(lines: seq<string>, split: Splitter, i: nat)
    requires i < |lines| && Hit(lines[i], split)
    ensures ModScan(lines, i, split) == Ok(ModParts(lines[i], split).value.value[2])
  {
  }

  /** The first line that does not pass decides: when it yields a modifier,
      that line's third token is the result. */
  lemma {:induction false} ModScanFirstHit(lines: seq<string>, split: Splitter, i: nat, k: nat)
    requires i <= k < |lines|
    requires AllPass(lines, split, i, k)
    requires Hit(lines[k], split)
    ensures ModScan(lines, i, split) == Ok(ModParts(lines[k], split).value.value[2])
    decreases k - i
  {
    if i == k {
      HitStops(lines, split, k);
    } else {
      PassesSkips(lines, split, i);
      ModScanFirstHit(lines, split, i + 1, k);
    }
  }

  /** When that first line is a `set $mod ` line the tokeniser rejects, the scan aborts there. */
  lemma {:induction false} ModScanFirstReject(lines: seq<string>, split: Splitter, i: nat, k: nat)
    requires i <= k < |lines|
    requires AllPass(lines, split, i, k)
    requires ModParts(lines[k], split) == Some(None)
    ensures ModScan(lines, i, split) == Aborted(k)
    decreases k - i
  {
    if i < k {
      PassesSkips(lines, split, i);
      ModScanFirstReject(lines, split, i + 1, k);
    }
  }

  /** When every line passes, short `set $mod ` lines included, the result is `unknown`. */
  lemma {:induction false} ModScanNoHit(lines: seq<string>, split: Splitter, i: nat)
    requires i <= |lines|
    requires AllPass(lines, split, i, |lines|)
    ensures ModScan(lines, i, split) == Ok(Unknown)
    decreases |lines| - i
  {
    if i < |lines| {
      PassesSkips(lines, split, i);
      ModScanNoHit(lines, split, i + 1);
    }
  }

  /** Conversely, an `Ok` result is either the fallback, when every line
      passes, or the third token of a line that yields one, every line
      before it passing. */
  lemma {:induction false} ModScanOkIsFirstHit(lines: seq<string>, split: Splitter, i: nat)
    requires i <= |lines|
    requires ModScan(lines, i, split).Ok?
    ensures (AllPass(lines, split, i, |lines|) && ModScan(lines, i, split).value == Unknown) ||
            exists k :: i <= k < |lines| && Hit(lines[k], split) && AllPass(lines, split, i, k) &&
                        ModScan(lines, i, split).value == ModParts(lines[k], split).value.value[2]
    decreases |lines| - i
  {
    if i < |lines| {
      if Hit(lines[i], split) {
        HitStops(lines, split, i);
        assert AllPass(lines, split, i, i);
      } else {
        assert Passes(lines[i], split);
        PassesSkips(lines, split, i);
        ModScanOkIsFirstHit(lines, split, i + 1);
        if AllPass(lines, split, i + 1, |lines|) {
          assert AllPass(lines, split, i, |lines|);
        } else {
          var k :| i + 1 <= k < |lines| && Hit(lines[k], split) && AllPass(lines, split, i + 1, k) &&
                   ModScan(lines, i + 1, split).value == ModParts(lines[k], split).value.value[2];
          assert AllPass(lines, split, i, k);
        }
      }
    }
  }

  const ModNames: map<string, string> :=
    map["Mod4" := "Super", "Mod1" := "Alt", "Mod3" := "Mod3",
        "Mod2" := "Mod2", "Control" := "Ctrl", "Shift" := "Shift"]

  /** `friendly_mod_name`: the display name of a modifier token, or the token itself. */
  function FriendlyModName(mod: string): string {
    if mod in ModNames then ModNames[mod] else mod
  }

  /** The fixed table, and identity for every other token. */
  lemma FriendlyModNameTable(mod: string)
    ensures FriendlyModName("Mod4") == "Super" && FriendlyModName("Mod1") == "Alt"
    ensures FriendlyModName("Control") == "Ctrl"
    ensures FriendlyModName("Mod3") == "Mod3" && FriendlyModName("Mod2") == "Mod2"
    ensures FriendlyModName("Shift") == "Shift"
    ensures mod !in {"Mod4", "Mod1", "Mod3", "Mod2", "Control", "Shift"} ==> FriendlyModName(mod) == mod
  {
  }

  /** A display name is its own display name. */
  lemma FriendlyModNameIdempotent(mod: string)
    ensures FriendlyModName(FriendlyModName(mod)) == FriendlyModName(mod)
  {
    assert "Super" !in ModNames && "Alt" !in ModNames && "Ctrl" !in ModNames;
  }

  /** The modifier as the window shows it: the raw token and its display name. */
  datatype ModifierBinding = ModifierBinding(raw: string, friendly: string)

  /** Module start-up: read the modifier token, then look up its display name. */
  method ResolveModifier(config: Option<seq<string>>, split: Splitter) returns (r: Result<ModifierBinding>)
    ensures config.None? ==> r == Ok(ModifierBinding(Unknown, Unknown))
    ensures config.Some? ==> (r.Ok? <==> ModScan(config.value, 0, split).Ok?)
    ensures r.Ok? ==> r.value.friendly == FriendlyModName(r.value.raw)
    ensures r.Ok? && config.Some? ==> r.value.raw == ModScan(config.value, 0, split).value
    ensures r.Aborted? && config.Some? ==> r == Aborted(ModScan(config.value, 0, split).line)
  {
    var raw := ReadModBinding(config, split);
    if raw.Aborted? {
      return Aborted(raw.line);
    }
    FriendlyModNameTable(Unknown);
    return Ok(ModifierBinding(raw.value, FriendlyModName(raw.value)));
  }
}
