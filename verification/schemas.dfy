/** A small grep-style schema used as worked examples of the framework: a
    mandatory positional search pattern, a positional path that may be absent,
    and a short case-insensitivity flag. */
module Schemas {
  import opened Results
  import opened Names
  import opened Arguments
  import opened Entries

  method GrepScenarios() {
    var pattern := new Entry(Mandatory, Blank(0), Text(None));
    var target := new Entry(Skip, Blank(1), PathPattern(None));
    var caseInsensitive := new Entry(Skip, Short('i'), BooleanFlag(None));

    // Positionals come first, in index order, and before the flag.
    assert CompareNames(pattern.targetName, target.targetName) == Ok(Less);
    assert CompareNames(target.targetName, caseInsensitive.targetName) == Ok(Less);

    // A search for TODO with no path gives the single token TODO.
    var patternTokens := pattern.Transform(TextValue("TODO"));
    assert patternTokens == Ok(["TODO"]);
    var targetTokens := target.Transform(OptionalPathValue(None));
    assert targetTokens == Ok([]);

    // A path given by the caller is passed on as its display text.
    var given := new Entry(Skip, Blank(1), Text(None));
    var givenTokens := given.Transform(PathValue("src"));
    assert givenTokens == Ok(["src"]);

    // With a default of "-" the absent path becomes "-".
    var dashTarget := new Entry(Default(FromPath("-")), Blank(1), PathPattern(None));
    var dashTokens := dashTarget.Transform(OptionalPathValue(None));
    assert dashTokens == Ok(["-"]);

    // A mandatory path left absent is an error.
    var required := new Entry(Mandatory, Blank(1), PathPattern(None));
    var requiredTokens := required.Transform(OptionalPathValue(None));
    assert requiredTokens == Err(MissingMandatory);

    // The flag is filled, but its name cannot be applied.
    var flagTokens := caseInsensitive.Transform(BoolValue(true));
    assert flagTokens == Err(UnsupportedName);
    assert caseInsensitive.targetType == BooleanFlag(Some(true));

    // A boolean cannot be put where a path is expected.
    var mismatch := new Entry(Skip, Blank(1), PathPattern(None));
    var mismatchTokens := mismatch.Transform(BoolValue(false));
    assert mismatchTokens == Err(TypeMismatch);
    assert mismatch.targetType == PathPattern(None);
  }
}
