/**
 * Flag generation and verification: get_first_text_flag, validate_flag and
 * validate_solution_output. Regular-expression search is a parameter: the
 * model does not interpret patterns.
 */
module Flags {
  import opened Wrappers
  import opened PyStrings

  datatype FlagKind = Text | Regex

  /** One entry of the configuration's `flags` list. */
  datatype Flag = Flag(kind: FlagKind, value: string)

  /** `flag_format_prefix` and `flag_format_suffix`; "" stands for an unset value. */
  datatype FlagFormat = FlagFormat(prefix: string, suffix: string)

  /** `re.search(pattern, subject)` found a match. */
  type Search = (string, string) -> bool

  /** One flag accepts a candidate: a text flag by equality, a regex flag by search (lines 363-369). */
  predicate Accepts(f: Flag, candidate: string, search: Search) {
    match f.kind
    case Text => candidate == f.value
    case Regex => search(f.value, candidate)
  }

  /** The loop at lines 362-371: true at the first accepting flag, false when none accepts. */
  function AnyAccepts(flags: seq<Flag>, candidate: string, search: Search): (r: bool)
    ensures r <==> exists i :: 0 <= i < |flags| && Accepts(flags[i], candidate, search)
    decreases |flags|
  {
    if flags == [] then false
    else if Accepts(flags[0], candidate, search) then true
    else
      var r := AnyAccepts(flags[1..], candidate, search);
      assert forall i :: 1 <= i < |flags| ==> flags[1..][i - 1] == flags[i];
      r
  }

  /**
   * Lines 353-360: with a prefix set, the candidate must start with the prefix
   * and end with the suffix, and is then cut as `s[len(p):-len(q)]`; without a
   * prefix it is used as it is. None stands for the early `return False`.
   */
  function Unwrap(format: FlagFormat, submitted: string): Option<string> {
    if format.prefix == "" then Some(submitted)
    else if !StartsWith(submitted, format.prefix) || !EndsWith(submitted, format.suffix) then None
    else Some(Slice(submitted, |format.prefix|, -|format.suffix|))
  }

  /** validate_flag(config, submitted_flag) */
  function ValidateFlag(format: FlagFormat, flags: seq<Flag>, submitted: string, search: Search): bool {
    match Unwrap(format, submitted)
    case None => false
    case Some(candidate) => AnyAccepts(flags, candidate, search)
  }

  /** validate_solution_output(config, output): validate_flag on `output.strip()`. */
  function ValidateSolutionOutput(format: FlagFormat, flags: seq<Flag>, output: string, search: Search): bool {
    ValidateFlag(format, flags, Strip(output), search)
  }

  /** The search at lines 258-264: the first text flag's value, if there is a text flag. */
  function FirstTextFlag(flags: seq<Flag>): (r: Option<string>)
    decreases |flags|
  {
    if flags == [] then None
    else if flags[0].kind == Text then Some(flags[0].value)
    else FirstTextFlag(flags[1..])
  }

  /** The search finds nothing exactly when there is no text flag, and otherwise the first one. */
  lemma {:induction false} FirstTextFlagFirst(flags: seq<Flag>)
    ensures var r := FirstTextFlag(flags);
      && (r.None? <==> forall i :: 0 <= i < |flags| ==> flags[i].kind != Text)
      && (r.Some? ==> exists i :: 0 <= i < |flags| && flags[i].kind == Text && flags[i].value == r.value
                                  && forall j :: 0 <= j < i ==> flags[j].kind != Text)
    decreases |flags|
  {
    if flags != [] && flags[0].kind != Text {
      var r := FirstTextFlag(flags[1..]);
      FirstTextFlagFirst(flags[1..]);
      assert forall i :: 1 <= i < |flags| ==> flags[1..][i - 1] == flags[i];
      if r.Some? {
        var i :| 0 <= i < |flags[1..]| && flags[1..][i].kind == Text && flags[1..][i].value == r.value
                 && forall j :: 0 <= j < i ==> flags[1..][j].kind != Text;
        assert flags[i + 1] == flags[1..][i];
      }
    }
  }

  /**
   * get_first_text_flag(config): "" without a text flag; otherwise the first
   * text flag, wrapped in prefix and suffix only when the prefix is set.
   */
  function GetFirstTextFlag(format: FlagFormat, flags: seq<Flag>): (r: string)
    ensures FirstTextFlag(flags).None? ==> r == ""
    ensures FirstTextFlag(flags).Some? && format.prefix == "" ==> r == FirstTextFlag(flags).value
    ensures FirstTextFlag(flags).Some? && format.prefix != "" ==>
              |r| == |format.prefix| + |FirstTextFlag(flags).value| + |format.suffix|
              && StartsWith(r, format.prefix) && EndsWith(r, format.suffix)
              && r[|format.prefix|..|r| - |format.suffix|] == FirstTextFlag(flags).value
  {
    match FirstTextFlag(flags)
    case None => ""
    case Some(t) =>
      if format.prefix == "" then t
      else
        var r := format.prefix + t + format.suffix;
        assert r[..|format.prefix|] == format.prefix;
        assert r[|r| - |format.suffix|..] == format.suffix;
        assert r[|format.prefix|..|r| - |format.suffix|] == t;
        r
  }

  // ----------------------------------------------------------- properties

  /** With a prefix set, only a candidate wearing the whole wrapper can be accepted. */
  lemma AcceptedWearsWrapper(format: FlagFormat, flags: seq<Flag>, submitted: string, search: Search)
    requires format.prefix != ""
    requires ValidateFlag(format, flags, submitted, search)
    ensures StartsWith(submitted, format.prefix) && EndsWith(submitted, format.suffix)
  {
  }

  /** With a prefix and a non-empty suffix, the flags see what lies between them. */
  lemma WrappedCandidateIsCore(format: FlagFormat, flags: seq<Flag>, core: string, search: Search)
    requires format.prefix != "" && format.suffix != ""
    ensures ValidateFlag(format, flags, format.prefix + core + format.suffix, search)
        == AnyAccepts(flags, core, search)
  {
    var s := format.prefix + core + format.suffix;
    assert s[..|format.prefix|] == format.prefix;
    assert s[|s| - |format.suffix|..] == format.suffix;
    assert Slice(s, |format.prefix|, -|format.suffix|) == s[|format.prefix|..|s| - |format.suffix|];
    assert s[|format.prefix|..|s| - |format.suffix|] == core;
  }

  /**
   * With a prefix and an empty suffix, `s[len(p):-0]` is `s[len(p):0]`, which
   * is empty: whatever follows the prefix, the flags see "".
   */
  lemma EmptySuffixLeavesNothing(format: FlagFormat, flags: seq<Flag>, submitted: string, search: Search)
    requires format.prefix != "" && format.suffix == ""
    requires StartsWith(submitted, format.prefix)
    ensures ValidateFlag(format, flags, submitted, search) == AnyAccepts(flags, "", search)
  {
    assert EndsWith(submitted, "");
  }

  /** Without a prefix the suffix plays no part and the submission is not cut. */
  lemma NoPrefixIgnoresSuffix(suffix: string, flags: seq<Flag>, submitted: string, search: Search)
    ensures ValidateFlag(FlagFormat("", suffix), flags, submitted, search) == AnyAccepts(flags, submitted, search)
  {
  }

  /** The solver's output is checked with its surrounding whitespace removed. */
  lemma SolutionOutputIgnoresPadding(format: FlagFormat, flags: seq<Flag>, pre: string, flag: string, post: string, search: Search)
    requires AllSpace(pre) && AllSpace(post) && Trimmed(flag)
    ensures ValidateSolutionOutput(format, flags, pre + flag + post, search) == ValidateFlag(format, flags, flag, search)
  {
    StripPadded(pre, flag, post);
  }

  /**
   * The generator and the validator agree: the flag get_first_text_flag builds
   * is accepted whenever a text flag exists and the prefix is unset or the
   * suffix is non-empty.
   */
  lemma {:induction false} GeneratedFlagValidates(format: FlagFormat, flags: seq<Flag>, search: Search)
    requires FirstTextFlag(flags).Some?
    requires format.prefix == "" || format.suffix != ""
    ensures ValidateFlag(format, flags, GetFirstTextFlag(format, flags), search)
  {
    var t := FirstTextFlag(flags).value;
    FirstTextFlagFirst(flags);
    var i :| 0 <= i < |flags| && flags[i].kind == Text && flags[i].value == t
             && forall j :: 0 <= j < i ==> flags[j].kind != Text;
    assert Accepts(flags[i], t, search);
    if format.prefix != "" {
      WrappedCandidateIsCore(format, flags, t, search);
    }
  }

  /** The worked example: prefix "flag{", suffix "}", one text flag "abc". */
  lemma TextFlagExamples(search: Search)
    ensures var format := FlagFormat("flag{", "}");
            var flags := [Flag(Text, "abc")];
            ValidateFlag(format, flags, "flag{abc}", search)
            && !ValidateFlag(format, flags, "abc", search)
            && !ValidateFlag(format, flags, "flag{abd}", search)
  {
    var format := FlagFormat("flag{", "}");
    var flags := [Flag(Text, "abc")];
    WrappedCandidateIsCore(format, flags, "abc", search);
    WrappedCandidateIsCore(format, flags, "abd", search);
    assert !StartsWith("abc", "flag{");
  }

  // ------------------------------------------------- the empty-suffix defect

  /**
   * As written, a prefix with an empty suffix makes the validator reject the
   * flag the generator produces, unless some flag accepts "".
   */
  lemma GeneratedFlagRejectedWithoutSuffix(format: FlagFormat, flags: seq<Flag>, search: Search)
    requires FirstTextFlag(flags).Some?
    requires format.prefix != "" && format.suffix == ""
    requires !AnyAccepts(flags, "", search)
    ensures !ValidateFlag(format, flags, GetFirstTextFlag(format, flags), search)
  {
    EmptySuffixLeavesNothing(format, flags, GetFirstTextFlag(format, flags), search);
  }

  /** The concrete case: prefix "flag{", no suffix, text flag "abc", submission "flag{abc". */
  lemma EmptySuffixCounterexample(search: Search)
    ensures GetFirstTextFlag(FlagFormat("flag{", ""), [Flag(Text, "abc")]) == "flag{abc"
    ensures !ValidateFlag(FlagFormat("flag{", ""), [Flag(Text, "abc")], "flag{abc", search)
  {
    var format := FlagFormat("flag{", "");
    var flags := [Flag(Text, "abc")];
    assert FirstTextFlag(flags) == Some("abc");
    assert "flag{" + "abc" + "" == "flag{abc";
    EmptySuffixLeavesNothing(format, flags, "flag{abc", search);
    assert !Accepts(flags[0], "", search);
  }

  /** The evidently intended cut: drop the suffix by counting from the end. */
  function UnwrapIntended(format: FlagFormat, submitted: string): Option<string> {
    if format.prefix == "" then Some(submitted)
    else if !StartsWith(submitted, format.prefix) || !EndsWith(submitted, format.suffix) then None
    else Some(Slice(submitted, |format.prefix|, |submitted| - |format.suffix|))
  }

  function ValidateFlagIntended(format: FlagFormat, flags: seq<Flag>, submitted: string, search: Search): bool {
    match UnwrapIntended(format, submitted)
    case None => false
    case Some(candidate) => AnyAccepts(flags, candidate, search)
  }

  /** With the intended cut, the generated flag is accepted for every prefix and suffix. */
  lemma {:induction false} IntendedGeneratedFlagValidates(format: FlagFormat, flags: seq<Flag>, search: Search)
    requires FirstTextFlag(flags).Some?
    ensures ValidateFlagIntended(format, flags, GetFirstTextFlag(format, flags), search)
  {
    var t := FirstTextFlag(flags).value;
    FirstTextFlagFirst(flags);
    var i :| 0 <= i < |flags| && flags[i].kind == Text && flags[i].value == t
             && forall j :: 0 <= j < i ==> flags[j].kind != Text;
    assert Accepts(flags[i], t, search);
    if format.prefix != "" {
      var s := GetFirstTextFlag(format, flags);
      assert UnwrapIntended(format, s) == Some(s[|format.prefix|..|s| - |format.suffix|]);
    }
  }

  /** The intended check differs from the written one only when a prefix comes with an empty suffix. */
  lemma IntendedAgreesWithSuffix(format: FlagFormat, flags: seq<Flag>, submitted: string, search: Search)
    requires format.prefix == "" || format.suffix != ""
    ensures ValidateFlagIntended(format, flags, submitted, search) == ValidateFlag(format, flags, submitted, search)
  {
    if format.prefix != "" && StartsWith(submitted, format.prefix) && EndsWith(submitted, format.suffix) {
      if |format.prefix| <= |submitted| - |format.suffix| {
        assert Slice(submitted, |format.prefix|, -|format.suffix|)
            == Slice(submitted, |format.prefix|, |submitted| - |format.suffix|);
      }
    }
  }

  /**
   * The defect reaches solver output too: with a prefix and an empty suffix, a
   * solver printing the generated flag with a trailing newline is rejected.
   */
  lemma SolutionOutputEmptySuffix(search: Search)
    ensures !ValidateSolutionOutput(FlagFormat("flag{", ""), [Flag(Text, "abc")], " flag{abc\n", search)
  {
    StripPadded(" ", "flag{abc", "\n");
    assert " " + "flag{abc" + "\n" == " flag{abc\n";
    EmptySuffixCounterexample(search);
  }

  /**
   * With the corrected cut, a solver that prints the generated flag, with any
   * whitespace around it, is accepted for every prefix and suffix.
   */
  lemma IntendedSolutionOutputAccepts(format: FlagFormat, flags: seq<Flag>, pre: string, post: string, search: Search)
    requires FirstTextFlag(flags).Some?
    requires AllSpace(pre) && AllSpace(post) && Trimmed(GetFirstTextFlag(format, flags))
    ensures ValidateFlagIntended(format, flags, Strip(pre + GetFirstTextFlag(format, flags) + post), search)
  {
    StripPadded(pre, GetFirstTextFlag(format, flags), post);
    IntendedGeneratedFlagValidates(format, flags, search);
  }
}
