/** What `claude-submit submit` does between parsing its options and
    sending the project: detection when asked for or when no value flag was
    given, the merge in which manual values override detected ones, and the
    check that a title and a description are present. The code as written
    reassigns a `const`, so every run that detects ends in a TypeError; it
    is modelled beside the evidently intended behaviour. */
module CliSubmit {
  import opened CliArgs

  /** `Object.assign(detected, projectData)`: the detected keys, with every
      key the user set, `undefined` values included, taking the user's
      value. */
  function Merge(detected: Fields, manual: Fields): (merged: Fields)
    ensures merged.Keys == detected.Keys + manual.Keys
    ensures forall f :: f in manual ==> merged[f] == manual[f]
    ensures forall f :: f in detected && f !in manual ==> merged[f] == detected[f]
  {
    detected + manual
  }

  /** Merging no manual values keeps the detected ones; merging over
      nothing detected keeps the manual ones; merging the same manual
      values twice changes nothing more. */
  lemma MergeIdentities(detected: Fields, manual: Fields)
    ensures Merge(detected, map[]) == detected
    ensures Merge(map[], manual) == manual
    ensures Merge(Merge(detected, manual), manual) == Merge(detected, manual)
  {
  }

  /** `useAuto || Object.keys(projectData).length === 0`: a value flag at
      the end of the arguments still creates its key. */
  predicate RunsDetection(p: Parsed) {
    p.useAuto || |p.data| == 0
  }

  /** How the `submit` command ends before any network call. */
  datatype Plan =
    | Crash(message: string)   // the top-level catch: "❌ Error: <message>", exit code 1
    | MissingRequired          // "❌ Title and description are required"
    | Submit(data: Fields)     // `cli.submitProject(projectData)`

  const ConstAssignment := "Assignment to constant variable."

  /** `!projectData.title || !projectData.description` refuses. */
  function RequireTitleAndDescription(data: Fields): (plan: Plan)
    ensures plan.Submit? <==> Truthy(data, Title) && Truthy(data, Description)
    ensures plan.Submit? ==> plan.data == data
    ensures !plan.Crash?
  {
    if Truthy(data, Title) && Truthy(data, Description) then Submit(data) else MissingRequired
  }

  /** The command as written: `projectData = detected` assigns to the
      `const` declared for the `submit` case, which throws a TypeError
      after detection, so the merge is never used. */
  function PrepareAsWritten(p: Parsed, detected: Fields): (plan: Plan)
    ensures plan.Crash? <==> RunsDetection(p)
    ensures plan.Crash? ==> plan.message == ConstAssignment
    ensures plan.Submit? ==> plan.data == p.data
  {
    if RunsDetection(p) then Crash(ConstAssignment) else RequireTitleAndDescription(p.data)
  }

  /** The command as intended: with detection, the merged object is
      checked and sent; without it, the manual values alone. */
  function PrepareSubmission(p: Parsed, detected: Fields): (plan: Plan)
    ensures !plan.Crash?
    ensures plan.Submit? ==> Truthy(plan.data, Title) && Truthy(plan.data, Description)
    ensures plan.Submit? ==> forall f :: f in p.data ==> f in plan.data && plan.data[f] == p.data[f]
    ensures plan.Submit? && RunsDetection(p) ==>
              forall f :: f in detected && f !in p.data ==> f in plan.data && plan.data[f] == detected[f]
    ensures plan.Submit? && !RunsDetection(p) ==> plan.data == p.data
    ensures plan.MissingRequired? <==>
              var data := if RunsDetection(p) then Merge(detected, p.data) else p.data;
              !(Truthy(data, Title) && Truthy(data, Description))
  {
    if RunsDetection(p) then RequireTitleAndDescription(Merge(detected, p.data))
    else RequireTitleAndDescription(p.data)
  }

  /** A submission carries exactly the manual keys and, when detection
      runs, the detected ones: nothing else is added. */
  lemma PrepareSubmissionKeys(p: Parsed, detected: Fields)
    ensures var plan := PrepareSubmission(p, detected);
            plan.Submit? ==> plan.data.Keys == p.data.Keys + (if RunsDetection(p) then detected.Keys else {})
  {
  }

  /** Without detection the two agree. */
  lemma PrepareAgreesWithoutDetection(p: Parsed, detected: Fields)
    requires !RunsDetection(p)
    ensures PrepareAsWritten(p, detected) == PrepareSubmission(p, detected)
  {
  }

  /** `claude-submit submit --auto` in a project whose detected title and
      description are non-empty: as written it crashes; as intended it
      submits exactly the detected project. */
  lemma AutoSubmitCrashes(detected: Fields)
    requires Truthy(detected, Title) && Truthy(detected, Description)
    ensures PrepareAsWritten(ParseOptions(["submit", "--auto"]), detected) == Crash(ConstAssignment)
    ensures PrepareSubmission(ParseOptions(["submit", "--auto"]), detected) == Submit(detected)
  {
    var args := ["submit", "--auto"];
    assert Options(args) == ["--auto"];
    assert Lex(["--auto"]) == [Auto] + Lex([]);
    assert ParseOptions(args) == Parsed(map[], true);
    MergeIdentities(detected, map[]);
  }

  /** A manual title overrides the detected one under `--auto`, as the
      comment on the merge promises. */
  lemma ManualTitleOverrides(title: string, detected: Fields)
    requires title != "" && Truthy(detected, Description)
    ensures PrepareSubmission(ParseOptions(["submit", "--auto", "--title", title]), detected)
         == Submit(detected[Title := Str(title)])
  {
    var args := ["submit", "--auto", "--title", title];
    assert Options(args) == ["--auto", "--title", title];
    assert ["--auto", "--title", title][1..] == ["--title", title];
    assert ["--title", title][2..] == [];
    assert Lex(["--title", title]) == [SetValue(Title, Str(title))];
    var opts := [Auto, SetValue(Title, Str(title))];
    assert Lex(["--auto", "--title", title]) == opts;
    assert opts[1..] == [SetValue(Title, Str(title))];
    assert opts[1..][1..] == [];
    assert ApplyOptions(opts, Parsed(map[], false)) == ApplyOptions(opts[1..], Parsed(map[], true));
    assert ApplyOptions(opts[1..], Parsed(map[], true)) == Parsed(map[][Title := Str(title)], true);
    assert ParseOptions(args) == Parsed(map[Title := Str(title)], true);
    assert Merge(detected, map[Title := Str(title)]) == detected[Title := Str(title)];
  }
}
