/** validate_package and validate_all of scripts/validate.py: the error list
    is built by appending, check after check, and is proved equal to the
    reference report of module Rules. */
module Validator {
  import opened JsonValues
  import opened Rules
  import Messages
  import Properties

  /** Validates the package file `stem`.json whose decoding is `input`. */
  method ValidatePackage(stem: string, input: Input) returns (errors: seq<Issue>)
    requires Admissible(input)
    ensures errors == Report(stem, input)
    ensures errors == [] <==> input.Parsed? && Passes(stem, input.doc)
  {
    if input.Undecodable? {
      errors := [InvalidJson(input.detail)];
      Properties.ReportEmptyIff(stem, input);
      return;
    }
    var data := input.doc;
    errors := CheckRequiredFields(data, RequiredFields);
    if errors == [] {
      // Every required field is present: the remaining checks apply.
      Properties.MissingFieldIssuesEmpty(data, RequiredFields);
      // The values the checks read: data["name"], data["description"], ...
      errors := CheckContent(stem, Extract(data));
    }
    Properties.ReportEmptyIff(stem, input);
  }

  /** validate_package as the source returns it: the list of message texts.
      The i-th text is that of the i-th issue of the report, and it names
      the check that produced it. */
  method ValidatePackageTexts(stem: string, input: Input) returns (messages: seq<string>)
    requires Admissible(input)
    ensures messages == Messages.Texts(Report(stem, input))
    ensures messages == [] <==> input.Parsed? && Passes(stem, input.doc)
    ensures forall i :: 0 <= i < |messages| ==>
              Messages.RuleOfText(messages[i]) == Messages.Some(RuleOf(Report(stem, input)[i]))
  {
    var errors := ValidatePackage(stem, input);
    messages := Messages.Texts(errors);
    Properties.ReportTexts(stem, input);
  }

  /** The loop over REQUIRED_FIELDS (passed as `fields`): one issue per
      absent field, in order. */
  method CheckRequiredFields(data: Json, fields: seq<string>) returns (errors: seq<Issue>)
    requires IsContainer(data)
    ensures errors == MissingFieldIssues(data, fields)
  {
    errors := [];
    var k := 0;
    while k < |fields|
      invariant 0 <= k <= |fields|
      invariant errors == MissingFieldIssues(data, fields[..k])
    {
      var field := fields[k];
      if !PyIn(field, data) {
        errors := errors + [MissingField(field)];
      }
      assert fields[..k + 1][..k] == fields[..k];
      k := k + 1;
    }
    assert fields[..k] == fields;
  }

  /** The checks that follow once every required field is present: name,
      file stem, description, license, repository, versions, default
      version, targets, maintainers and dependencies, in this order. */
  method CheckContent(stem: string, p: Package) returns (errors: seq<Issue>)
    requires PackageAdmissible(p)
    ensures errors == ContentIssues(stem, p)
  {
    errors := [];

    if !MatchName(p.name) {
      errors := errors + [InvalidName(p.name)];
    }
    assert errors == NameIssues(p.name);
    if stem != p.name {
      errors := errors + [StemMismatch(stem, p.name)];
    }
    assert errors == NameIssues(p.name) + StemIssues(stem, p.name);
    if Len(p.description) > MaxDescriptionLength {
      errors := errors + [DescriptionTooLong];
    }
    ghost var head := errors;
    assert head == NameIssues(p.name) + StemIssues(stem, p.name) + DescriptionIssues(p.description);
    if !LicenseKnown(p.license) {
      errors := errors + [UnknownLicense(p.license)];
    }
    assert errors == head + LicenseIssues(p.license);
    var repoErrors := CheckRepository(p.repository);
    errors := errors + repoErrors;
    var versionErrors := CheckVersions(p.versions);
    errors := errors + versionErrors;
    if !DefaultVersionKnown(p.defaultVersion, p.versions) {
      errors := errors + [DefaultVersionNotFound(p.defaultVersion)];
    }
    ghost var middle := errors;
    assert middle == head + LicenseIssues(p.license) + RepositoryIssues(p.repository)
      + VersionIssues(p.versions) + DefaultVersionIssues(p.defaultVersion, p.versions);
    if Falsy(p.targets) {
      errors := errors + [NoTargets];
    }
    assert errors == middle + TargetIssues(p.targets);
    if Falsy(p.maintainers) {
      errors := errors + [NoMaintainers];
    }
    assert errors == middle + TargetIssues(p.targets) + MaintainerIssues(p.maintainers);
    // An absent `dependencies` field leaves nothing to iterate over.
    var depErrors := CheckDependencies(p.dependencies);
    errors := errors + depErrors;
  }

  /** The repository needs `type` and `url`; only then is the type checked. */
  method CheckRepository(repo: Json) returns (errors: seq<Issue>)
    requires RepositoryAdmissible(repo)
    ensures errors == RepositoryIssues(repo)
  {
    errors := [];
    if !PyIn("type", repo) || !PyIn("url", repo) {
      errors := errors + [RepositoryFieldsMissing];
    } else if !RepositoryTypeKnown(Field(repo, "type")) {
      errors := errors + [InvalidRepositoryType(Field(repo, "type"))];
    }
  }

  /** At least one version, then the entries in the order of the dict. */
  method CheckVersions(versions: Json) returns (errors: seq<Issue>)
    requires VersionsAdmissible(versions)
    ensures errors == VersionIssues(versions)
  {
    errors := [];
    if Falsy(versions) {
      errors := errors + [NoVersions];
    }
    ghost var beforeEntries := errors;
    var entries := versions.members;
    var v := 0;
    while v < |entries|
      invariant 0 <= v <= |entries|
      invariant errors == beforeEntries + EntriesIssues(entries[..v])
    {
      var entryErrors := CheckVersionEntry(entries[v].0, entries[v].1);
      errors := errors + entryErrors;
      assert entries[..v + 1][..v] == entries[..v];
      v := v + 1;
    }
    assert entries[..v] == entries;
  }

  /** The entry of version `ver`: each of REQUIRED_VERSION_FIELDS, then the
      type of `cmake_options` when it is present. */
  method CheckVersionEntry(ver: string, info: Json) returns (errors: seq<Issue>)
    requires EntryAdmissible(info)
    ensures errors == EntryIssues(ver, info)
  {
    errors := [];
    var f := 0;
    while f < |RequiredVersionFields|
      invariant 0 <= f <= |RequiredVersionFields|
      invariant errors == VersionFieldIssues(ver, info, RequiredVersionFields[..f])
    {
      var field := RequiredVersionFields[f];
      if !PyIn(field, info) {
        errors := errors + [VersionFieldMissing(ver, field)];
      }
      assert RequiredVersionFields[..f + 1][..f] == RequiredVersionFields[..f];
      f := f + 1;
    }
    assert RequiredVersionFields[..f] == RequiredVersionFields;
    if PyIn("cmake_options", info) {
      if !Field(info, "cmake_options").JObj? {
        errors := errors + [CmakeOptionsNotObject(ver)];
      }
    }
  }

  /** One issue per dependency without a `name`. */
  method CheckDependencies(deps: seq<Json>) returns (errors: seq<Issue>)
    requires forall x :: x in deps ==> IsContainer(x)
    ensures errors == NamelessIssues(deps)
  {
    errors := [];
    var d := 0;
    while d < |deps|
      invariant 0 <= d <= |deps|
      invariant errors == NamelessIssues(deps[..d])
    {
      if !PyIn("name", deps[d]) {
        errors := errors + [DependencyWithoutName];
      }
      assert deps[..d + 1][..d] == deps[..d];
      d := d + 1;
    }
    assert deps[..d] == deps;
  }

  /** Validates every package file of the registry, visited in the order of
      `registry`; a package appears in the result only when it has errors. */
  method ValidateAll(registry: seq<(string, Input)>) returns (results: map<string, seq<Issue>>)
    requires forall i :: 0 <= i < |registry| ==> Admissible(registry[i].1)
    ensures results == Collect(registry)
    ensures forall stem :: stem in results <==>
              exists i :: 0 <= i < |registry| && registry[i].0 == stem && Report(stem, registry[i].1) != []
    ensures (forall i :: 0 <= i < |registry| ==> registry[i].1.Parsed? && Passes(registry[i].0, registry[i].1.doc))
              ==> results == map[]
  {
    ghost var reports := Reports(registry);
    results := map[];
    var i := 0;
    while i < |registry|
      invariant 0 <= i <= |registry|
      invariant results == Gather(reports[..i])
    {
      var stem := registry[i].0;
      var errors := ValidatePackage(stem, registry[i].1);
      if errors != [] {
        results := results[stem := errors];
      }
      assert reports[..i + 1][..i] == reports[..i];
      i := i + 1;
    }
    assert reports[..i] == reports;
    Properties.CollectKeys(registry);
    if forall k :: 0 <= k < |registry| ==> registry[k].1.Parsed? && Passes(registry[k].0, registry[k].1.doc) {
      Properties.CollectAllValid(registry);
    }
  }
}
