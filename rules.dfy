/** The rules a registry package document must satisfy, and the reference
    report: the list of issues the validator produces for a document, rule by
    rule, in the order it checks them (scripts/validate.py). */
module Rules {
  import opened JsonValues

  /** Top-level fields every package document must have, in checking order. */
  const RequiredFields: seq<string> :=
    ["name", "description", "homepage", "license", "repository", "versions",
     "default_version", "targets", "maintainers"]

  /** Fields every entry of `versions` must have, in checking order. */
  const RequiredVersionFields: seq<string> := ["git_tag", "tested"]

  const ValidRepoTypes: seq<string> := ["github", "gitlab", "url"]

  /** The accepted SPDX license identifiers. */
  const ValidLicenses: set<string> :=
    {"MIT", "Apache-2.0", "BSD-2-Clause", "BSD-3-Clause", "BSL-1.0",
     "MPL-2.0", "LGPL-2.1", "LGPL-3.0", "GPL-2.0", "GPL-3.0",
     "Unlicense", "ISC", "Zlib", "CC0-1.0"}

  const MaxDescriptionLength: nat := 200

  /** A package file: either decoded into a document, or rejected by the JSON
      decoder with the decoder's explanation. */
  datatype Input = Parsed(doc: Json) | Undecodable(detail: string)

  /** One reported problem; each constructor stands for one error message of
      the validator (rendered in module Messages). */
  datatype Issue =
    | InvalidJson(detail: string)
    | MissingField(field: string)
    | InvalidName(name: string)
    | StemMismatch(stem: string, name: string)
    | DescriptionTooLong
    | UnknownLicense(license: Json)
    | RepositoryFieldsMissing
    | InvalidRepositoryType(repoType: Json)
    | NoVersions
    | VersionFieldMissing(version: string, field: string)
    | CmakeOptionsNotObject(version: string)
    | DefaultVersionNotFound(defaultVersion: Json)
    | NoTargets
    | NoMaintainers
    | DependencyWithoutName

  /** The check an issue comes from. */
  datatype Rule =
    | JsonRule | RequiredRule | NameRule | StemRule | DescriptionRule
    | LicenseRule | RepositoryFieldsRule | RepositoryTypeRule | VersionsRule
    | VersionFieldRule | CmakeOptionsRule | DefaultVersionRule | TargetsRule
    | MaintainersRule | DependencyRule

  function RuleOf(issue: Issue): Rule
  {
    match issue
    case InvalidJson(_) => JsonRule
    case MissingField(_) => RequiredRule
    case InvalidName(_) => NameRule
    case StemMismatch(_, _) => StemRule
    case DescriptionTooLong => DescriptionRule
    case UnknownLicense(_) => LicenseRule
    case RepositoryFieldsMissing => RepositoryFieldsRule
    case InvalidRepositoryType(_) => RepositoryTypeRule
    case NoVersions => VersionsRule
    case VersionFieldMissing(_, _) => VersionFieldRule
    case CmakeOptionsNotObject(_) => CmakeOptionsRule
    case DefaultVersionNotFound(_) => DefaultVersionRule
    case NoTargets => TargetsRule
    case NoMaintainers => MaintainersRule
    case DependencyWithoutName => DependencyRule
  }

  /** How many issues of `s` come from rule `r`. */
  function Count(s: seq<Issue>, r: Rule): nat
  {
    if s == [] then 0
    else Count(s[..|s| - 1], r) + (if RuleOf(s[|s| - 1]) == r then 1 else 0)
  }

  // ---------------------------------------------------------------------
  // The package name: NAME_PATTERN = ^[a-z][a-z0-9_]*$
  // ---------------------------------------------------------------------

  predicate IsLowerAscii(c: char)
  {
    'a' <= c <= 'z'
  }

  predicate IsNameChar(c: char)
  {
    IsLowerAscii(c) || '0' <= c <= '9' || c == '_'
  }

  /** `t` as a whole is a lower-case ASCII letter followed by lower-case
      letters, digits and underscores. */
  predicate IsIdentifier(t: string)
  {
    |t| >= 1 && IsLowerAscii(t[0]) && forall i :: 1 <= i < |t| ==> IsNameChar(t[i])
  }

  /** The strings the anchored pattern accepts: Python's `$` also matches just
      before a newline that ends the string. */
  predicate NamePattern(s: string)
  {
    IsIdentifier(s) || (|s| >= 1 && s[|s| - 1] == '\n' && IsIdentifier(s[..|s| - 1]))
  }

  /** The regular expression run left to right from position `i`, after the
      first letter: name characters, then the end or one final newline. */
  function MatchTail(s: string, i: nat): (r: bool)
    requires 1 <= i <= |s|
    ensures r <==> (forall j :: i <= j < |s| ==> IsNameChar(s[j]))
                   || (s[|s| - 1] == '\n' && forall j :: i <= j < |s| - 1 ==> IsNameChar(s[j]))
    decreases |s| - i
  {
    if i == |s| then true
    else if IsNameChar(s[i]) then MatchTail(s, i + 1)
    else s[i] == '\n' && i + 1 == |s|
  }

  /** `NAME_PATTERN.match(name)` succeeds. */
  function MatchName(s: string): (r: bool)
    ensures r <==> NamePattern(s)
  {
    if |s| >= 1 && IsLowerAscii(s[0]) then
      var r := MatchTail(s, 1);
      assert |s| >= 2 && s[|s| - 1] == '\n' ==> forall j :: 1 <= j < |s| - 1 ==> s[..|s| - 1][j] == s[j];
      r
    else
      false
  }

  // ---------------------------------------------------------------------
  // Document shapes
  // ---------------------------------------------------------------------

  predicate AllRequiredPresent(doc: Json)
    requires IsContainer(doc)
  {
    forall f :: f in RequiredFields ==> PyIn(f, doc)
  }

  /** `doc[k]` on a dict. */
  function Field(doc: Json, k: string): Json
    requires doc.JObj? && IsKey(doc.members, k)
  {
    Get(doc.members, k)
  }

  predicate HasKey(doc: Json, k: string)
  {
    doc.JObj? && IsKey(doc.members, k)
  }

  /** A document the rule checks can be applied to: an object with every
      required field. */
  predicate Complete(doc: Json)
  {
    && doc.JObj?
    && var m := doc.members;
    && IsKey(m, "name") && IsKey(m, "description") && IsKey(m, "homepage")
    && IsKey(m, "license") && IsKey(m, "repository") && IsKey(m, "versions")
    && IsKey(m, "default_version") && IsKey(m, "targets") && IsKey(m, "maintainers")
  }

  /** Complete spells out, key by key, the fields AllRequiredPresent asks
      for, so that `data[k]` can be read from it. */
  lemma CompleteIff(doc: Json)
    ensures Complete(doc) <==> doc.JObj? && AllRequiredPresent(doc)
  {
    if doc.JObj? && AllRequiredPresent(doc) {
      var m := doc.members;
      forall i | 0 <= i < |RequiredFields|
        ensures IsKey(m, RequiredFields[i])
      {
        assert RequiredFields[i] in RequiredFields;
      }
      assert IsKey(m, RequiredFields[0]) && IsKey(m, RequiredFields[1]) && IsKey(m, RequiredFields[2]);
      assert IsKey(m, RequiredFields[3]) && IsKey(m, RequiredFields[4]) && IsKey(m, RequiredFields[5]);
      assert IsKey(m, RequiredFields[6]) && IsKey(m, RequiredFields[7]) && IsKey(m, RequiredFields[8]);
    }
  }

  predicate RepositoryAdmissible(repo: Json)
  {
    IsContainer(repo) && (PyIn("type", repo) && PyIn("url", repo) ==> repo.JObj?)
  }

  predicate EntryAdmissible(info: Json)
  {
    IsContainer(info) && (PyIn("cmake_options", info) ==> info.JObj?)
  }

  predicate VersionsAdmissible(versions: Json)
  {
    versions.JObj? && forall i :: 0 <= i < |versions.members| ==> EntryAdmissible(versions.members[i].1)
  }

  predicate DependenciesAdmissible(deps: Json)
  {
    IsContainer(deps) && forall x :: x in Iterate(deps) ==> IsContainer(x)
  }

  /** The field values of a complete document have the types the rule checks
      apply to them without raising a Python exception. */
  predicate FieldsAdmissible(doc: Json)
    requires Complete(doc)
  {
    && Field(doc, "name").JStr?
    && IsContainer(Field(doc, "description"))
    && Hashable(Field(doc, "license"))
    && RepositoryAdmissible(Field(doc, "repository"))
    && VersionsAdmissible(Field(doc, "versions"))
    && Hashable(Field(doc, "default_version"))
    && (HasKey(doc, "dependencies") ==> DependenciesAdmissible(Field(doc, "dependencies")))
  }

  /** The values the rule checks read from a complete document: `data[k]`
      for the fields they look at, and the items a `for` loop visits in
      `dependencies` (none when that optional field is absent). */
  datatype Package = Package(
    name: string,
    description: Json,
    license: Json,
    repository: Json,
    versions: Json,
    defaultVersion: Json,
    targets: Json,
    maintainers: Json,
    dependencies: seq<Json>)

  /** The field values have the types the rule checks apply to them without
      raising a Python exception. */
  predicate PackageAdmissible(p: Package)
  {
    && IsContainer(p.description)
    && Hashable(p.license)
    && RepositoryAdmissible(p.repository)
    && VersionsAdmissible(p.versions)
    && Hashable(p.defaultVersion)
    && forall x :: x in p.dependencies ==> IsContainer(x)
  }

  function Extract(doc: Json): (p: Package)
    requires Complete(doc) && FieldsAdmissible(doc)
    ensures PackageAdmissible(p)
  {
    Package(
      Field(doc, "name").s,
      Field(doc, "description"),
      Field(doc, "license"),
      Field(doc, "repository"),
      Field(doc, "versions"),
      Field(doc, "default_version"),
      Field(doc, "targets"),
      Field(doc, "maintainers"),
      if HasKey(doc, "dependencies") then Iterate(Field(doc, "dependencies")) else [])
  }

  /** The inputs on which validate_package returns a list instead of raising:
      the decoded document supports `in`, and if it has every required field
      it is an object whose fields have the types the checks expect. A
      decoded document has no duplicate keys. */
  predicate Admissible(input: Input)
  {
    match input
    case Undecodable(_) => true
    case Parsed(doc) =>
      && Decoded(doc)
      && IsContainer(doc)
      && (AllRequiredPresent(doc) ==> Complete(doc) && FieldsAdmissible(doc))
  }

  // ---------------------------------------------------------------------
  // The rules, one predicate each
  // ---------------------------------------------------------------------

  predicate LicenseKnown(license: Json)
  {
    license.JStr? && license.s in ValidLicenses
  }

  predicate RepositoryHasFields(repo: Json)
    requires IsContainer(repo)
  {
    PyIn("type", repo) && PyIn("url", repo)
  }

  predicate RepositoryTypeKnown(repoType: Json)
  {
    repoType.JStr? && repoType.s in ValidRepoTypes
  }

  predicate EntryOk(info: Json)
    requires EntryAdmissible(info)
  {
    && (forall f :: f in RequiredVersionFields ==> PyIn(f, info))
    && (PyIn("cmake_options", info) ==> Field(info, "cmake_options").JObj?)
  }

  predicate DefaultVersionKnown(defaultVersion: Json, versions: Json)
    requires versions.JObj?
  {
    defaultVersion.JStr? && IsKey(versions.members, defaultVersion.s)
  }

  /** There is at least one version, and every version entry is complete. */
  predicate VersionsOk(versions: Json)
    requires VersionsAdmissible(versions)
  {
    && !Falsy(versions)
    && forall i :: 0 <= i < |versions.members| ==> EntryOk(versions.members[i].1)
  }

  /** Every rule after the required-field rule holds of the package stored
      in the file named `stem`. */
  predicate ContentPasses(stem: string, p: Package)
    requires PackageAdmissible(p)
  {
    && NamePattern(p.name)
    && stem == p.name
    && Len(p.description) <= MaxDescriptionLength
    && LicenseKnown(p.license)
    && RepositoryHasFields(p.repository)
    && RepositoryTypeKnown(Field(p.repository, "type"))
    && VersionsOk(p.versions)
    && DefaultVersionKnown(p.defaultVersion, p.versions)
    && !Falsy(p.targets)
    && !Falsy(p.maintainers)
    && forall x :: x in p.dependencies ==> PyIn("name", x)
  }

  /** Every rule holds of the document stored in the file named `stem`. */
  predicate Passes(stem: string, doc: Json)
    requires Admissible(Parsed(doc))
  {
    AllRequiredPresent(doc) && ContentPasses(stem, Extract(doc))
  }

  // ---------------------------------------------------------------------
  // The reference report
  // ---------------------------------------------------------------------

  /** One MissingField issue per field of `fields` that `doc` lacks, in the
      order of `fields`. */
  function MissingFieldIssues(doc: Json, fields: seq<string>): (r: seq<Issue>)
    requires IsContainer(doc)
    ensures forall x :: x in r ==> x.MissingField? && x.field in fields && !PyIn(x.field, doc)
    ensures forall f :: f in fields && !PyIn(f, doc) ==> MissingField(f) in r
  {
    if fields == [] then []
    else
      var last := fields[|fields| - 1];
      MissingFieldIssues(doc, fields[..|fields| - 1]) + (if PyIn(last, doc) then [] else [MissingField(last)])
  }

  function NameIssues(name: string): seq<Issue>
  {
    if MatchName(name) then [] else [InvalidName(name)]
  }

  function StemIssues(stem: string, name: string): seq<Issue>
  {
    if stem != name then [StemMismatch(stem, name)] else []
  }

  function DescriptionIssues(description: Json): seq<Issue>
    requires IsContainer(description)
  {
    if Len(description) > MaxDescriptionLength then [DescriptionTooLong] else []
  }

  function LicenseIssues(license: Json): seq<Issue>
  {
    if LicenseKnown(license) then [] else [UnknownLicense(license)]
  }

  function RepositoryIssues(repo: Json): seq<Issue>
    requires RepositoryAdmissible(repo)
  {
    if !RepositoryHasFields(repo) then [RepositoryFieldsMissing]
    else if !RepositoryTypeKnown(Field(repo, "type")) then [InvalidRepositoryType(Field(repo, "type"))]
    else []
  }

  /** One issue per field of `fields` that the entry of version `ver` lacks. */
  function VersionFieldIssues(ver: string, info: Json, fields: seq<string>): seq<Issue>
    requires IsContainer(info)
  {
    if fields == [] then []
    else
      var last := fields[|fields| - 1];
      VersionFieldIssues(ver, info, fields[..|fields| - 1])
        + (if PyIn(last, info) then [] else [VersionFieldMissing(ver, last)])
  }

  function CmakeOptionsIssues(ver: string, info: Json): seq<Issue>
    requires EntryAdmissible(info)
  {
    if PyIn("cmake_options", info) && !Field(info, "cmake_options").JObj? then [CmakeOptionsNotObject(ver)]
    else []
  }

  function EntryIssues(ver: string, info: Json): seq<Issue>
    requires EntryAdmissible(info)
  {
    VersionFieldIssues(ver, info, RequiredVersionFields) + CmakeOptionsIssues(ver, info)
  }

  /** The issues of the version entries, entry after entry. */
  function EntriesIssues(entries: seq<(string, Json)>): seq<Issue>
    requires forall i :: 0 <= i < |entries| ==> EntryAdmissible(entries[i].1)
  {
    if entries == [] then []
    else
      var last := entries[|entries| - 1];
      EntriesIssues(entries[..|entries| - 1]) + EntryIssues(last.0, last.1)
  }

  function VersionIssues(versions: Json): seq<Issue>
    requires VersionsAdmissible(versions)
  {
    (if Falsy(versions) then [NoVersions] else []) + EntriesIssues(versions.members)
  }

  function DefaultVersionIssues(defaultVersion: Json, versions: Json): seq<Issue>
    requires versions.JObj?
  {
    if DefaultVersionKnown(defaultVersion, versions) then [] else [DefaultVersionNotFound(defaultVersion)]
  }

  function TargetIssues(targets: Json): seq<Issue>
  {
    if Falsy(targets) then [NoTargets] else []
  }

  function MaintainerIssues(maintainers: Json): seq<Issue>
  {
    if Falsy(maintainers) then [NoMaintainers] else []
  }

  /** One issue per dependency that has no `name`. */
  function NamelessIssues(deps: seq<Json>): seq<Issue>
    requires forall x :: x in deps ==> IsContainer(x)
  {
    if deps == [] then []
    else
      var last := deps[|deps| - 1];
      NamelessIssues(deps[..|deps| - 1]) + (if PyIn("name", last) then [] else [DependencyWithoutName])
  }

  /** The issues of a complete document, rule after rule. */
  function ContentIssues(stem: string, p: Package): seq<Issue>
    requires PackageAdmissible(p)
  {
    NameIssues(p.name)
      + StemIssues(stem, p.name)
      + DescriptionIssues(p.description)
      + LicenseIssues(p.license)
      + RepositoryIssues(p.repository)
      + VersionIssues(p.versions)
      + DefaultVersionIssues(p.defaultVersion, p.versions)
      + TargetIssues(p.targets)
      + MaintainerIssues(p.maintainers)
      + NamelessIssues(p.dependencies)
  }

  /** The list validate_package returns for the file `stem`.json. */
  function Report(stem: string, input: Input): seq<Issue>
    requires Admissible(input)
  {
    match input
    case Undecodable(detail) => [InvalidJson(detail)]
    case Parsed(doc) =>
      var missing := MissingFieldIssues(doc, RequiredFields);
      if missing != [] then missing else ContentIssues(stem, Extract(doc))
  }

  /** The stem and the error list of each package file of the registry,
      in the order the files are visited. */
  function Reports(registry: seq<(string, Input)>): (reports: seq<(string, seq<Issue>)>)
    requires forall i :: 0 <= i < |registry| ==> Admissible(registry[i].1)
    ensures |reports| == |registry|
    ensures forall i :: 0 <= i < |registry| ==>
              reports[i] == (registry[i].0, Report(registry[i].0, registry[i].1))
  {
    seq(|registry|, i requires 0 <= i < |registry| => (registry[i].0, Report(registry[i].0, registry[i].1)))
  }

  /** The result of validate_all once each file's error list is known: every
      stem whose list is non-empty, mapped to its list. */
  function Gather(reports: seq<(string, seq<Issue>)>): map<string, seq<Issue>>
  {
    if reports == [] then map[]
    else
      var last := reports[|reports| - 1];
      var results := Gather(reports[..|reports| - 1]);
      if last.1 != [] then results[last.0 := last.1] else results
  }

  /** What validate_all returns for the package files `registry`, given as
      (stem, contents) pairs in the order they are visited. */
  function Collect(registry: seq<(string, Input)>): map<string, seq<Issue>>
    requires forall i :: 0 <= i < |registry| ==> Admissible(registry[i].1)
  {
    Gather(Reports(registry))
  }
}
