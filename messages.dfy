/** The text of each error message of scripts/validate.py, as its f-strings
    render it, and a proof that the text of a message tells which check
    produced it. */
module Messages {
  import opened JsonValues
  import opened Rules

  datatype Option<T> = None | Some(value: T)

  /** The decimal digits of `n`, most significant first. */
  function Digits(n: nat): (s: string)
    ensures |s| > 0
    decreases n
  {
    (if n < 10 then "" else Digits(n / 10)) + ["0123456789"[n % 10]]
  }

  /** Python's `str` of an integer. */
  function IntText(n: int): string
  {
    if n < 0 then "-" + Digits(-n) else Digits(n)
  }

  /** Python's `repr` of a string. */
  function Quote(s: string): string
  {
    "'" + s + "'"
  }

  /** Python's `repr` of a value: `str` of scalars, quoted strings, and
      lists and dicts written out element by element. */
  function Repr(j: Json): string
    decreases j, 1, 0
  {
    match j
    case JNull => "None"
    case JBool(b) => if b then "True" else "False"
    case JNum(n) => IntText(n)
    case JStr(s) => Quote(s)
    case JArr(items) =>
      assert forall x :: x in items ==> x < j;
      "[" + ReprItems(items, j) + "]"
    case JObj(members) =>
      assert forall m :: m in members ==> m.1 < m < j;
      "{" + ReprMembers(members, j) + "}"
  }

  /** The elements of a list, separated by ", ". */
  function ReprItems(items: seq<Json>, ghost parent: Json): string
    requires forall x :: x in items ==> x < parent
    decreases parent, 0, |items|
  {
    if items == [] then ""
    else if |items| == 1 then
      assert items[0] in items;
      Repr(items[0])
    else
      assert items[0] in items && forall x :: x in items[1..] ==> x in items;
      Repr(items[0]) + ", " + ReprItems(items[1..], parent)
  }

  /** The `key: value` members of a dict, separated by ", ". */
  function ReprMembers(members: seq<(string, Json)>, ghost parent: Json): string
    requires forall m :: m in members ==> m.1 < parent
    decreases parent, 0, |members|
  {
    if members == [] then ""
    else
      var entry := Quote(members[0].0) + ": " + Repr(members[0].1);
      if |members| == 1 then entry
      else
        assert forall m :: m in members[1..] ==> m in members;
        entry + ", " + ReprMembers(members[1..], parent)
  }

  /** Python's `str`, which an f-string applies to what it interpolates:
      a string stands for itself, anything else for its `repr`. */
  function Str(j: Json): string
  {
    if j.JStr? then j.s else Repr(j)
  }

  /** What the message about an invalid name says after the name. */
  const Rest := "': must be lowercase alphanumeric + underscore, starting with letter"

  /** The message the validator appends for `issue`. */
  function Text(issue: Issue): string
  {
    match issue
    case InvalidJson(detail) => "Invalid JSON: " + detail
    case MissingField(field) => "Missing required field: " + field
    case InvalidName(name) => "Invalid name '" + name + Rest
    case StemMismatch(stem, name) => "Filename '" + stem + "' doesn't match package name '" + name + "'"
    case DescriptionTooLong => "Description exceeds 200 characters"
    case UnknownLicense(license) => "Unknown license '" + Str(license) + "'. Use SPDX identifier."
    case RepositoryFieldsMissing => "Repository must have 'type' and 'url' fields"
    case InvalidRepositoryType(repoType) => "Invalid repository type: " + Str(repoType)
    case NoVersions => "At least one version is required"
    case VersionFieldMissing(ver, field) => "Version " + ver + " missing required field: " + field
    case CmakeOptionsNotObject(ver) => "Version " + ver + ": cmake_options must be an object"
    case DefaultVersionNotFound(dv) => "default_version '" + Str(dv) + "' not found in versions"
    case NoTargets => "At least one target must be specified"
    case NoMaintainers => "At least one maintainer is required"
    case DependencyWithoutName => "Dependency missing 'name' field"
  }

  /** The list of strings validate_package returns for a list of issues. */
  function Texts(issues: seq<Issue>): (texts: seq<string>)
    ensures |texts| == |issues|
    ensures forall i :: 0 <= i < |issues| ==> texts[i] == Text(issues[i])
  {
    seq(|issues|, i requires 0 <= i < |issues| => Text(issues[i]))
  }

  predicate EndsWith(t: string, suffix: string)
  {
    |suffix| <= |t| && t[|t| - |suffix|..] == suffix
  }

  /** Reads back from a message text the check that produced it, by its
      first character and then by its fixed wording. */
  function RuleOfText(t: string): Option<Rule>
  {
    if t == [] then None
    else match t[0]
      case 'I' =>
        if "Invalid JSON: " <= t then Some(JsonRule)
        else if "Invalid name '" <= t then Some(NameRule)
        else if "Invalid repository type: " <= t then Some(RepositoryTypeRule)
        else None
      case 'M' => if "Missing required field: " <= t then Some(RequiredRule) else None
      case 'F' => if "Filename '" <= t then Some(StemRule) else None
      case 'D' =>
        if t == "Description exceeds 200 characters" then Some(DescriptionRule)
        else if t == "Dependency missing 'name' field" then Some(DependencyRule)
        else None
      case 'U' => if "Unknown license '" <= t then Some(LicenseRule) else None
      case 'R' => if t == "Repository must have 'type' and 'url' fields" then Some(RepositoryFieldsRule) else None
      case 'A' =>
        if t == "At least one version is required" then Some(VersionsRule)
        else if t == "At least one target must be specified" then Some(TargetsRule)
        else if t == "At least one maintainer is required" then Some(MaintainersRule)
        else None
      case 'V' =>
        if !("Version " <= t) then None
        else if EndsWith(t, ": cmake_options must be an object") then Some(CmakeOptionsRule)
        else if EndsWith(t, " missing required field: git_tag") || EndsWith(t, " missing required field: tested")
        then Some(VersionFieldRule)
        else None
      case 'd' => if "default_version '" <= t then Some(DefaultVersionRule) else None
      case _ => None
  }

  lemma PrefixOfAppend(prefix: string, rest: string)
    ensures prefix <= prefix + rest
  {
    assert (prefix + rest)[..|prefix|] == prefix;
  }

  lemma NotPrefix(p: string, t: string, i: nat)
    requires i < |p| && i < |t| && p[i] != t[i]
    ensures !(p <= t)
  {}

  lemma EndsWithAppend(prefix: string, suffix: string)
    ensures EndsWith(prefix + suffix, suffix)
  {
    assert (prefix + suffix)[|prefix|..] == suffix;
  }

  // The text of each check read back, one message form at a time.

  lemma InvalidJsonText(issue: Issue)
    requires issue.InvalidJson?
    ensures RuleOfText(Text(issue)) == Some(JsonRule)
  {
    PrefixOfAppend("Invalid JSON: ", issue.detail);
  }

  lemma MissingFieldText(issue: Issue)
    requires issue.MissingField?
    ensures RuleOfText(Text(issue)) == Some(RequiredRule)
  {
    PrefixOfAppend("Missing required field: ", issue.field);
  }

  lemma InvalidNameText(issue: Issue)
    requires issue.InvalidName?
    ensures RuleOfText(Text(issue)) == Some(NameRule)
  {
    PrefixOfAppend("Invalid name '", issue.name + Rest);
    NotPrefix("Invalid JSON: ", Text(issue), 8);
  }

  lemma StemMismatchText(issue: Issue)
    requires issue.StemMismatch?
    ensures RuleOfText(Text(issue)) == Some(StemRule)
  {
    PrefixOfAppend("Filename '", issue.stem + "' doesn't match package name '" + issue.name + "'");
  }

  lemma UnknownLicenseText(issue: Issue)
    requires issue.UnknownLicense?
    ensures RuleOfText(Text(issue)) == Some(LicenseRule)
  {
    PrefixOfAppend("Unknown license '", Str(issue.license) + "'. Use SPDX identifier.");
  }

  lemma InvalidRepositoryTypeText(issue: Issue)
    requires issue.InvalidRepositoryType?
    ensures RuleOfText(Text(issue)) == Some(RepositoryTypeRule)
  {
    var t := Text(issue);
    PrefixOfAppend("Invalid repository type: ", Str(issue.repoType));
    NotPrefix("Invalid JSON: ", t, 8);
    NotPrefix("Invalid name '", t, 8);
  }

  lemma VersionFieldMissingText(issue: Issue)
    requires issue.VersionFieldMissing? && issue.field in RequiredVersionFields
    ensures RuleOfText(Text(issue)) == Some(VersionFieldRule)
  {
    VersionFieldText(issue.version, issue.field);
  }

  lemma VersionFieldText(ver: string, field: string)
    requires field in RequiredVersionFields
    ensures RuleOfText("Version " + ver + " missing required field: " + field) == Some(VersionFieldRule)
  {
    var t := "Version " + ver + " missing required field: " + field;
    PrefixOfAppend("Version ", ver + " missing required field: " + field);
    EndsWithAppend("Version " + ver + " missing required field: ", field);
    assert t[|t| - 1] == field[|field| - 1] != "object"[5];
    if field == "git_tag" {
      assert EndsWith(t, " missing required field: git_tag");
    } else {
      assert EndsWith(t, " missing required field: tested");
    }
  }

  lemma CmakeOptionsText(issue: Issue)
    requires issue.CmakeOptionsNotObject?
    ensures RuleOfText(Text(issue)) == Some(CmakeOptionsRule)
  {
    PrefixOfAppend("Version ", issue.version + ": cmake_options must be an object");
    EndsWithAppend("Version " + issue.version, ": cmake_options must be an object");
  }

  lemma DefaultVersionText(issue: Issue)
    requires issue.DefaultVersionNotFound?
    ensures RuleOfText(Text(issue)) == Some(DefaultVersionRule)
  {
    PrefixOfAppend("default_version '", Str(issue.defaultVersion) + "' not found in versions");
  }

  /** The six messages without a value in them. */
  predicate FixedText(issue: Issue)
  {
    issue.DescriptionTooLong? || issue.RepositoryFieldsMissing? || issue.NoVersions?
    || issue.NoTargets? || issue.NoMaintainers? || issue.DependencyWithoutName?
  }

  lemma FixedTextShowsRule(issue: Issue)
    requires FixedText(issue)
    ensures RuleOfText(Text(issue)) == Some(RuleOf(issue))
  {
    FixedTexts();
  }

  lemma FixedTexts()
    ensures RuleOfText("Description exceeds 200 characters") == Some(DescriptionRule)
    ensures RuleOfText("Repository must have 'type' and 'url' fields") == Some(RepositoryFieldsRule)
    ensures RuleOfText("At least one version is required") == Some(VersionsRule)
    ensures RuleOfText("At least one target must be specified") == Some(TargetsRule)
    ensures RuleOfText("At least one maintainer is required") == Some(MaintainersRule)
    ensures RuleOfText("Dependency missing 'name' field") == Some(DependencyRule)
  {
    assert "Repository must have 'type' and 'url' fields"[0] == 'R';
  }

  /** Every message names its check: no two checks share a text, the
      version-field check given one of REQUIRED_VERSION_FIELDS. */
  lemma TextShowsRule(issue: Issue)
    requires issue.VersionFieldMissing? ==> issue.field in RequiredVersionFields
    ensures RuleOfText(Text(issue)) == Some(RuleOf(issue))
  {
    if FixedText(issue) {
      FixedTextShowsRule(issue);
    } else if issue.InvalidJson? {
      InvalidJsonText(issue);
    } else if issue.MissingField? {
      MissingFieldText(issue);
    } else if issue.InvalidName? {
      InvalidNameText(issue);
    } else if issue.StemMismatch? {
      StemMismatchText(issue);
    } else if issue.UnknownLicense? {
      UnknownLicenseText(issue);
    } else if issue.InvalidRepositoryType? {
      InvalidRepositoryTypeText(issue);
    } else if issue.VersionFieldMissing? {
      VersionFieldMissingText(issue);
    } else if issue.CmakeOptionsNotObject? {
      CmakeOptionsText(issue);
    } else {
      DefaultVersionText(issue);
    }
  }
}
