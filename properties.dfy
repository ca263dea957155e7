/** What the validator promises about its error list: which issues appear,
    how many of each, in what order, and when the list is empty. */
module Properties {
  import opened JsonValues
  import opened Rules
  import Messages

  // ---------------------------------------------------------------------
  // Counting issues by rule
  // ---------------------------------------------------------------------

  lemma {:induction false} CountAppend(a: seq<Issue>, b: seq<Issue>, r: Rule)
    ensures Count(a + b, r) == Count(a, r) + Count(b, r)
    decreases |b|
  {
    if b == [] {
      assert a + b == a;
    } else {
      assert (a + b)[..|a + b| - 1] == a + b[..|b| - 1];
      CountAppend(a, b[..|b| - 1], r);
    }
  }

  /** A list whose issues all come from rule `owner`. */
  lemma {:induction false} CountUniform(s: seq<Issue>, owner: Rule, r: Rule)
    requires forall x :: x in s ==> RuleOf(x) == owner
    ensures Count(s, r) == if r == owner then |s| else 0
  {
    if s != [] {
      assert forall x :: x in s[..|s| - 1] ==> x in s;
      CountUniform(s[..|s| - 1], owner, r);
    }
  }

  // ---------------------------------------------------------------------
  // Positions in a list of names
  // ---------------------------------------------------------------------

  predicate Distinct(fs: seq<string>)
  {
    forall i, j :: 0 <= i < j < |fs| ==> fs[i] != fs[j]
  }

  /** Where `f` first occurs in `fs`. */
  function IndexOf(fs: seq<string>, f: string): (i: nat)
    requires f in fs
    ensures i < |fs| && fs[i] == f
    ensures forall j :: 0 <= j < i ==> fs[j] != f
  {
    if fs[0] == f then 0 else 1 + IndexOf(fs[1..], f)
  }

  lemma IndexOfAt(fs: seq<string>, i: int)
    requires Distinct(fs) && 0 <= i < |fs|
    ensures IndexOf(fs, fs[i]) == i
  {
  }

  // ---------------------------------------------------------------------
  // Missing required fields
  // ---------------------------------------------------------------------

  /** The issues name fields of `fields`, in the order of `fields`, each
      field at most once. */
  predicate InFieldOrder(r: seq<Issue>, fields: seq<string>)
    requires forall x :: x in r ==> x.MissingField? && x.field in fields
  {
    forall p, q :: 0 <= p < q < |r| ==> IndexOf(fields, r[p].field) < IndexOf(fields, r[q].field)
  }

  lemma {:induction false} MissingFieldIssuesOrdered(doc: Json, fields: seq<string>)
    requires IsContainer(doc) && Distinct(fields)
    ensures InFieldOrder(MissingFieldIssues(doc, fields), fields)
  {
    if fields != [] {
      var init := fields[..|fields| - 1];
      var last := fields[|fields| - 1];
      MissingFieldIssuesOrdered(doc, init);
      AppendInFieldOrder(fields, MissingFieldIssues(doc, init), if PyIn(last, doc) then [] else [MissingField(last)]);
    }
  }

  /** Appending an issue about the last field to issues about the earlier
      fields keeps the field order. */
  lemma AppendInFieldOrder(fields: seq<string>, r0: seq<Issue>, e: seq<Issue>)
    requires Distinct(fields) && fields != []
    requires forall x :: x in r0 ==> x.MissingField? && x.field in fields[..|fields| - 1]
    requires InFieldOrder(r0, fields[..|fields| - 1])
    requires e == [] || e == [MissingField(fields[|fields| - 1])]
    ensures forall x :: x in r0 + e ==> x.MissingField? && x.field in fields
    ensures InFieldOrder(r0 + e, fields)
  {
    var n := |fields|;
    var init := fields[..n - 1];
    var r := r0 + e;
    forall x | x in r0
      ensures x.field in fields
      ensures IndexOf(fields, x.field) == IndexOf(init, x.field) < n - 1
    {
      var j := IndexOf(init, x.field);
      IndexOfAt(fields, j);
    }
    IndexOfAt(fields, n - 1);
    forall p, q | 0 <= p < q < |r|
      ensures IndexOf(fields, r[p].field) < IndexOf(fields, r[q].field)
    {
      assert r[p] == r0[p] && r[p] in r0;
      if q < |r0| {
        assert r[q] == r0[q] && r[q] in r0;
      }
    }
  }

  lemma RequiredFieldsDistinct()
    ensures Distinct(RequiredFields)
  {
  }

  /** When a required field is missing, the report holds one MissingField
      issue per missing field, in the order of the required fields, and
      nothing else: no other rule is checked. */
  lemma MissingFieldsOnly(stem: string, doc: Json)
    requires Admissible(Parsed(doc))
    requires !AllRequiredPresent(doc)
    ensures var r := Report(stem, Parsed(doc));
            && r != []
            && (forall x :: x in r ==> x.MissingField?)
            && (forall f :: MissingField(f) in r <==> f in RequiredFields && !PyIn(f, doc))
            && InFieldOrder(r, RequiredFields)
  {
    var f :| f in RequiredFields && !PyIn(f, doc);
    assert MissingField(f) in MissingFieldIssues(doc, RequiredFields);
    RequiredFieldsDistinct();
    MissingFieldIssuesOrdered(doc, RequiredFields);
  }

  /** With every required field present, the report is the content checks'. */
  lemma {:induction false} MissingFieldIssuesEmpty(doc: Json, fields: seq<string>)
    requires IsContainer(doc)
    ensures MissingFieldIssues(doc, fields) == [] <==> forall f :: f in fields ==> PyIn(f, doc)
  {
    if fields != [] {
      var init := fields[..|fields| - 1];
      MissingFieldIssuesEmpty(doc, init);
      assert forall f :: f in fields <==> f in init || f == fields[|fields| - 1];
    }
  }

  lemma ReportOfComplete(stem: string, doc: Json)
    requires Admissible(Parsed(doc)) && AllRequiredPresent(doc)
    ensures Report(stem, Parsed(doc)) == ContentIssues(stem, Extract(doc))
  {
    MissingFieldIssuesEmpty(doc, RequiredFields);
  }

  // ---------------------------------------------------------------------
  // Version entries
  // ---------------------------------------------------------------------

  /** The issues of one version entry: its missing `git_tag`, its missing
      `tested`, then a `cmake_options` that is not an object. */
  lemma EntryIssuesSpelledOut(ver: string, info: Json)
    requires EntryAdmissible(info)
    ensures EntryIssues(ver, info) ==
              (if !PyIn("git_tag", info) then [VersionFieldMissing(ver, "git_tag")] else [])
              + (if !PyIn("tested", info) then [VersionFieldMissing(ver, "tested")] else [])
              + (if CmakeOptionsBad(info) then [CmakeOptionsNotObject(ver)] else [])
  {
    var fs := RequiredVersionFields;
    assert fs[..1] == ["git_tag"] && fs[1] == "tested" && fs[..2] == fs;
    assert ["git_tag"][..0] == [];
    assert VersionFieldIssues(ver, info, ["git_tag"]) ==
             VersionFieldIssues(ver, info, []) + (if PyIn("git_tag", info) then [] else [VersionFieldMissing(ver, "git_tag")]);
    assert VersionFieldIssues(ver, info, fs) ==
             VersionFieldIssues(ver, info, ["git_tag"]) + (if PyIn("tested", info) then [] else [VersionFieldMissing(ver, "tested")]);
  }

  predicate CmakeOptionsBad(info: Json)
    requires EntryAdmissible(info)
  {
    PyIn("cmake_options", info) && !Field(info, "cmake_options").JObj?
  }

  predicate EntriesAdmissible(entries: seq<(string, Json)>)
  {
    forall i :: 0 <= i < |entries| ==> EntryAdmissible(entries[i].1)
  }

  /** The positions of `flags` that hold. */
  function TrueIndices(flags: seq<bool>): set<int>
  {
    set i | 0 <= i < |flags| && flags[i]
  }

  lemma TrueIndicesStep(flags: seq<bool>)
    requires flags != []
    ensures |TrueIndices(flags)| == |TrueIndices(flags[..|flags| - 1])| + (if flags[|flags| - 1] then 1 else 0)
  {
    var n := |flags|;
    var before := TrueIndices(flags[..n - 1]);
    if flags[n - 1] {
      assert TrueIndices(flags) == before + {n - 1};
    } else {
      assert TrueIndices(flags) == before;
    }
  }

  /** For each entry, whether it lacks field `f`. */
  function LacksField(entries: seq<(string, Json)>, f: string): (flags: seq<bool>)
    requires EntriesAdmissible(entries)
    ensures |flags| == |entries|
    ensures forall i :: 0 <= i < |entries| ==> flags[i] == !PyIn(f, entries[i].1)
  {
    seq(|entries|, i requires 0 <= i < |entries| => !PyIn(f, entries[i].1))
  }

  /** For each entry, whether its `cmake_options` is present but not an object. */
  function HasBadCmakeOptions(entries: seq<(string, Json)>): (flags: seq<bool>)
    requires EntriesAdmissible(entries)
    ensures |flags| == |entries|
    ensures forall i :: 0 <= i < |entries| ==> flags[i] == CmakeOptionsBad(entries[i].1)
  {
    seq(|entries|, i requires 0 <= i < |entries| => CmakeOptionsBad(entries[i].1))
  }

  /** The indices of the entries that lack field `f`. */
  function EntriesLacking(entries: seq<(string, Json)>, f: string): set<int>
    requires EntriesAdmissible(entries)
  {
    TrueIndices(LacksField(entries, f))
  }

  /** The indices of the entries whose `cmake_options` is not an object. */
  function BadCmakeEntries(entries: seq<(string, Json)>): set<int>
    requires EntriesAdmissible(entries)
  {
    TrueIndices(HasBadCmakeOptions(entries))
  }

  /** Appending an entry adds it to the entries lacking `f` exactly when it
      lacks `f`. */
  lemma LackingStep(entries: seq<(string, Json)>, f: string)
    requires EntriesAdmissible(entries) && entries != []
    ensures var init := entries[..|entries| - 1];
            |EntriesLacking(entries, f)| ==
              |EntriesLacking(init, f)| + (if PyIn(f, entries[|entries| - 1].1) then 0 else 1)
  {
    var flags := LacksField(entries, f);
    var init := entries[..|entries| - 1];
    assert LacksField(init, f) == flags[..|entries| - 1];
    TrueIndicesStep(flags);
  }

  /** Appending an entry adds it to the entries with a bad `cmake_options`
      exactly when its own is bad. */
  lemma BadCmakeStep(entries: seq<(string, Json)>)
    requires EntriesAdmissible(entries) && entries != []
    ensures var init := entries[..|entries| - 1];
            |BadCmakeEntries(entries)| ==
              |BadCmakeEntries(init)| + (if CmakeOptionsBad(entries[|entries| - 1].1) then 1 else 0)
  {
    var flags := HasBadCmakeOptions(entries);
    var init := entries[..|entries| - 1];
    assert HasBadCmakeOptions(init) == flags[..|entries| - 1];
    TrueIndicesStep(flags);
  }

  /** One version entry reports each missing required field once and a
      non-object `cmake_options` once. */
  lemma EntryCounts(ver: string, info: Json, r: Rule)
    requires EntryAdmissible(info)
    ensures Count(EntryIssues(ver, info), r) ==
              Once(!PyIn("git_tag", info), VersionFieldRule, r) + Once(!PyIn("tested", info), VersionFieldRule, r)
              + Once(CmakeOptionsBad(info), CmakeOptionsRule, r)
  {
    EntryIssuesSpelledOut(ver, info);
    var b1, b2, b3 := !PyIn("git_tag", info), !PyIn("tested", info), CmakeOptionsBad(info);
    var x1, x2, x3 := VersionFieldMissing(ver, "git_tag"), VersionFieldMissing(ver, "tested"), CmakeOptionsNotObject(ver);
    assert RuleOf(x1) == VersionFieldRule && RuleOf(x2) == VersionFieldRule && RuleOf(x3) == CmakeOptionsRule;
    CountSingles(b1, x1, b2, x2, b3, x3, r);
  }

  /** Three checks in a row, each reporting one issue when it fails. */
  lemma CountSingles(b1: bool, x1: Issue, b2: bool, x2: Issue, b3: bool, x3: Issue, r: Rule)
    ensures Count((if b1 then [x1] else []) + (if b2 then [x2] else []) + (if b3 then [x3] else []), r) ==
              Once(b1, RuleOf(x1), r) + Once(b2, RuleOf(x2), r) + Once(b3, RuleOf(x3), r)
  {
    var s1: seq<Issue> := if b1 then [x1] else [];
    var s2: seq<Issue> := if b2 then [x2] else [];
    var s3: seq<Issue> := if b3 then [x3] else [];
    CountAppend(s1, s2, r);
    CountAppend(s1 + s2, s3, r);
    SingleCount(b1, x1, r);
    SingleCount(b2, x2, r);
    SingleCount(b3, x3, r);
  }

  /** Version entries yield one issue per entry lacking `git_tag`, one per
      entry lacking `tested`, one per entry with a non-object
      `cmake_options`, and nothing else. */
  lemma {:induction false} EntriesCounts(entries: seq<(string, Json)>, r: Rule)
    requires EntriesAdmissible(entries)
    ensures Count(EntriesIssues(entries), r) ==
              Tally(|EntriesLacking(entries, "git_tag")| + |EntriesLacking(entries, "tested")|, VersionFieldRule, r)
              + Tally(|BadCmakeEntries(entries)|, CmakeOptionsRule, r)
  {
    if entries != [] {
      var n := |entries|;
      var init := entries[..n - 1];
      var ver := entries[n - 1].0;
      var info := entries[n - 1].1;
      EntriesCounts(init, r);
      CountAppend(EntriesIssues(init), EntryIssues(ver, info), r);
      EntryCounts(ver, info, r);
      LackingStep(entries, "git_tag");
      LackingStep(entries, "tested");
      BadCmakeStep(entries);
    }
  }

  /** The version an issue of a version entry is about. */
  function VersionOf(x: Issue): string
    requires x.VersionFieldMissing? || x.CmakeOptionsNotObject?
  {
    x.version
  }

  lemma KeyIndexAt(entries: seq<(string, Json)>, i: int)
    requires DistinctKeys(entries) && 0 <= i < |entries|
    ensures KeyIndex(entries, entries[i].0) == i
  {
    KeyIndexFirst(entries, entries[i].0, i);
  }

  predicate IsEntryIssue(x: Issue)
  {
    x.VersionFieldMissing? || x.CmakeOptionsNotObject?
  }

  /** Where an issue stands within its entry: git_tag, tested,
      cmake_options. */
  function Offset(x: Issue): nat
    requires IsEntryIssue(x)
  {
    if x.CmakeOptionsNotObject? then 2 else if x.field == "git_tag" then 0 else 1
  }

  /** Where an issue of a version entry stands: the index of its entry, then
      its place within the entry. */
  function EntryPosition(entries: seq<(string, Json)>, x: Issue): int
    requires IsEntryIssue(x)
  {
    3 * KeyIndex(entries, VersionOf(x)) + Offset(x)
  }

  /** Every issue is about one of the entries. */
  predicate AboutEntries(entries: seq<(string, Json)>, r: seq<Issue>)
  {
    forall x :: x in r ==> IsEntryIssue(x) && KeyIndex(entries, VersionOf(x)) < |entries|
  }

  /** The issues come entry after entry, and within an entry git_tag,
      tested, cmake_options, none of them twice. */
  predicate InEntryOrder(entries: seq<(string, Json)>, r: seq<Issue>)
    requires forall x :: x in r ==> IsEntryIssue(x)
  {
    forall p, q :: 0 <= p < q < |r| ==> EntryPosition(entries, r[p]) < EntryPosition(entries, r[q])
  }

  /** The issues of one entry are about that entry, in the order git_tag,
      tested, cmake_options. */
  lemma EntryOrdered(ver: string, info: Json)
    requires EntryAdmissible(info)
    ensures forall x :: x in EntryIssues(ver, info) ==> IsEntryIssue(x) && VersionOf(x) == ver
    ensures var e := EntryIssues(ver, info);
            forall p, q :: 0 <= p < q < |e| ==> Offset(e[p]) < Offset(e[q])
  {
    EntryIssuesSpelledOut(ver, info);
  }

  lemma KeyIndexPrefix(entries: seq<(string, Json)>, k: string)
    requires entries != [] && KeyIndex(entries[..|entries| - 1], k) < |entries| - 1
    ensures KeyIndex(entries, k) == KeyIndex(entries[..|entries| - 1], k)
  {
    var init := entries[..|entries| - 1];
    var i := KeyIndex(init, k);
    var j := KeyIndex(entries, k);
    assert init[i] == entries[i];
    KeyIndexFirst(entries, k, i);
    if j < i {
      assert init[j] == entries[j];
      KeyIndexFirst(init, k, j);
    }
  }

  /** Appending the issues of the last entry to those of the earlier ones
      keeps the entry order. */
  lemma AppendEntryIssues(entries: seq<(string, Json)>, r0: seq<Issue>, e: seq<Issue>)
    requires DistinctKeys(entries) && entries != []
    requires AboutEntries(entries[..|entries| - 1], r0) && InEntryOrder(entries[..|entries| - 1], r0)
    requires forall x :: x in e ==> IsEntryIssue(x) && VersionOf(x) == entries[|entries| - 1].0
    requires forall p, q :: 0 <= p < q < |e| ==> Offset(e[p]) < Offset(e[q])
    ensures AboutEntries(entries, r0 + e) && InEntryOrder(entries, r0 + e)
  {
    var n := |entries|;
    var init := entries[..n - 1];
    var r := r0 + e;
    forall x | x in r0
      ensures KeyIndex(entries, VersionOf(x)) == KeyIndex(init, VersionOf(x)) < n - 1
    {
      KeyIndexPrefix(entries, VersionOf(x));
    }
    KeyIndexAt(entries, n - 1);
    forall p, q | 0 <= p < q < |r|
      ensures EntryPosition(entries, r[p]) < EntryPosition(entries, r[q])
    {
      if q < |r0| {
        assert r[p] == r0[p] && r[q] == r0[q];
        assert r0[p] in r0 && r0[q] in r0;
      } else if p < |r0| {
        assert r[p] in r0 && r[q] == e[q - |r0|];
      } else {
        assert r[p] == e[p - |r0|] && r[q] == e[q - |r0|];
      }
    }
  }

  /** The issues of the version entries come in the order of the `versions`
      mapping, and each one is about one of its entries. */
  lemma {:induction false} EntriesOrdered(entries: seq<(string, Json)>)
    requires EntriesAdmissible(entries) && DistinctKeys(entries)
    ensures AboutEntries(entries, EntriesIssues(entries))
    ensures InEntryOrder(entries, EntriesIssues(entries))
  {
    if entries != [] {
      var n := |entries|;
      var init := entries[..n - 1];
      EntriesOrdered(init);
      EntryOrdered(entries[n - 1].0, entries[n - 1].1);
      AppendEntryIssues(entries, EntriesIssues(init), EntryIssues(entries[n - 1].0, entries[n - 1].1));
    }
  }

  /** In a decoded document the issues of the version entries come entry
      after entry in the order of `versions`. */
  lemma VersionsOrdered(doc: Json)
    requires Admissible(Parsed(doc)) && AllRequiredPresent(doc)
    ensures var entries := Extract(doc).versions.members;
            AboutEntries(entries, EntriesIssues(entries)) && InEntryOrder(entries, EntriesIssues(entries))
  {
    var k := KeyIndex(doc.members, "versions");
    assert Decoded(doc.members[k].1);
    EntriesOrdered(Extract(doc).versions.members);
  }

  // ---------------------------------------------------------------------
  // Dependencies
  // ---------------------------------------------------------------------

  /** For each dependency, whether it lacks `name`. */
  function LacksName(deps: seq<Json>): (flags: seq<bool>)
    requires forall x :: x in deps ==> IsContainer(x)
    ensures |flags| == |deps|
    ensures forall i :: 0 <= i < |deps| ==> flags[i] == !PyIn("name", deps[i])
  {
    seq(|deps|, i requires 0 <= i < |deps| => !PyIn("name", deps[i]))
  }

  /** The indices of the dependencies that have no `name`. */
  function NamelessIndices(deps: seq<Json>): set<int>
    requires forall x :: x in deps ==> IsContainer(x)
  {
    TrueIndices(LacksName(deps))
  }

  lemma {:induction false} NamelessCount(deps: seq<Json>)
    requires forall x :: x in deps ==> IsContainer(x)
    ensures |NamelessIssues(deps)| == |NamelessIndices(deps)|
    ensures forall x :: x in NamelessIssues(deps) ==> x == DependencyWithoutName
  {
    if deps != [] {
      var n := |deps|;
      var init := deps[..n - 1];
      assert forall x :: x in init ==> x in deps;
      NamelessCount(init);
      assert LacksName(init) == LacksName(deps)[..n - 1];
      TrueIndicesStep(LacksName(deps));
      assert NamelessIssues(deps) == NamelessIssues(init) + (if PyIn("name", deps[n - 1]) then [] else [DependencyWithoutName]);
    }
  }

  // ---------------------------------------------------------------------
  // How many issues each rule contributes
  // ---------------------------------------------------------------------

  /** A check that reports one issue of rule `owner` when it fails: its
      share of the issues of rule `r`. */
  function Once(failed: bool, owner: Rule, r: Rule): nat
  {
    if failed && r == owner then 1 else 0
  }

  /** A check that reports `n` issues of rule `owner`: its share of the
      issues of rule `r`. */
  function Tally(n: nat, owner: Rule, r: Rule): nat
  {
    if r == owner then n else 0
  }

  /** The number of issues of rule `r` for a document that has every
      required field: each single check contributes one issue of its own
      rule when it fails; the entry checks contribute one per entry lacking
      `git_tag`, one per entry lacking `tested` and one per entry with a
      non-object `cmake_options`; the dependency check one per dependency
      without a name. */
  function ExpectedCount(stem: string, p: Package, r: Rule): nat
    requires PackageAdmissible(p)
  {
    var repo := p.repository;
    var entries := p.versions.members;
    Once(!NamePattern(p.name), NameRule, r)
    + Once(stem != p.name, StemRule, r)
    + Once(Len(p.description) > MaxDescriptionLength, DescriptionRule, r)
    + Once(!LicenseKnown(p.license), LicenseRule, r)
    + Once(!RepositoryHasFields(repo), RepositoryFieldsRule, r)
    + Once(RepositoryHasFields(repo) && !RepositoryTypeKnown(Field(repo, "type")), RepositoryTypeRule, r)
    + Once(Falsy(p.versions), VersionsRule, r)
    + Tally(|EntriesLacking(entries, "git_tag")| + |EntriesLacking(entries, "tested")|, VersionFieldRule, r)
    + Tally(|BadCmakeEntries(entries)|, CmakeOptionsRule, r)
    + Once(!DefaultVersionKnown(p.defaultVersion, p.versions), DefaultVersionRule, r)
    + Once(Falsy(p.targets), TargetsRule, r)
    + Once(Falsy(p.maintainers), MaintainersRule, r)
    + Tally(|NamelessIndices(p.dependencies)|, DependencyRule, r)
  }

  /** For a document with every required field, each rule contributes
      exactly the issues ExpectedCount says. */
  lemma RuleCounts(stem: string, doc: Json, r: Rule)
    requires Admissible(Parsed(doc)) && AllRequiredPresent(doc)
    ensures Count(Report(stem, Parsed(doc)), r) == ExpectedCount(stem, Extract(doc), r)
  {
    ReportOfComplete(stem, doc);
    ContentCounts(stem, Extract(doc), r);
  }

  lemma ContentCounts(stem: string, p: Package, r: Rule)
    requires PackageAdmissible(p)
    ensures Count(ContentIssues(stem, p), r) == ExpectedCount(stem, p, r)
  {
    CountSum(NameIssues(p.name), StemIssues(stem, p.name), DescriptionIssues(p.description),
             LicenseIssues(p.license), RepositoryIssues(p.repository), VersionIssues(p.versions),
             DefaultVersionIssues(p.defaultVersion, p.versions), TargetIssues(p.targets),
             MaintainerIssues(p.maintainers), NamelessIssues(p.dependencies), r);
    CheckShares(stem, p, r);
  }

  /** The issues of rule `r` that the checks report one after the other add
      up to ExpectedCount. */
  lemma CheckShares(stem: string, p: Package, r: Rule)
    requires PackageAdmissible(p)
    ensures Count(NameIssues(p.name), r) + Count(StemIssues(stem, p.name), r)
            + Count(DescriptionIssues(p.description), r) + Count(LicenseIssues(p.license), r)
            + Count(RepositoryIssues(p.repository), r) + Count(VersionIssues(p.versions), r)
            + Count(DefaultVersionIssues(p.defaultVersion, p.versions), r) + Count(TargetIssues(p.targets), r)
            + Count(MaintainerIssues(p.maintainers), r) + Count(NamelessIssues(p.dependencies), r)
            == ExpectedCount(stem, p, r)
  {
    NameCount(p.name, r);
    StemCount(stem, p.name, r);
    DescriptionCount(p.description, r);
    LicenseCount(p.license, r);
    RepositoryCount(p.repository, r);
    VersionCount(p.versions, r);
    DefaultVersionCount(p.defaultVersion, p.versions, r);
    TargetsCount(p.targets, r);
    MaintainersCount(p.maintainers, r);
    DependencyCount(p.dependencies, r);
  }

  /** A check that reports one issue when `failed`. */
  lemma SingleCount(failed: bool, x: Issue, r: Rule)
    ensures Count(if failed then [x] else [], r) == Once(failed, RuleOf(x), r)
  {
    if failed {
      assert [x][..0] == [];
    }
  }

  lemma NameCount(name: string, r: Rule)
    ensures Count(NameIssues(name), r) == Once(!NamePattern(name), NameRule, r)
  {
    SingleCount(!NamePattern(name), InvalidName(name), r);
  }

  lemma StemCount(stem: string, name: string, r: Rule)
    ensures Count(StemIssues(stem, name), r) == Once(stem != name, StemRule, r)
  {
    SingleCount(stem != name, StemMismatch(stem, name), r);
  }

  lemma DescriptionCount(description: Json, r: Rule)
    requires IsContainer(description)
    ensures Count(DescriptionIssues(description), r) ==
              Once(Len(description) > MaxDescriptionLength, DescriptionRule, r)
  {
    SingleCount(Len(description) > MaxDescriptionLength, DescriptionTooLong, r);
  }

  lemma LicenseCount(license: Json, r: Rule)
    ensures Count(LicenseIssues(license), r) == Once(!LicenseKnown(license), LicenseRule, r)
  {
    SingleCount(!LicenseKnown(license), UnknownLicense(license), r);
  }

  lemma DefaultVersionCount(defaultVersion: Json, versions: Json, r: Rule)
    requires versions.JObj?
    ensures Count(DefaultVersionIssues(defaultVersion, versions), r) ==
              Once(!DefaultVersionKnown(defaultVersion, versions), DefaultVersionRule, r)
  {
    SingleCount(!DefaultVersionKnown(defaultVersion, versions), DefaultVersionNotFound(defaultVersion), r);
  }

  lemma TargetsCount(targets: Json, r: Rule)
    ensures Count(TargetIssues(targets), r) == Once(Falsy(targets), TargetsRule, r)
  {
    SingleCount(Falsy(targets), NoTargets, r);
  }

  lemma MaintainersCount(maintainers: Json, r: Rule)
    ensures Count(MaintainerIssues(maintainers), r) == Once(Falsy(maintainers), MaintainersRule, r)
  {
    SingleCount(Falsy(maintainers), NoMaintainers, r);
  }

  lemma CountSum(a1: seq<Issue>, a2: seq<Issue>, a3: seq<Issue>, a4: seq<Issue>, a5: seq<Issue>,
                 a6: seq<Issue>, a7: seq<Issue>, a8: seq<Issue>, a9: seq<Issue>, a10: seq<Issue>, r: Rule)
    ensures Count(a1 + a2 + a3 + a4 + a5 + a6 + a7 + a8 + a9 + a10, r) ==
              Count(a1, r) + Count(a2, r) + Count(a3, r) + Count(a4, r) + Count(a5, r)
              + Count(a6, r) + Count(a7, r) + Count(a8, r) + Count(a9, r) + Count(a10, r)
  {
    CountAppend(a1, a2, r);
    CountAppend(a1 + a2, a3, r);
    CountAppend(a1 + a2 + a3, a4, r);
    CountAppend(a1 + a2 + a3 + a4, a5, r);
    CountAppend(a1 + a2 + a3 + a4 + a5, a6, r);
    CountAppend(a1 + a2 + a3 + a4 + a5 + a6, a7, r);
    CountAppend(a1 + a2 + a3 + a4 + a5 + a6 + a7, a8, r);
    CountAppend(a1 + a2 + a3 + a4 + a5 + a6 + a7 + a8, a9, r);
    CountAppend(a1 + a2 + a3 + a4 + a5 + a6 + a7 + a8 + a9, a10, r);
  }

  /** The repository check reports a missing `type` or `url`, or else an
      unknown type, never both. */
  lemma RepositoryCount(repo: Json, r: Rule)
    requires RepositoryAdmissible(repo)
    ensures Count(RepositoryIssues(repo), r) ==
              Once(!RepositoryHasFields(repo), RepositoryFieldsRule, r)
              + Once(RepositoryHasFields(repo) && !RepositoryTypeKnown(Field(repo, "type")), RepositoryTypeRule, r)
  {
    if RepositoryHasFields(repo) {
      CountUniform(RepositoryIssues(repo), RepositoryTypeRule, r);
    } else {
      CountUniform(RepositoryIssues(repo), RepositoryFieldsRule, r);
    }
  }

  lemma VersionCount(versions: Json, r: Rule)
    requires VersionsAdmissible(versions)
    ensures Count(VersionIssues(versions), r) ==
              Once(Falsy(versions), VersionsRule, r)
              + Tally(|EntriesLacking(versions.members, "git_tag")| + |EntriesLacking(versions.members, "tested")|,
                      VersionFieldRule, r)
              + Tally(|BadCmakeEntries(versions.members)|, CmakeOptionsRule, r)
  {
    var noVersions := if Falsy(versions) then [NoVersions] else [];
    CountAppend(noVersions, EntriesIssues(versions.members), r);
    SingleCount(Falsy(versions), NoVersions, r);
    EntriesCounts(versions.members, r);
  }

  lemma DependencyCount(deps: seq<Json>, r: Rule)
    requires forall x :: x in deps ==> IsContainer(x)
    ensures Count(NamelessIssues(deps), r) == Tally(|NamelessIndices(deps)|, DependencyRule, r)
  {
    NamelessCount(deps);
    CountUniform(NamelessIssues(deps), DependencyRule, r);
  }

  /** The name rule and the file-stem rule are independent: each reports at
      most once, the first exactly when the name does not match
      `^[a-z][a-z0-9_]*$`, the second exactly when the stem differs. */
  lemma NameAndStem(stem: string, doc: Json)
    requires Admissible(Parsed(doc)) && AllRequiredPresent(doc)
    ensures var r := Report(stem, Parsed(doc));
            var name := Extract(doc).name;
            && Count(r, NameRule) == (if NamePattern(name) then 0 else 1)
            && Count(r, StemRule) == (if stem == name then 0 else 1)
  {
    ReportOfComplete(stem, doc);
    NameAndStemContent(stem, Extract(doc));
  }

  lemma NameAndStemContent(stem: string, p: Package)
    requires PackageAdmissible(p)
    ensures var r := ContentIssues(stem, p);
            && Count(r, NameRule) == (if NamePattern(p.name) then 0 else 1)
            && Count(r, StemRule) == (if stem == p.name then 0 else 1)
  {
    ContentCounts(stem, p, NameRule);
    ContentCounts(stem, p, StemRule);
  }

  /** The repository rules report at most once; an unknown type is reported
      only when both `type` and `url` are present. */
  lemma RepositoryAtMostOnce(stem: string, doc: Json)
    requires Admissible(Parsed(doc)) && AllRequiredPresent(doc)
    ensures var r := Report(stem, Parsed(doc));
            var repo := Extract(doc).repository;
            && Count(r, RepositoryFieldsRule) + Count(r, RepositoryTypeRule) <= 1
            && (Count(r, RepositoryFieldsRule) == 0 <==> RepositoryHasFields(repo))
            && (Count(r, RepositoryTypeRule) == 1 <==>
                  RepositoryHasFields(repo) && !RepositoryTypeKnown(Field(repo, "type")))
  {
    ReportOfComplete(stem, doc);
    RepositoryContent(stem, Extract(doc));
  }

  lemma RepositoryContent(stem: string, p: Package)
    requires PackageAdmissible(p)
    ensures var r := ContentIssues(stem, p);
            && Count(r, RepositoryFieldsRule) + Count(r, RepositoryTypeRule) <= 1
            && (Count(r, RepositoryFieldsRule) == 0 <==> RepositoryHasFields(p.repository))
            && (Count(r, RepositoryTypeRule) == 1 <==>
                  RepositoryHasFields(p.repository) && !RepositoryTypeKnown(Field(p.repository, "type")))
  {
    ContentCounts(stem, p, RepositoryFieldsRule);
    ContentCounts(stem, p, RepositoryTypeRule);
  }

  /** An empty `versions` mapping yields both the missing-version issue and
      the unknown-default issue; a default that is a key of `versions` yields
      neither. */
  lemma EmptyVersions(stem: string, doc: Json)
    requires Admissible(Parsed(doc)) && AllRequiredPresent(doc)
    requires Extract(doc).versions.members == []
    ensures var r := Report(stem, Parsed(doc));
            && NoVersions in r
            && DefaultVersionNotFound(Extract(doc).defaultVersion) in r
  {
    ReportOfComplete(stem, doc);
    EmptyVersionsContent(stem, Extract(doc));
  }

  lemma EmptyVersionsContent(stem: string, p: Package)
    requires PackageAdmissible(p) && p.versions.members == []
    ensures NoVersions in ContentIssues(stem, p)
    ensures DefaultVersionNotFound(p.defaultVersion) in ContentIssues(stem, p)
  {
    assert NoVersions in VersionIssues(p.versions);
    assert DefaultVersionIssues(p.defaultVersion, p.versions) == [DefaultVersionNotFound(p.defaultVersion)];
  }

  lemma DefaultVersionListed(stem: string, doc: Json)
    requires Admissible(Parsed(doc)) && AllRequiredPresent(doc)
    requires var p := Extract(doc);
             p.defaultVersion.JStr? && IsKey(p.versions.members, p.defaultVersion.s)
    ensures var r := Report(stem, Parsed(doc));
            Count(r, VersionsRule) == 0 && Count(r, DefaultVersionRule) == 0
  {
    ReportOfComplete(stem, doc);
    DefaultVersionListedContent(stem, Extract(doc));
  }

  lemma DefaultVersionListedContent(stem: string, p: Package)
    requires PackageAdmissible(p)
    requires p.defaultVersion.JStr? && IsKey(p.versions.members, p.defaultVersion.s)
    ensures var r := ContentIssues(stem, p);
            Count(r, VersionsRule) == 0 && Count(r, DefaultVersionRule) == 0
  {
    assert !Falsy(p.versions);
    ContentCounts(stem, p, VersionsRule);
    ContentCounts(stem, p, DefaultVersionRule);
  }

  /** A description longer than 200 characters and a license outside
      VALID_LICENSES each yield exactly one issue, and otherwise none. */
  lemma DescriptionAndLicense(stem: string, doc: Json)
    requires Admissible(Parsed(doc)) && AllRequiredPresent(doc)
    ensures var r := Report(stem, Parsed(doc));
            var p := Extract(doc);
            && Count(r, DescriptionRule) == (if Len(p.description) > MaxDescriptionLength then 1 else 0)
            && Count(r, LicenseRule) == (if LicenseKnown(p.license) then 0 else 1)
  {
    ReportOfComplete(stem, doc);
    DescriptionAndLicenseContent(stem, Extract(doc));
  }

  lemma DescriptionAndLicenseContent(stem: string, p: Package)
    requires PackageAdmissible(p)
    ensures var r := ContentIssues(stem, p);
            && Count(r, DescriptionRule) == (if Len(p.description) > MaxDescriptionLength then 1 else 0)
            && Count(r, LicenseRule) == (if LicenseKnown(p.license) then 0 else 1)
  {
    ContentCounts(stem, p, DescriptionRule);
    ContentCounts(stem, p, LicenseRule);
  }

  /** Falsy `targets` and falsy `maintainers` each yield exactly one issue,
      and otherwise none. */
  lemma TargetsAndMaintainers(stem: string, doc: Json)
    requires Admissible(Parsed(doc)) && AllRequiredPresent(doc)
    ensures var r := Report(stem, Parsed(doc));
            var p := Extract(doc);
            && Count(r, TargetsRule) == (if Falsy(p.targets) then 1 else 0)
            && Count(r, MaintainersRule) == (if Falsy(p.maintainers) then 1 else 0)
  {
    ReportOfComplete(stem, doc);
    TargetsAndMaintainersContent(stem, Extract(doc));
  }

  lemma TargetsAndMaintainersContent(stem: string, p: Package)
    requires PackageAdmissible(p)
    ensures var r := ContentIssues(stem, p);
            && Count(r, TargetsRule) == (if Falsy(p.targets) then 1 else 0)
            && Count(r, MaintainersRule) == (if Falsy(p.maintainers) then 1 else 0)
  {
    TargetsContent(stem, p);
    MaintainersContent(stem, p);
  }

  lemma TargetsContent(stem: string, p: Package)
    requires PackageAdmissible(p)
    ensures Count(ContentIssues(stem, p), TargetsRule) == Once(Falsy(p.targets), TargetsRule, TargetsRule)
  {
    ContentCounts(stem, p, TargetsRule);
  }

  lemma MaintainersContent(stem: string, p: Package)
    requires PackageAdmissible(p)
    ensures Count(ContentIssues(stem, p), MaintainersRule) == Once(Falsy(p.maintainers), MaintainersRule, MaintainersRule)
  {
    ContentCounts(stem, p, MaintainersRule);
  }

  /** Every dependency without a `name` yields one issue; an absent
      `dependencies` field yields none. */
  lemma Dependencies(stem: string, doc: Json)
    requires Admissible(Parsed(doc)) && AllRequiredPresent(doc)
    ensures var r := Report(stem, Parsed(doc));
            && Count(r, DependencyRule) == |NamelessIndices(Extract(doc).dependencies)|
            && (!PyIn("dependencies", doc) ==> Count(r, DependencyRule) == 0)
  {
    ReportOfComplete(stem, doc);
    DependenciesContent(stem, Extract(doc));
  }

  lemma DependenciesContent(stem: string, p: Package)
    requires PackageAdmissible(p)
    ensures Count(ContentIssues(stem, p), DependencyRule) == |NamelessIndices(p.dependencies)|
  {
    ContentCounts(stem, p, DependencyRule);
  }

  /** The version entries yield one issue per entry lacking `git_tag`, one
      per entry lacking `tested` and one per entry whose `cmake_options` is
      not an object. */
  lemma VersionEntryCounts(stem: string, doc: Json)
    requires Admissible(Parsed(doc)) && AllRequiredPresent(doc)
    ensures var r := Report(stem, Parsed(doc));
            var entries := Extract(doc).versions.members;
            && Count(r, VersionFieldRule) == |EntriesLacking(entries, "git_tag")| + |EntriesLacking(entries, "tested")|
            && Count(r, CmakeOptionsRule) == |BadCmakeEntries(entries)|
  {
    ReportOfComplete(stem, doc);
    VersionEntryCountsContent(stem, Extract(doc));
  }

  lemma VersionEntryCountsContent(stem: string, p: Package)
    requires PackageAdmissible(p)
    ensures var r := ContentIssues(stem, p);
            var entries := p.versions.members;
            && Count(r, VersionFieldRule) == |EntriesLacking(entries, "git_tag")| + |EntriesLacking(entries, "tested")|
            && Count(r, CmakeOptionsRule) == |BadCmakeEntries(entries)|
  {
    ContentCounts(stem, p, VersionFieldRule);
    ContentCounts(stem, p, CmakeOptionsRule);
  }

  // ---------------------------------------------------------------------
  // The message texts of a report
  // ---------------------------------------------------------------------

  /** Every version-field issue names one of REQUIRED_VERSION_FIELDS. */
  predicate KnownVersionFields(issues: seq<Issue>)
  {
    forall x :: x in issues && x.VersionFieldMissing? ==> x.field in RequiredVersionFields
  }

  lemma {:induction false} VersionFieldIssuesNamed(ver: string, info: Json, fields: seq<string>)
    requires IsContainer(info)
    ensures forall x :: x in VersionFieldIssues(ver, info, fields) ==> x.VersionFieldMissing? && x.field in fields
  {
    if fields != [] {
      VersionFieldIssuesNamed(ver, info, fields[..|fields| - 1]);
    }
  }

  lemma {:induction false} EntriesIssuesKnown(entries: seq<(string, Json)>)
    requires forall i :: 0 <= i < |entries| ==> EntryAdmissible(entries[i].1)
    ensures KnownVersionFields(EntriesIssues(entries))
  {
    if entries != [] {
      var last := entries[|entries| - 1];
      EntriesIssuesKnown(entries[..|entries| - 1]);
      VersionFieldIssuesNamed(last.0, last.1, RequiredVersionFields);
    }
  }

  lemma KnownAppend(a: seq<Issue>, b: seq<Issue>)
    requires KnownVersionFields(a) && KnownVersionFields(b)
    ensures KnownVersionFields(a + b)
  {
    forall x | x in a + b && x.VersionFieldMissing?
      ensures x.field in RequiredVersionFields
    {
      assert x in a || x in b;
    }
  }

  lemma ContentKnownVersionFields(stem: string, p: Package)
    requires PackageAdmissible(p)
    ensures KnownVersionFields(ContentIssues(stem, p))
  {
    var c := NameIssues(p.name) + StemIssues(stem, p.name) + DescriptionIssues(p.description)
      + LicenseIssues(p.license) + RepositoryIssues(p.repository);
    EntriesIssuesKnown(p.versions.members);
    KnownAppend(if Falsy(p.versions) then [NoVersions] else [], EntriesIssues(p.versions.members));
    KnownAppend(c, VersionIssues(p.versions));
    c := c + VersionIssues(p.versions);
    KnownAppend(c, DefaultVersionIssues(p.defaultVersion, p.versions));
    c := c + DefaultVersionIssues(p.defaultVersion, p.versions);
    KnownAppend(c, TargetIssues(p.targets));
    c := c + TargetIssues(p.targets);
    KnownAppend(c, MaintainerIssues(p.maintainers));
    c := c + MaintainerIssues(p.maintainers);
    NamelessCount(p.dependencies);
    KnownAppend(c, NamelessIssues(p.dependencies));
  }

  lemma ReportKnownVersionFields(stem: string, input: Input)
    requires Admissible(input)
    ensures KnownVersionFields(Report(stem, input))
  {
    if input.Parsed? && MissingFieldIssues(input.doc, RequiredFields) == [] {
      ContentKnownVersionFields(stem, Extract(input.doc));
    }
  }

  /** The i-th message validate_package returns is the text of the i-th
      issue of the report, and that text names the check that produced it. */
  lemma ReportTexts(stem: string, input: Input)
    requires Admissible(input)
    ensures var issues := Report(stem, input);
            forall i :: 0 <= i < |issues| ==>
              Messages.RuleOfText(Messages.Texts(issues)[i]) == Messages.Some(RuleOf(issues[i]))
  {
    var issues := Report(stem, input);
    ReportKnownVersionFields(stem, input);
    forall i | 0 <= i < |issues|
      ensures Messages.RuleOfText(Messages.Texts(issues)[i]) == Messages.Some(RuleOf(issues[i]))
    {
      assert issues[i] in issues;
      Messages.TextShowsRule(issues[i]);
    }
  }

  // ---------------------------------------------------------------------
  // Empty report and the registry
  // ---------------------------------------------------------------------

  lemma {:induction false} VersionFieldIssuesEmpty(ver: string, info: Json, fields: seq<string>)
    requires IsContainer(info)
    ensures VersionFieldIssues(ver, info, fields) == [] <==> forall f :: f in fields ==> PyIn(f, info)
  {
    if fields != [] {
      var init := fields[..|fields| - 1];
      VersionFieldIssuesEmpty(ver, info, init);
      assert forall f :: f in fields <==> f in init || f == fields[|fields| - 1];
    }
  }

  lemma {:induction false} EntriesIssuesEmpty(entries: seq<(string, Json)>)
    requires EntriesAdmissible(entries)
    ensures EntriesIssues(entries) == [] <==> forall i :: 0 <= i < |entries| ==> EntryOk(entries[i].1)
  {
    if entries != [] {
      var n := |entries|;
      var init := entries[..n - 1];
      EntriesIssuesEmpty(init);
      VersionFieldIssuesEmpty(entries[n - 1].0, entries[n - 1].1, RequiredVersionFields);
      assert forall i :: 0 <= i < n - 1 ==> init[i] == entries[i];
    }
  }

  lemma {:induction false} NamelessIssuesEmpty(deps: seq<Json>)
    requires forall x :: x in deps ==> IsContainer(x)
    ensures NamelessIssues(deps) == [] <==> forall x :: x in deps ==> PyIn("name", x)
  {
    if deps != [] {
      var init := deps[..|deps| - 1];
      assert forall x :: x in deps <==> x in init || x == deps[|deps| - 1];
      NamelessIssuesEmpty(init);
    }
  }

  /** validate_package only appends, so its list is empty exactly when the
      file decoded and every rule holds. */
  lemma ReportEmptyIff(stem: string, input: Input)
    requires Admissible(input)
    ensures Report(stem, input) == [] <==> input.Parsed? && Passes(stem, input.doc)
  {
    if input.Parsed? {
      var doc := input.doc;
      if AllRequiredPresent(doc) {
        ReportOfComplete(stem, doc);
        ContentEmptyIff(stem, Extract(doc));
      } else {
        MissingFieldsOnly(stem, doc);
      }
    }
  }

  lemma ContentEmptyIff(stem: string, p: Package)
    requires PackageAdmissible(p)
    ensures ContentIssues(stem, p) == [] <==> ContentPasses(stem, p)
  {
    ConcatEmpty(NameIssues(p.name), StemIssues(stem, p.name), DescriptionIssues(p.description),
                LicenseIssues(p.license), RepositoryIssues(p.repository), VersionIssues(p.versions),
                DefaultVersionIssues(p.defaultVersion, p.versions), TargetIssues(p.targets),
                MaintainerIssues(p.maintainers), NamelessIssues(p.dependencies));
    VersionIssuesEmpty(p.versions);
    NamelessIssuesEmpty(p.dependencies);
  }

  lemma ConcatEmpty(a1: seq<Issue>, a2: seq<Issue>, a3: seq<Issue>, a4: seq<Issue>, a5: seq<Issue>,
                    a6: seq<Issue>, a7: seq<Issue>, a8: seq<Issue>, a9: seq<Issue>, a10: seq<Issue>)
    ensures a1 + a2 + a3 + a4 + a5 + a6 + a7 + a8 + a9 + a10 == [] <==>
              a1 == [] && a2 == [] && a3 == [] && a4 == [] && a5 == []
              && a6 == [] && a7 == [] && a8 == [] && a9 == [] && a10 == []
  {
    assert |a1 + a2 + a3 + a4 + a5 + a6 + a7 + a8 + a9 + a10| ==
             |a1| + |a2| + |a3| + |a4| + |a5| + |a6| + |a7| + |a8| + |a9| + |a10|;
  }

  lemma VersionIssuesEmpty(versions: Json)
    requires VersionsAdmissible(versions)
    ensures VersionIssues(versions) == [] <==> VersionsOk(versions)
  {
    EntriesIssuesEmpty(versions.members);
  }

  /** A stem is a key of the gathered result exactly when some report with
      that stem is non-empty. */
  lemma {:induction false} GatherKeys(reports: seq<(string, seq<Issue>)>)
    ensures forall stem :: stem in Gather(reports) <==>
              exists i :: 0 <= i < |reports| && reports[i].0 == stem && reports[i].1 != []
  {
    if reports != [] {
      var n := |reports|;
      var init := reports[..n - 1];
      GatherKeys(init);
      forall stem
        ensures stem in Gather(reports) <==>
                  exists i :: 0 <= i < n && reports[i].0 == stem && reports[i].1 != []
      {
        if exists i :: 0 <= i < n - 1 && init[i].0 == stem && init[i].1 != [] {
          var i :| 0 <= i < n - 1 && init[i].0 == stem && init[i].1 != [];
          assert reports[i] == init[i];
        }
        if exists i :: 0 <= i < n && reports[i].0 == stem && reports[i].1 != [] {
          var i :| 0 <= i < n && reports[i].0 == stem && reports[i].1 != [];
          if i < n - 1 {
            assert init[i] == reports[i];
          }
        }
      }
    }
  }

  /** The list stored for a stem is that of the last report with that stem
      that is non-empty. */
  lemma {:induction false} GatherValue(reports: seq<(string, seq<Issue>)>, i: int)
    requires 0 <= i < |reports| && reports[i].1 != []
    requires forall j :: i < j < |reports| && reports[j].0 == reports[i].0 ==> reports[j].1 == []
    ensures reports[i].0 in Gather(reports) && Gather(reports)[reports[i].0] == reports[i].1
    decreases |reports|
  {
    var n := |reports|;
    if i < n - 1 {
      var init := reports[..n - 1];
      assert init[i] == reports[i];
      forall j | i < j < |init| && init[j].0 == init[i].0
        ensures init[j].1 == []
      {
        assert init[j] == reports[j];
      }
      GatherValue(init, i);
    }
  }

  /** A stem is a key of validate_all's result exactly when some package
      file with that stem has a non-empty error list. */
  lemma CollectKeys(registry: seq<(string, Input)>)
    requires forall i :: 0 <= i < |registry| ==> Admissible(registry[i].1)
    ensures forall stem :: stem in Collect(registry) <==>
              exists i :: 0 <= i < |registry| && registry[i].0 == stem && Report(stem, registry[i].1) != []
  {
    var reports := Reports(registry);
    GatherKeys(reports);
    forall stem | stem in Gather(reports)
      ensures exists i :: 0 <= i < |registry| && registry[i].0 == stem && Report(stem, registry[i].1) != []
    {
      var i :| 0 <= i < |reports| && reports[i].0 == stem && reports[i].1 != [];
      assert registry[i].0 == stem && Report(stem, registry[i].1) != [];
    }
    forall i | 0 <= i < |registry| && Report(registry[i].0, registry[i].1) != []
      ensures registry[i].0 in Gather(reports)
    {
      assert reports[i].0 == registry[i].0 && reports[i].1 != [];
    }
  }

  /** The error list stored for a stem is that of the last file with that
      stem that has errors (in a directory, the only file with that stem). */
  lemma CollectValue(registry: seq<(string, Input)>, i: int)
    requires forall k :: 0 <= k < |registry| ==> Admissible(registry[k].1)
    requires 0 <= i < |registry| && Report(registry[i].0, registry[i].1) != []
    requires forall j :: i < j < |registry| && registry[j].0 == registry[i].0 ==>
               Report(registry[j].0, registry[j].1) == []
    ensures registry[i].0 in Collect(registry)
    ensures Collect(registry)[registry[i].0] == Report(registry[i].0, registry[i].1)
  {
    GatherValue(Reports(registry), i);
  }

  /** A registry whose every package passes gives an empty result. */
  lemma CollectAllValid(registry: seq<(string, Input)>)
    requires forall i :: 0 <= i < |registry| ==> Admissible(registry[i].1)
    requires forall i :: 0 <= i < |registry| ==> registry[i].1.Parsed? && Passes(registry[i].0, registry[i].1.doc)
    ensures Collect(registry) == map[]
  {
    var reports := Reports(registry);
    forall i | 0 <= i < |registry|
      ensures reports[i].1 == []
    {
      ReportEmptyIff(registry[i].0, registry[i].1);
    }
    GatherKeys(reports);
    assert forall stem :: stem !in Gather(reports);
  }
}
