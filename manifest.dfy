/** The manifest.json checks and the download plan of scripts/install_third_party.py.
    The manifest is given already decoded; the downloads are returned, not performed. */
module Manifest {
  import opened Wrappers
  import opened Strings

  /** A JSON value of a dependency entry: a string, or a list of strings ("files"). */
  datatype Value = Str(s: string) | Items(list: seq<string>)

  type Contents = map<string, Value>

  /** One dependency of the manifest, with the category it is listed under
      ("frontend", "backend", "oppiaTools"); the manifest is the sequence of these in
      the order the decoded dictionaries yield them. */
  datatype Dependency = Dependency(category: string, name: string, contents: Contents)

  /** Why the source stops: a KeyError or exception it raises, or one of the
      `sys.exit(1)` branches of test_manifest_syntax. */
  datatype ManifestError =
    | UnknownFormat(format: string)
    | MissingKey(key: string)
    | KeyPairNotExclusive(pair: seq<string>)
    | InvalidUrl(url: string, format: string)
    | FormatNotSpecified(contents: Contents)
    | NotAString(key: string)
    | UnknownCategory(category: string)

  datatype FormatKeys = FormatKeys(mandatory: seq<string>, optionalPairs: seq<seq<string>>)

  const ZipFormat := "zip"
  const TarFormat := "tar"
  const FilesFormat := "files"

  /** DOWNLOAD_FORMATS_TO_MANIFEST_KEYS. */
  const FormatsToManifestKeys: map<string, FormatKeys> := map[
    ZipFormat := FormatKeys(["version", "url", "downloadFormat"],
                            [["rootDir", "rootDirPrefix"], ["targetDir", "targetDirPrefix"]]),
    FilesFormat := FormatKeys(["version", "url", "files", "targetDirPrefix", "downloadFormat"], []),
    TarFormat := FormatKeys(["version", "url", "tarRootDirPrefix", "targetDirPrefix", "downloadFormat"], [])
  ]

  /** The first key of `keys`, in list order, that `contents` lacks. */
  function FirstMissing(keys: seq<string>, contents: Contents): (r: Option<string>)
    ensures r.None? <==> forall i :: 0 <= i < |keys| ==> keys[i] in contents
    ensures r.Some? ==> exists i :: 0 <= i < |keys| && keys[i] == r.value && r.value !in contents &&
                          forall j :: 0 <= j < i ==> keys[j] in contents
  {
    if keys == [] then None
    else if keys[0] !in contents then Some(keys[0])
    else
      var rest := FirstMissing(keys[1..], contents);
      if rest.Some? then
        var i :| 0 <= i < |keys[1..]| && keys[1..][i] == rest.value && rest.value !in contents &&
                 forall j :: 0 <= j < i ==> keys[1..][j] in contents;
        assert keys[i + 1] == rest.value && forall j :: 0 <= j < i + 1 ==> keys[j] in contents;
        rest
      else rest
  }

  /** How many keys of the pair `contents` has. */
  function CountPresent(pair: seq<string>, contents: Contents): nat {
    if pair == [] then 0 else (if pair[0] in contents then 1 else 0) + CountPresent(pair[1..], contents)
  }

  /** For a pair of two different keys: exactly one present means one or the other, not both. */
  lemma ExactlyOneOfTwo(a: string, b: string, contents: Contents)
    requires a != b
    ensures CountPresent([a, b], contents) == 1 <==> (a in contents) != (b in contents)
  {
    assert [a, b][1..] == [b];
    assert [b][1..] == [];
    assert CountPresent([b], contents) == (if b in contents then 1 else 0) + CountPresent([], contents);
  }

  /** The first optional key pair whose members are not present exactly once. */
  function FirstBadPair(pairs: seq<seq<string>>, contents: Contents): (r: Option<seq<string>>)
    ensures r.None? <==> forall i :: 0 <= i < |pairs| ==> CountPresent(pairs[i], contents) == 1
    ensures r.Some? ==> exists i :: 0 <= i < |pairs| && pairs[i] == r.value &&
                          CountPresent(r.value, contents) != 1 &&
                          forall j :: 0 <= j < i ==> CountPresent(pairs[j], contents) == 1
  {
    if pairs == [] then None
    else if CountPresent(pairs[0], contents) != 1 then Some(pairs[0])
    else
      var rest := FirstBadPair(pairs[1..], contents);
      if rest.Some? then
        var i :| 0 <= i < |pairs[1..]| && pairs[1..][i] == rest.value &&
                 CountPresent(rest.value, contents) != 1 &&
                 forall j :: 0 <= j < i ==> CountPresent(pairs[1..][j], contents) == 1;
        assert pairs[i + 1] == rest.value && forall j :: 0 <= j < i + 1 ==> CountPresent(pairs[j], contents) == 1;
        rest
      else rest
  }

  /** The URL with everything from its last '#' on removed (`rpartition('#')[0]`), or
      the URL itself when it has no '#'. */
  function StripFragment(url: string): (r: string)
    ensures !Contains(url, '#') ==> r == url
    ensures Contains(url, '#') ==>
      |r| < |url| && url[..|r|] == r && url[|r|] == '#' && !Contains(url[|r| + 1..], '#')
  {
    if Contains(url, '#') then BeforeLast(url, '#') else url
  }

  /** A URL ending in ".zip" does not end in ".tar.gz". */
  lemma ZipIsNotTar(url: string)
    requires EndsWith(url, ".zip")
    ensures !EndsWith(url, ".tar.gz")
  {
    assert url[|url| - 4..][3] == 'p';
    if |url| >= 7 { assert url[|url| - 7..][6] == url[|url| - 1]; }
  }

  /** The suffix rule of test_manifest_syntax, as the source writes it: a zip must end
      in ".zip", a tar in ".tar.gz", and any other format in neither. */
  function UrlMatchesFormat(url: string, format: string): (r: bool)
    ensures format == ZipFormat ==> (r <==> EndsWith(url, ".zip"))
    ensures format == TarFormat ==> (r <==> EndsWith(url, ".tar.gz"))
    ensures format != ZipFormat && format != TarFormat ==>
      (r <==> !EndsWith(url, ".zip") && !EndsWith(url, ".tar.gz"))
  {
    if EndsWith(url, ".zip") then ZipIsNotTar(url); UrlSuffixRule(url, format)
    else UrlSuffixRule(url, format)
  }

  /** The suffix rule's condition as test_manifest_syntax writes it. */
  predicate UrlSuffixRule(url: string, format: string) {
    !((EndsWith(url, ".zip") && format != ZipFormat) ||
      (format == ZipFormat && !EndsWith(url, ".zip")) ||
      (EndsWith(url, ".tar.gz") && format != TarFormat) ||
      (format == TarFormat && !EndsWith(url, ".tar.gz")))
  }

  /** test_manifest_syntax: Ok, or the first failed check in the source's order. */
  function TestManifestSyntax(format: string, contents: Contents): (r: Result<(), ManifestError>)
    ensures r.Ok? <==> (
      format in FormatsToManifestKeys &&
      (forall k :: k in FormatsToManifestKeys[format].mandatory ==> k in contents) &&
      (forall pair :: pair in FormatsToManifestKeys[format].optionalPairs ==> CountPresent(pair, contents) == 1) &&
      contents["url"].Str? && UrlMatchesFormat(StripFragment(contents["url"].s), format))
    ensures r.Err? && r.error.MissingKey? ==>
      format in FormatsToManifestKeys && r.error.key !in contents &&
      exists i :: 0 <= i < |FormatsToManifestKeys[format].mandatory| &&
        FormatsToManifestKeys[format].mandatory[i] == r.error.key &&
        forall j :: 0 <= j < i ==> FormatsToManifestKeys[format].mandatory[j] in contents
    ensures r.Err? && r.error.KeyPairNotExclusive? ==>
      format in FormatsToManifestKeys &&
      (forall k :: k in FormatsToManifestKeys[format].mandatory ==> k in contents) &&
      exists i :: 0 <= i < |FormatsToManifestKeys[format].optionalPairs| &&
        FormatsToManifestKeys[format].optionalPairs[i] == r.error.pair && CountPresent(r.error.pair, contents) != 1 &&
        forall j :: 0 <= j < i ==> CountPresent(FormatsToManifestKeys[format].optionalPairs[j], contents) == 1
    ensures r.Err? ==> r.error.UnknownFormat? || r.error.MissingKey? || r.error.KeyPairNotExclusive? ||
                       r.error.NotAString? || r.error.InvalidUrl?
    ensures r.Err? && r.error.UnknownFormat? <==> format !in FormatsToManifestKeys
    ensures format in FormatsToManifestKeys && (exists k :: k in FormatsToManifestKeys[format].mandatory && k !in contents) ==>
      r.Err? && r.error.MissingKey?
    ensures format in FormatsToManifestKeys && (forall k :: k in FormatsToManifestKeys[format].mandatory ==> k in contents) &&
            (exists pair :: pair in FormatsToManifestKeys[format].optionalPairs && CountPresent(pair, contents) != 1) ==>
      r.Err? && r.error.KeyPairNotExclusive?
    ensures r.Err? && (r.error.NotAString? || r.error.InvalidUrl?) ==>
      format in FormatsToManifestKeys &&
      (forall k :: k in FormatsToManifestKeys[format].mandatory ==> k in contents) &&
      (forall pair :: pair in FormatsToManifestKeys[format].optionalPairs ==> CountPresent(pair, contents) == 1)
    ensures r.Err? && r.error.NotAString? ==> r.error.key == "url" && !contents["url"].Str?
    ensures r.Err? && r.error.InvalidUrl? ==>
      contents["url"].Str? && r.error == InvalidUrl(StripFragment(contents["url"].s), format)
  {
    if format !in FormatsToManifestKeys then Err(UnknownFormat(format))
    else
      var keys := FormatsToManifestKeys[format];
      var missing := FirstMissing(keys.mandatory, contents);
      if missing.Some? then Err(MissingKey(missing.value))
      else
        var bad := FirstBadPair(keys.optionalPairs, contents);
        if bad.Some? then
          assert bad.value in keys.optionalPairs;
          Err(KeyPairNotExclusive(bad.value))
        else
          assert "url" == keys.mandatory[1];
          var url := contents["url"];
          if !url.Str? then Err(NotAString("url"))
          else if !UrlMatchesFormat(StripFragment(url.s), format) then Err(InvalidUrl(StripFragment(url.s), format))
          else Ok(())
  }

  /** The suffix rule read per format: a zip must end in ".zip", a tar in ".tar.gz",
      and a files download in neither. */
  lemma SuffixRules(url: string, format: string)
    requires format in FormatsToManifestKeys
    ensures format == ZipFormat ==> (UrlMatchesFormat(url, format) <==> EndsWith(url, ".zip"))
    ensures format == TarFormat ==> (UrlMatchesFormat(url, format) <==> EndsWith(url, ".tar.gz"))
    ensures format == FilesFormat ==>
      (UrlMatchesFormat(url, format) <==> !EndsWith(url, ".zip") && !EndsWith(url, ".tar.gz"))
  {
    if EndsWith(url, ".zip") {
      assert url[|url| - 4..][3] == 'p';
      assert !EndsWith(url, ".tar.gz") by {
        if |url| >= 7 { assert url[|url| - 7..][6] == url[|url| - 1]; }
      }
    }
  }

  /** A zip entry needs exactly one of rootDir/rootDirPrefix and exactly one of
      targetDir/targetDirPrefix: both or neither is rejected. */
  lemma ZipKeyPairs(contents: Contents)
    ensures TestManifestSyntax(ZipFormat, contents).Ok? ==>
      ("rootDir" in contents) != ("rootDirPrefix" in contents) &&
      ("targetDir" in contents) != ("targetDirPrefix" in contents)
    ensures ("rootDir" in contents) == ("rootDirPrefix" in contents) ==>
      TestManifestSyntax(ZipFormat, contents).Err?
    ensures ("targetDir" in contents) == ("targetDirPrefix" in contents) ==>
      TestManifestSyntax(ZipFormat, contents).Err?
  {
    var pairs := FormatsToManifestKeys[ZipFormat].optionalPairs;
    assert pairs[0] == ["rootDir", "rootDirPrefix"] && pairs[1] == ["targetDir", "targetDirPrefix"];
    ExactlyOneOfTwo("rootDir", "rootDirPrefix", contents);
    ExactlyOneOfTwo("targetDir", "targetDirPrefix", contents);
  }

  /** Whatever follows the last '#' does not reach the suffix check. */
  lemma {:induction false} FragmentIgnored(base: string, fragment: string)
    requires !Contains(fragment, '#')
    ensures StripFragment(base + "#" + fragment) == base
    decreases |fragment|
  {
    var u := base + "#" + fragment;
    assert u[|base|] == '#';
    if fragment == [] {
      assert u[..|u| - 1] == base;
    } else {
      var shorter := fragment[..|fragment| - 1];
      assert !Contains(shorter, '#') by {
        forall i | 0 <= i < |shorter| ensures shorter[i] != '#' { assert shorter[i] == fragment[i]; }
      }
      FragmentIgnored(base, shorter);
      assert u[..|u| - 1] == base + "#" + shorter;
      assert u[|u| - 1] == fragment[|fragment| - 1];
      assert Contains(base + "#" + shorter, '#') by { assert (base + "#" + shorter)[|base|] == '#'; }
    }
  }

  /** validate_manifest: every dependency, in order, must name its download format and
      pass test_manifest_syntax; the first failure is reported. */
  function ValidateManifest(deps: seq<Dependency>): (r: Result<(), ManifestError>)
    ensures r.Ok? <==> forall i :: 0 <= i < |deps| ==> DependencyValid(deps[i])
    ensures r.Err? ==> exists i :: (0 <= i < |deps| && !DependencyValid(deps[i]) &&
      r == CheckDependency(deps[i]) && forall j :: 0 <= j < i ==> DependencyValid(deps[j]))
  {
    if deps == [] then Ok(())
    else if CheckDependency(deps[0]).Err? then CheckDependency(deps[0])
    else
      var rest := ValidateManifest(deps[1..]);
      if rest.Err? then
        var i :| 0 <= i < |deps[1..]| && !DependencyValid(deps[1..][i]) &&
                 rest == CheckDependency(deps[1..][i]) && forall j :: 0 <= j < i ==> DependencyValid(deps[1..][j]);
        assert deps[i + 1] == deps[1..][i] && forall j :: 0 <= j < i + 1 ==> DependencyValid(deps[j]);
        rest
      else rest
  }

  /** The check of one dependency inside validate_manifest. */
  function CheckDependency(d: Dependency): (r: Result<(), ManifestError>)
    ensures "downloadFormat" !in d.contents ==> r == Err(FormatNotSpecified(d.contents))
    ensures "downloadFormat" in d.contents && d.contents["downloadFormat"].Str? ==>
      r == TestManifestSyntax(d.contents["downloadFormat"].s, d.contents)
    ensures "downloadFormat" in d.contents && d.contents["downloadFormat"].Items? ==>
      r == Err(NotAString("downloadFormat"))
  {
    if "downloadFormat" !in d.contents then Err(FormatNotSpecified(d.contents))
    else
      match d.contents["downloadFormat"]
      case Str(format) => TestManifestSyntax(format, d.contents)
      case Items(_) => Err(NotAString("downloadFormat"))
  }

  predicate DependencyValid(d: Dependency) {
    CheckDependency(d).Ok?
  }

  /** What the download step relies on: a known format given as a string, a string URL
      and, for a files download, the file list. */
  predicate Plannable(d: Dependency) {
    var c := d.contents;
    "downloadFormat" in c && c["downloadFormat"].Str? && c["downloadFormat"].s in FormatsToManifestKeys &&
    "url" in c && c["url"].Str? && (c["downloadFormat"].s == FilesFormat ==> "files" in c)
  }

  /** A dependency that passes validation can be planned. */
  lemma ValidIsPlannable(d: Dependency)
    requires DependencyValid(d)
    ensures Plannable(d)
  {
    var keys := FormatsToManifestKeys[d.contents["downloadFormat"].s].mandatory;
    assert keys[1] == "url";
    if d.contents["downloadFormat"].s == FilesFormat {
      assert keys[2] == "files";
    }
  }

  /** A manifest missing a download format anywhere does not validate. */
  lemma MissingFormatRejected(deps: seq<Dependency>, i: nat)
    requires i < |deps| && "downloadFormat" !in deps[i].contents
    ensures ValidateManifest(deps).Err?
  {
    assert !DependencyValid(deps[i]);
  }

  const ThirdPartyDir := "./third_party"
  const ThirdPartyStaticDir := "./third_party/static"
  const ToolsDir := "../oppia_tools"

  /** TARGET_DOWNLOAD_DIRS. */
  const TargetDownloadDirs: map<string, string> := map[
    "frontend" := ThirdPartyStaticDir, "backend" := ThirdPartyDir, "oppiaTools" := ToolsDir]

  /** `os.path.join` for a relative second component. */
  function PathJoin(a: string, b: string): (r: string)
    ensures StartsWith(r, a) && EndsWith(r, b)
    ensures a != [] && !EndsWith(a, "/") ==> |r| == |a| + 1 + |b| && r[|a|] == '/'
    ensures a == [] || EndsWith(a, "/") ==> |r| == |a| + |b|
  {
    if a == [] || EndsWith(a, "/") then a + b else a + "/" + b
  }

  /** One download the script performs, with the names it derived. */
  datatype Download =
    | DownloadFiles(url: string, dst: string, files: seq<string>)
    | DownloadAndUnzip(url: string, targetParent: string, zipRoot: string, targetRoot: string)
    | DownloadAndUntar(url: string, targetParent: string, tarRoot: string, targetRoot: string)

  /** dependency_contents[key] read as a string. */
  function StrField(c: Contents, key: string): Result<string, ManifestError> {
    if key !in c then Err(MissingKey(key))
    else if c[key].Str? then Ok(c[key].s)
    else Err(NotAString(key))
  }

  predicate HasStr(c: Contents, key: string) {
    key in c && c[key].Str?
  }

  /** `prefix + version`, where both must be strings. */
  function Prefixed(c: Contents, prefixKey: string): Result<string, ManifestError> {
    match StrField(c, prefixKey)
    case Err(e) => Err(e)
    case Ok(p) => match StrField(c, "version") case Err(e) => Err(e) case Ok(v) => Ok(p + v)
  }

  /** The zip names: the root is rootDir when present, otherwise rootDirPrefix followed
      by the version; the target is targetDir when present, otherwise
      targetDirPrefix followed by the version. */
  function ZipNames(c: Contents): (r: Result<(string, string), ManifestError>)
    ensures r.Ok? && "rootDir" in c ==> c["rootDir"] == Str(r.value.0)
    ensures r.Ok? && "rootDir" !in c ==>
      HasStr(c, "rootDirPrefix") && HasStr(c, "version") && r.value.0 == c["rootDirPrefix"].s + c["version"].s
    ensures r.Ok? && "targetDir" in c ==> c["targetDir"] == Str(r.value.1)
    ensures r.Ok? && "targetDir" !in c ==>
      HasStr(c, "targetDirPrefix") && HasStr(c, "version") && r.value.1 == c["targetDirPrefix"].s + c["version"].s
    ensures r.Err? <==> (
      (if "rootDir" in c then !c["rootDir"].Str? else !HasStr(c, "rootDirPrefix") || !HasStr(c, "version")) ||
      (if "targetDir" in c then !c["targetDir"].Str? else !HasStr(c, "targetDirPrefix") || !HasStr(c, "version")))
  {
    var root := if "rootDir" in c then StrField(c, "rootDir") else Prefixed(c, "rootDirPrefix");
    var target := if "targetDir" in c then StrField(c, "targetDir") else Prefixed(c, "targetDirPrefix");
    if root.Err? then Err(root.error)
    else if target.Err? then Err(target.error)
    else Ok((root.value, target.value))
  }

  /** The `files` value as the source iterates it: a list gives its entries, a string
      its characters. */
  function FileNames(v: Value): (r: seq<string>)
    ensures v.Items? ==> r == v.list
    ensures v.Str? ==> |r| == |v.s| && forall i :: 0 <= i < |v.s| ==> r[i] == [v.s[i]]
  {
    match v
    case Items(l) => l
    case Str(s) => seq(|s|, i requires 0 <= i < |s| => [s[i]])
  }

  /** What the loop of download_manifest_files does for one dependency of a valid
      manifest. */
  function PlanFor(d: Dependency): (r: Result<Download, ManifestError>)
    requires Plannable(d)
    ensures d.category !in TargetDownloadDirs ==> r.Err?
  {
    var c := d.contents;
    var format := c["downloadFormat"].s;
    assert format in FormatsToManifestKeys;
    assert FormatsToManifestKeys[format].mandatory[1] == "url";
    var url := c["url"].s;
    if format == FilesFormat then
      assert FormatsToManifestKeys[format].mandatory[2] == "files";
      match Prefixed(c, "targetDirPrefix")
      case Err(e) => Err(e)
      case Ok(targetDirname) =>
        if d.category !in TargetDownloadDirs then Err(UnknownCategory(d.category))
        else Ok(DownloadFiles(url, PathJoin(TargetDownloadDirs[d.category], targetDirname), FileNames(c["files"])))
    else if format == ZipFormat then
      ZipKeyPairs(c);
      match ZipNames(c)
      case Err(e) => Err(e)
      case Ok(names) =>
        if d.category !in TargetDownloadDirs then Err(UnknownCategory(d.category))
        else Ok(DownloadAndUnzip(url, TargetDownloadDirs[d.category], names.0, names.1))
    else
      assert FormatsToManifestKeys[format].mandatory[2] == "tarRootDirPrefix";
      assert FormatsToManifestKeys[format].mandatory[3] == "targetDirPrefix";
      match Prefixed(c, "tarRootDirPrefix")
      case Err(e) => Err(e)
      case Ok(tarRoot) =>
        match Prefixed(c, "targetDirPrefix")
        case Err(e) => Err(e)
        case Ok(targetRoot) =>
          if d.category !in TargetDownloadDirs then Err(UnknownCategory(d.category))
          else Ok(DownloadAndUntar(url, TargetDownloadDirs[d.category], tarRoot, targetRoot))
  }

  /** The names each format's download derives, and success whenever the category is
      known and every field other than `files` is a string. */
  lemma PlanForShape(d: Dependency)
    requires DependencyValid(d)
    ensures Plannable(d)
    ensures PlanFor(d).Ok? ==> d.category in TargetDownloadDirs && HasStr(d.contents, "url")
    ensures PlanFor(d).Ok? && PlanFor(d).value.DownloadFiles? ==>
      d.contents["downloadFormat"] == Str(FilesFormat) &&
      HasStr(d.contents, "targetDirPrefix") && HasStr(d.contents, "version") &&
      PlanFor(d).value == DownloadFiles(d.contents["url"].s,
                               PathJoin(TargetDownloadDirs[d.category],
                                        d.contents["targetDirPrefix"].s + d.contents["version"].s),
                               FileNames(d.contents["files"]))
    ensures PlanFor(d).Ok? && PlanFor(d).value.DownloadAndUnzip? ==>
      d.contents["downloadFormat"] == Str(ZipFormat) && ZipNames(d.contents).Ok? &&
      PlanFor(d).value == DownloadAndUnzip(d.contents["url"].s, TargetDownloadDirs[d.category],
                                  ZipNames(d.contents).value.0, ZipNames(d.contents).value.1)
    ensures PlanFor(d).Ok? && PlanFor(d).value.DownloadAndUntar? ==> (
      d.contents["downloadFormat"] == Str(TarFormat) &&
      HasStr(d.contents, "tarRootDirPrefix") && HasStr(d.contents, "targetDirPrefix") && HasStr(d.contents, "version") &&
      PlanFor(d).value == DownloadAndUntar(d.contents["url"].s, TargetDownloadDirs[d.category],
                                  d.contents["tarRootDirPrefix"].s + d.contents["version"].s,
                                  d.contents["targetDirPrefix"].s + d.contents["version"].s))
    ensures d.category !in TargetDownloadDirs ==> PlanFor(d).Err?
    ensures d.category in TargetDownloadDirs && (forall k :: k in d.contents ==> k == "files" || d.contents[k].Str?) ==>
      PlanFor(d).Ok?
  {
    ValidIsPlannable(d);
    var c := d.contents;
    var format := c["downloadFormat"].s;
    assert format in FormatsToManifestKeys;
    assert FormatsToManifestKeys[format].mandatory[1] == "url";
    if format == FilesFormat {
      assert FormatsToManifestKeys[format].mandatory[2] == "files";
    } else if format == ZipFormat {
      ZipKeyPairs(c);
    } else {
      assert FormatsToManifestKeys[format].mandatory[2] == "tarRootDirPrefix";
      assert FormatsToManifestKeys[format].mandatory[3] == "targetDirPrefix";
    }
  }

  /** download_manifest_files: validates the manifest, then derives one download per
      dependency in manifest order, stopping at the first error. */
  method DownloadManifestFiles(deps: seq<Dependency>) returns (r: Result<seq<Download>, ManifestError>)
    ensures ValidateManifest(deps).Err? ==> r == Err(ValidateManifest(deps).error)
    ensures ValidateManifest(deps).Ok? ==> forall i :: 0 <= i < |deps| ==> Plannable(deps[i])
    ensures r.Ok? ==> (ValidateManifest(deps).Ok? && |r.value| == |deps| &&
      forall i :: 0 <= i < |deps| ==> PlanFor(deps[i]) == Ok(r.value[i]))
    ensures r.Err? && ValidateManifest(deps).Ok? ==>
      exists i :: (0 <= i < |deps| && PlanFor(deps[i]) == Err(r.error) &&
                   forall j :: 0 <= j < i ==> PlanFor(deps[j]).Ok?)
  {
    var valid := ValidateManifest(deps);
    if valid.Err? {
      return Err(valid.error);
    }
    forall i | 0 <= i < |deps| ensures Plannable(deps[i]) {
      ValidIsPlannable(deps[i]);
    }
    r := PlanAll(deps);
  }

  /** The loop of download_manifest_files over a valid manifest. */
  method PlanAll(deps: seq<Dependency>) returns (r: Result<seq<Download>, ManifestError>)
    requires forall i :: 0 <= i < |deps| ==> Plannable(deps[i])
    ensures r.Ok? ==> |r.value| == |deps| && forall i :: 0 <= i < |deps| ==> PlanFor(deps[i]) == Ok(r.value[i])
    ensures r.Err? ==>
      exists i :: (0 <= i < |deps| && PlanFor(deps[i]) == Err(r.error) &&
                   forall j :: 0 <= j < i ==> PlanFor(deps[j]).Ok?)
  {
    var downloads: seq<Download> := [];
    var i := 0;
    while i < |deps|
      invariant 0 <= i <= |deps| && |downloads| == i
      invariant forall j :: 0 <= j < i ==> PlanFor(deps[j]) == Ok(downloads[j])
    {
      var planned := PlanFor(deps[i]);
      if planned.Err? {
        return Err(planned.error);
      }
      downloads := downloads + [planned.value];
      i := i + 1;
    }
    r := Ok(downloads);
  }
}
