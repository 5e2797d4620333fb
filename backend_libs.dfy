/** Reconciles the installed third-party Python libraries with requirements.txt
    (scripts/install_backend_python_libs.py). The file system, pip and
    pkg_resources are abstracted: the two listings come in as lines, the
    version order is a parameter, and the pip and removal steps are returned as
    commands whose effect on the installed set is given by `Apply`. */
module BackendLibs {
  import opened Wrappers
  import opened Strings

  type Library = string
  type Version = string
  type Contents = map<Library, Version>

  /** The line a parser could not split into a library and a version
      (an IndexError in the source). */
  datatype ParseError = MissingVersion(line: string)

  /** What one input line contributes: Ok(None) for a skipped line. */
  type LineResult = Result<Option<(Library, Version)>, ParseError>

  /** One line of requirements.txt, as `readlines` returns it (the trailing newline
      stays part of the line). Comment lines are skipped; otherwise the text before
      the first space is split on "==" and the first two pieces are the library
      (lower-cased) and the version. */
  function ParseRequirementLine(l: string): (r: LineResult)
    ensures StartsWith(l, "#") ==> r == Ok(None)
    ensures !StartsWith(l, "#") ==>
      var token := UpTo(l, " ");
      (r.Err? <==> FindFrom(token, "==", 0).None?) &&
      (r.Err? ==> r.error == MissingVersion(l)) &&
      (r.Ok? ==> var i := FindFrom(token, "==", 0).value;
        r == Ok(Some((Lower(token[..i]), UpTo(token[i + 2..], "==")))))
  {
    if StartsWith(l, "#") then Ok(None)
    else
      var token := Split(l, " ")[0];
      var parts := Split(token, "==");
      SplitHead(l, " ");
      SplitHead(token, "==");
      if |parts| < 2 then Err(MissingVersion(l))
      else
        SplitSecond(token, "==");
        Ok(Some((Lower(parts[0]), parts[1])))
  }

  /** One installed distribution, printed as "Name version": split on spaces, the
      first piece lower-cased is the library and the second is the version. */
  function ParseDistribution(d: string): (r: LineResult)
    ensures r.Err? <==> FindFrom(d, " ", 0).None?
    ensures r.Err? ==> r.error == MissingVersion(d)
    ensures r.Ok? ==> var i := FindFrom(d, " ", 0).value;
      r == Ok(Some((Lower(d[..i]), UpTo(d[i + 1..], " "))))
  {
    var parts := Split(d, " ");
    SplitHead(d, " ");
    if |parts| < 2 then Err(MissingVersion(d))
    else
      SplitSecond(d, " ");
      Ok(Some((Lower(parts[0]), parts[1])))
  }

  /** The dictionary the source builds by assigning the entries in order: a later entry
      for the same library overrides an earlier one; the first unparsable entry aborts. */
  function Collect(entries: seq<string>, parse: string -> LineResult): Result<Contents, ParseError>
    decreases |entries|
  {
    if entries == [] then Ok(map[])
    else
      match Collect(entries[..|entries| - 1], parse)
      case Err(e) => Err(e)
      case Ok(m) =>
        match parse(entries[|entries| - 1])
        case Err(e) => Err(e)
        case Ok(None) => Ok(m)
        case Ok(Some(entry)) => Ok(m[entry.0 := entry.1])
  }

  /** _get_requirements_file_contents: the requirement lines folded into a dictionary. */
  method GetRequirementsFileContents(lines: seq<string>) returns (r: Result<Contents, ParseError>)
    ensures r == Collect(lines, ParseRequirementLine)
  {
    var contents: Contents := map[];
    var i := 0;
    while i < |lines|
      invariant 0 <= i <= |lines|
      invariant Collect(lines[..i], ParseRequirementLine) == Ok(contents)
    {
      assert lines[..i + 1][..i] == lines[..i];
      var l := lines[i];
      if !StartsWith(l, "#") {
        var parts := Split(Split(l, " ")[0], "==");
        if |parts| < 2 {
          CollectErrorSticks(lines, i + 1, ParseRequirementLine);
          return Err(MissingVersion(l));
        }
        contents := contents[Lower(parts[0]) := parts[1]];
      }
      i := i + 1;
    }
    assert lines[..i] == lines;
    r := Ok(contents);
  }

  /** _get_third_party_directory_contents: the installed distributions folded into a
      dictionary. */
  method GetThirdPartyDirectoryContents(dists: seq<string>) returns (r: Result<Contents, ParseError>)
    ensures r == Collect(dists, ParseDistribution)
  {
    var contents: Contents := map[];
    var i := 0;
    while i < |dists|
      invariant 0 <= i <= |dists|
      invariant Collect(dists[..i], ParseDistribution) == Ok(contents)
    {
      assert dists[..i + 1][..i] == dists[..i];
      var parts := Split(dists[i], " ");
      if |parts| < 2 {
        CollectErrorSticks(dists, i + 1, ParseDistribution);
        return Err(MissingVersion(dists[i]));
      }
      contents := contents[Lower(parts[0]) := parts[1]];
      i := i + 1;
    }
    assert dists[..i] == dists;
    r := Ok(contents);
  }

  /** Once a prefix of the entries fails, every longer prefix fails with the same error. */
  lemma {:induction false} CollectErrorSticks(entries: seq<string>, k: nat, parse: string -> LineResult)
    requires k <= |entries| && Collect(entries[..k], parse).Err?
    ensures Collect(entries, parse) == Collect(entries[..k], parse)
    decreases |entries| - k
  {
    if k < |entries| {
      assert entries[..k + 1][..k] == entries[..k];
      CollectErrorSticks(entries, k + 1, parse);
    } else {
      assert entries[..k] == entries;
    }
  }

  /** Does this entry parse to a binding for `lib`? */
  predicate Names(parse: string -> LineResult, e: string, lib: Library) {
    parse(e).Ok? && parse(e).value.Some? && parse(e).value.value.0 == lib
  }

  /** The keys are exactly the libraries the entries name. */
  lemma {:induction false} CollectKeys(entries: seq<string>, parse: string -> LineResult)
    requires Collect(entries, parse).Ok?
    ensures forall lib :: lib in Collect(entries, parse).value <==>
      exists k :: 0 <= k < |entries| && Names(parse, entries[k], lib)
    decreases |entries|
  {
    if entries != [] {
      var init := entries[..|entries| - 1];
      CollectKeys(init, parse);
      forall k | 0 <= k < |init| ensures init[k] == entries[k] { }
    }
  }

  /** One step of the fold: the dictionary of all entries is that of all but the last,
      updated by the last entry when it binds a library. */
  lemma CollectStep(entries: seq<string>, parse: string -> LineResult)
    requires entries != [] && Collect(entries, parse).Ok?
    ensures Collect(entries[..|entries| - 1], parse).Ok? && parse(entries[|entries| - 1]).Ok?
    ensures parse(entries[|entries| - 1]).value.None? ==>
      Collect(entries, parse).value == Collect(entries[..|entries| - 1], parse).value
    ensures parse(entries[|entries| - 1]).value.Some? ==>
      var entry := parse(entries[|entries| - 1]).value.value;
      Collect(entries, parse).value == Collect(entries[..|entries| - 1], parse).value[entry.0 := entry.1]
  {
  }

  /** The version the last entry naming `lib` binds it to, if any entry does. */
  function LastBinding(entries: seq<string>, parse: string -> LineResult, lib: Library): (r: Option<Version>)
    ensures r.Some? ==>
      exists k :: 0 <= k < |entries| && parse(entries[k]) == Ok(Some((lib, r.value))) &&
        forall j :: k < j < |entries| ==> !Names(parse, entries[j], lib)
    ensures r.None? ==> forall j :: 0 <= j < |entries| ==> !Names(parse, entries[j], lib)
    decreases |entries|
  {
    if entries == [] then None
    else
      var init, last := entries[..|entries| - 1], entries[|entries| - 1];
      if Names(parse, last, lib) then
        assert parse(entries[|entries| - 1]) == Ok(Some((lib, parse(last).value.value.1)));
        Some(parse(last).value.value.1)
      else
        var r := LastBinding(init, parse, lib);
        if r.Some? then
          var k :| 0 <= k < |init| && parse(init[k]) == Ok(Some((lib, r.value))) &&
            forall j :: k < j < |init| ==> !Names(parse, init[j], lib);
          assert entries[k] == init[k];
          assert forall j :: k < j < |init| ==> entries[j] == init[j];
          r
        else r
  }

  /** Each library is bound to the version of the LAST entry that names it. */
  lemma {:induction false} CollectLastWins(entries: seq<string>, parse: string -> LineResult)
    requires Collect(entries, parse).Ok?
    ensures forall lib :: lib in Collect(entries, parse).value ==>
      LastBinding(entries, parse, lib) == Some(Collect(entries, parse).value[lib])
    ensures forall lib :: lib !in Collect(entries, parse).value ==> LastBinding(entries, parse, lib) == None
    decreases |entries|
  {
    if entries != [] {
      CollectStep(entries, parse);
      CollectLastWins(entries[..|entries| - 1], parse);
    }
  }

  /** A parse fails exactly when some entry fails, and then with the FIRST failing entry. */
  lemma {:induction false} CollectFirstError(entries: seq<string>, parse: string -> LineResult)
    ensures Collect(entries, parse).Err? <==> exists k :: 0 <= k < |entries| && parse(entries[k]).Err?
    ensures Collect(entries, parse).Err? ==>
      exists k :: 0 <= k < |entries| && parse(entries[k]).Err? &&
        Collect(entries, parse).error == parse(entries[k]).error &&
        forall j :: 0 <= j < k ==> parse(entries[j]).Ok?
    decreases |entries|
  {
    if entries != [] {
      var init := entries[..|entries| - 1];
      CollectFirstError(init, parse);
      forall k | 0 <= k < |init| ensures init[k] == entries[k] { }
    }
  }

  /** The two versions of a mismatching library; the source uses None for "absent". */
  datatype Mismatch = Mismatch(req: Option<Version>, dir: Option<Version>)

  /** The libraries listed on both sides with the same version string. */
  function Same(reqs: Contents, dirs: Contents): set<Library> {
    set lib | lib in reqs && lib in dirs && reqs[lib] == dirs[lib]
  }

  /** get_mismatches: every library listed on either side, except those listed on both
      sides with the same version string. */
  method GetMismatches(reqs: Contents, dirs: Contents) returns (m: map<Library, Mismatch>)
    ensures m.Keys == reqs.Keys + dirs.Keys - Same(reqs, dirs)
    ensures forall lib :: lib in m && lib in reqs && lib !in dirs ==> m[lib] == Mismatch(Some(reqs[lib]), None)
    ensures forall lib :: lib in m && lib !in reqs && lib in dirs ==> m[lib] == Mismatch(None, Some(dirs[lib]))
    ensures forall lib :: lib in m && lib in reqs && lib in dirs ==>
      reqs[lib] != dirs[lib] && m[lib] == Mismatch(Some(reqs[lib]), Some(dirs[lib]))
    ensures forall lib :: lib in m ==> m[lib] != Mismatch(None, None)
    ensures IsMismatchOf(m, reqs, dirs)
  {
    m := RequirementMismatches(reqs, dirs);
    m := AddDirectoryMismatches(reqs, dirs, m);
  }

  /** The first loop of get_mismatches, over the requirements. */
  method RequirementMismatches(reqs: Contents, dirs: Contents) returns (m: map<Library, Mismatch>)
    ensures m.Keys == reqs.Keys - Same(reqs, dirs)
    ensures forall lib :: lib in m ==>
      lib in reqs && m[lib] == Mismatch(Some(reqs[lib]), if lib in dirs then Some(dirs[lib]) else None)
  {
    m := map[];
    var todo := reqs.Keys;
    while todo != {}
      invariant todo <= reqs.Keys
      invariant m.Keys == (reqs.Keys - todo) - Same(reqs, dirs)
      invariant forall lib :: lib in m ==>
        lib in reqs && m[lib] == Mismatch(Some(reqs[lib]), if lib in dirs then Some(dirs[lib]) else None)
      decreases todo
    {
      var lib :| lib in todo;
      if lib in dirs {
        if dirs[lib] != reqs[lib] {
          m := m[lib := Mismatch(Some(reqs[lib]), Some(dirs[lib]))];
        }
      } else {
        m := m[lib := Mismatch(Some(reqs[lib]), None)];
      }
      todo := todo - {lib};
    }
  }

  /** The second loop of get_mismatches: the libraries only in the directory. */
  method AddDirectoryMismatches(reqs: Contents, dirs: Contents, m0: map<Library, Mismatch>)
    returns (m: map<Library, Mismatch>)
    requires m0.Keys == reqs.Keys - Same(reqs, dirs)
    requires forall lib :: lib in m0 ==>
      lib in reqs && m0[lib] == Mismatch(Some(reqs[lib]), if lib in dirs then Some(dirs[lib]) else None)
    ensures m.Keys == reqs.Keys + dirs.Keys - Same(reqs, dirs)
    ensures forall lib :: lib in m && lib in reqs ==>
      m[lib] == Mismatch(Some(reqs[lib]), if lib in dirs then Some(dirs[lib]) else None)
    ensures forall lib :: lib in m && lib !in reqs ==> lib in dirs && m[lib] == Mismatch(None, Some(dirs[lib]))
  {
    m := m0;
    var todo := dirs.Keys;
    while todo != {}
      invariant todo <= dirs.Keys
      invariant m.Keys == reqs.Keys + (set lib | lib in dirs.Keys - todo && lib !in reqs) - Same(reqs, dirs)
      invariant forall lib :: lib in m && lib in reqs ==>
        m[lib] == Mismatch(Some(reqs[lib]), if lib in dirs then Some(dirs[lib]) else None)
      invariant forall lib :: lib in m && lib !in reqs ==> lib in dirs && m[lib] == Mismatch(None, Some(dirs[lib]))
      decreases todo
    {
      var lib :| lib in todo;
      if lib !in reqs {
        m := m[lib := Mismatch(None, Some(dirs[lib]))];
      }
      todo := todo - {lib};
    }
  }

  /** pkg_resources.parse_version comparison, abstracted as a three-way comparison. */
  datatype Ordering = Less | Equal | Greater

  /** The comparison must be reflexive (a version equals itself); the proofs below need
      nothing more of it. */
  ghost predicate ReflexiveCmp(cmp: (Version, Version) -> Ordering) {
    forall v :: cmp(v, v) == Equal
  }

  /** `render` stands for `convert_to_bytes(parse_version(v))`, the normalised text the
      source puts into pip pins and metadata prefixes (`1.01` becomes `1.1`). The proofs
      need only that the normalised text compares equal to what it was made from. */
  ghost predicate RenderPreservesVersion(cmp: (Version, Version) -> Ordering, render: Version -> Version) {
    forall v :: cmp(v, render(v)) == Equal
  }

  /** The two paths the source takes from `common`. */
  datatype Paths = Paths(libsDir: string, requirementsFile: string)

  /** A step of the rectification: removing the libraries directory, a pip call, or a
      call of _remove_metadata. */
  datatype Command =
    | RemoveLibsDir
    | PipReinstallAll
    | PipInstallPinned(library: Library, version: Version)
    | RemoveMetadata(library: Library, version: Version)

  /** The argument list a pip command is run with (empty for the other commands). Every
      pip call installs into the libraries directory without dependencies; a pinned
      install names `library==version` and upgrades. */
  function PipArgv(p: Paths, cmd: Command): (r: seq<string>)
    ensures r != [] <==> cmd.PipReinstallAll? || cmd.PipInstallPinned?
    ensures r != [] ==> |r| == 7 && r[..5] == ["pip", "install", "--target", p.libsDir, "--no-dependencies"]
    ensures cmd.PipInstallPinned? ==> r[5] == cmd.library + "==" + cmd.version && r[6] == "--upgrade"
    ensures cmd.PipReinstallAll? ==> r[5..] == ["-r", p.requirementsFile]
  {
    match cmd
    case PipReinstallAll =>
      ["pip", "install", "--target", p.libsDir, "--no-dependencies", "-r", p.requirementsFile]
    case PipInstallPinned(lib, v) =>
      ["pip", "install", "--target", p.libsDir, "--no-dependencies", lib + "==" + v, "--upgrade"]
    case _ => []
  }

  /** The source treats None and the empty string alike ("if versions[0]"). */
  function Truthy(v: Option<Version>): Option<Version> {
    if v.Some? && v.value != "" then v else None
  }

  /** The commands the source issues for one mismatch when there are fewer than five. */
  function ActionsFor(cmp: (Version, Version) -> Ordering, render: Version -> Version, lib: Library, mm: Mismatch): (r: seq<Command>)
    ensures |r| <= 2
    ensures r == [] <==>
      Truthy(mm.req).Some? && Truthy(mm.dir).Some? && cmp(Truthy(mm.req).value, Truthy(mm.dir).value) == Equal
    ensures RemoveLibsDir in r <==> Truthy(mm.req).None?
    ensures RemoveLibsDir in r ==> r == [RemoveLibsDir, PipReinstallAll]
    ensures forall c :: c in r && c.PipInstallPinned? ==> c == PipInstallPinned(lib, render(Truthy(mm.req).value))
    ensures forall c :: c in r && c.RemoveMetadata? ==>
      Truthy(mm.dir).Some? && cmp(Truthy(mm.req).value, Truthy(mm.dir).value) == Less &&
      c == RemoveMetadata(lib, render(Truthy(mm.dir).value)) && r == [PipInstallPinned(lib, render(Truthy(mm.req).value)), c]
    ensures (Truthy(mm.req).Some? &&
             (Truthy(mm.dir).None? || cmp(Truthy(mm.req).value, Truthy(mm.dir).value) == Greater)) ==>
      r == [PipInstallPinned(lib, render(Truthy(mm.req).value))]
    ensures (Truthy(mm.req).Some? && Truthy(mm.dir).Some? &&
             cmp(Truthy(mm.req).value, Truthy(mm.dir).value) == Less) ==>
      r == [PipInstallPinned(lib, render(Truthy(mm.req).value)), RemoveMetadata(lib, render(Truthy(mm.dir).value))]
  {
    var req := Truthy(mm.req);
    var dir := Truthy(mm.dir);
    if req.None? then [RemoveLibsDir, PipReinstallAll]
    else if dir.None? || cmp(req.value, dir.value) == Greater then [PipInstallPinned(lib, render(req.value))]
    else if cmp(req.value, dir.value) == Less then
      [PipInstallPinned(lib, render(req.value)), RemoveMetadata(lib, render(dir.value))]
    else
      assert cmp(req.value, dir.value) == Equal;
      []
  }

  /** The commands for the libraries in the order the dictionary yields them. */
  function PlanInOrder(cmp: (Version, Version) -> Ordering, render: Version -> Version,
                       mismatches: map<Library, Mismatch>, order: seq<Library>): (r: seq<Command>)
    requires forall i :: 0 <= i < |order| ==> order[i] in mismatches
    ensures |r| <= 2 * |order|
    ensures forall c :: c in r && c.PipInstallPinned? ==>
      c.library in mismatches && Truthy(mismatches[c.library].req).Some? &&
      c.version == render(Truthy(mismatches[c.library].req).value)
    ensures forall c :: c in r && c.RemoveMetadata? ==>
      c.library in mismatches && Truthy(mismatches[c.library].dir).Some? &&
      c.version == render(Truthy(mismatches[c.library].dir).value)
  {
    if order == [] then []
    else
      PlanInOrder(cmp, render, mismatches, order[..|order| - 1]) +
      ActionsFor(cmp, render, order[|order| - 1], mismatches[order[|order| - 1]])
  }

  /** `order` is the dictionary's iteration order: every key exactly once. */
  predicate Enumerates<K, V>(order: seq<K>, m: map<K, V>) {
    (forall i :: 0 <= i < |order| ==> order[i] in m) &&
    (forall k :: k in m ==> exists i :: 0 <= i < |order| && order[i] == k) &&
    (forall i, j :: 0 <= i < j < |order| ==> order[i] != order[j])
  }

  /** _rectify_third_party_directory: five or more mismatches are handled by one full
      reinstall (after removing the directory if it exists); fewer are handled one by
      one, in dictionary order. */
  method RectifyThirdPartyDirectory(
    cmp: (Version, Version) -> Ordering, render: Version -> Version, p: Paths, dirExists: bool,
    mismatches: map<Library, Mismatch>, order: seq<Library>)
    returns (cmds: seq<Command>, argvs: seq<seq<string>>)
    requires Enumerates(order, mismatches)
    ensures |mismatches| >= 5 ==>
      cmds == (if dirExists then [RemoveLibsDir] else []) + [PipReinstallAll]
    ensures |mismatches| < 5 ==> cmds == PlanInOrder(cmp, render, mismatches, order)
    ensures |argvs| == |cmds| && forall i :: 0 <= i < |cmds| ==> argvs[i] == PipArgv(p, cmds[i])
    ensures forall i :: 0 <= i < |cmds| && cmds[i].PipInstallPinned? ==>
      cmds[i].library in mismatches && Truthy(mismatches[cmds[i].library].req).Some? &&
      PipArgv(p, cmds[i])[5] == cmds[i].library + "==" + render(Truthy(mismatches[cmds[i].library].req).value)
  {
    if |mismatches| >= 5 {
      cmds := [];
      if dirExists {
        cmds := [RemoveLibsDir];
      }
      cmds := cmds + [PipReinstallAll];
      argvs := ArgvsOf(p, cmds);
      return;
    }
    cmds := RectifyEach(cmp, render, mismatches, order);
    argvs := ArgvsOf(p, cmds);
    forall k | 0 <= k < |cmds| && cmds[k].PipInstallPinned?
      ensures cmds[k].library in mismatches && Truthy(mismatches[cmds[k].library].req).Some? &&
              cmds[k].version == render(Truthy(mismatches[cmds[k].library].req).value)
    {
      assert cmds[k] in cmds;
    }
  }

  /** The loop of _rectify_third_party_directory over fewer than five mismatches: each
      library's commands, in dictionary order. */
  method RectifyEach(cmp: (Version, Version) -> Ordering, render: Version -> Version,
                     mismatches: map<Library, Mismatch>, order: seq<Library>)
    returns (cmds: seq<Command>)
    requires forall k :: 0 <= k < |order| ==> order[k] in mismatches
    ensures cmds == PlanInOrder(cmp, render, mismatches, order)
  {
    cmds := [];
    var i := 0;
    while i < |order|
      invariant 0 <= i <= |order|
      invariant cmds == PlanInOrder(cmp, render, mismatches, order[..i])
    {
      PlanInOrderStep(cmp, render, mismatches, order, i);
      var lib := order[i];
      var versions := mismatches[lib];
      var req := Truthy(versions.req);
      var dir := Truthy(versions.dir);
      ghost var acts := ActionsFor(cmp, render, lib, versions);
      ghost var before := cmds;
      if req.None? {
        cmds := cmds + [RemoveLibsDir, PipReinstallAll];
      } else if dir.None? || cmp(req.value, dir.value) == Greater {
        cmds := cmds + [PipInstallPinned(lib, render(req.value))];
      } else if cmp(req.value, dir.value) == Less {
        cmds := cmds + [PipInstallPinned(lib, render(req.value))];
        cmds := cmds + [RemoveMetadata(lib, render(dir.value))];
      }
      assert cmds == before + acts;
      i := i + 1;
    }
    assert order[..i] == order;
  }

  /** The plan for one more library extends the plan so far by that library's commands. */
  lemma PlanInOrderStep(cmp: (Version, Version) -> Ordering, render: Version -> Version,
                        mismatches: map<Library, Mismatch>, order: seq<Library>, i: nat)
    requires forall k :: 0 <= k < |order| ==> order[k] in mismatches
    requires i < |order|
    ensures PlanInOrder(cmp, render, mismatches, order[..i + 1]) ==
      PlanInOrder(cmp, render, mismatches, order[..i]) + ActionsFor(cmp, render, order[i], mismatches[order[i]])
  {
    assert order[..i + 1][..i] == order[..i];
  }

  /** The argument lists of a command sequence, one per command. */
  function ArgvsOf(p: Paths, cmds: seq<Command>): (r: seq<seq<string>>)
    ensures |r| == |cmds| && forall i :: 0 <= i < |cmds| ==> r[i] == PipArgv(p, cmds[i])
  {
    seq(|cmds|, i requires 0 <= i < |cmds| => PipArgv(p, cmds[i]))
  }

  /** The effect of a command on the installed libraries, as pip documents it: a full
      reinstall leaves exactly the requirements, a pinned install sets one library,
      removing the directory empties it, metadata removal changes no version. */
  function Apply(cmd: Command, reqs: Contents, installed: Contents): Contents {
    match cmd
    case RemoveLibsDir => map[]
    case PipReinstallAll => reqs
    case PipInstallPinned(lib, v) => installed[lib := v]
    case RemoveMetadata(_, _) => installed
  }

  function ApplyAll(cmds: seq<Command>, reqs: Contents, installed: Contents): Contents
    decreases |cmds|
  {
    if cmds == [] then installed else ApplyAll(cmds[1..], reqs, Apply(cmds[0], reqs, installed))
  }

  lemma {:induction false} ApplyAllConcat(a: seq<Command>, b: seq<Command>, reqs: Contents, installed: Contents)
    ensures ApplyAll(a + b, reqs, installed) == ApplyAll(b, reqs, ApplyAll(a, reqs, installed))
    decreases |a|
  {
    if a == [] {
      assert a + b == b;
    } else {
      assert (a + b)[1..] == a[1..] + b;
      ApplyAllConcat(a[1..], b, reqs, Apply(a[0], reqs, installed));
    }
  }

  /** `lib` is installed exactly when it is required, at a version the comparison
      finds equal to the required one. */
  ghost predicate Good(cmp: (Version, Version) -> Ordering, installed: Contents, reqs: Contents, lib: Library) {
    (lib in installed <==> lib in reqs) && (lib in reqs ==> cmp(reqs[lib], installed[lib]) == Equal)
  }

  function Lookup<K, V>(m: map<K, V>, k: K): Option<V> {
    if k in m then Some(m[k]) else None
  }

  /** `mismatches` is what get_mismatches returns for the two listings. */
  ghost predicate IsMismatchOf(mismatches: map<Library, Mismatch>, reqs: Contents, dirs: Contents) {
    (forall lib :: lib in mismatches <==>
       (lib in reqs || lib in dirs) && !(lib in reqs && lib in dirs && reqs[lib] == dirs[lib])) &&
    (forall lib :: lib in mismatches ==> mismatches[lib] == Mismatch(Lookup(reqs, lib), Lookup(dirs, lib)))
  }

  /** There is nothing to rectify exactly when the two listings are the same. */
  lemma NoMismatchesIffSame(mismatches: map<Library, Mismatch>, reqs: Contents, dirs: Contents)
    requires IsMismatchOf(mismatches, reqs, dirs)
    ensures mismatches == map[] <==> reqs == dirs
  {
    if mismatches == map[] {
      assert forall lib :: lib in reqs <==> lib in dirs by {
        forall lib ensures lib in reqs <==> lib in dirs {
          assert lib !in mismatches;
        }
      }
      forall lib | lib in reqs ensures reqs[lib] == dirs[lib] {
        assert lib !in mismatches;
      }
    } else {
      var lib :| lib in mismatches;
    }
  }

  /** While the libraries are visited in order, every library is either already good or
      a mismatch not yet visited and still as the directory had it. */
  ghost predicate Progress(cmp: (Version, Version) -> Ordering, mismatches: map<Library, Mismatch>,
                           reqs: Contents, dirs: Contents, installed: Contents, visited: set<Library>) {
    forall lib :: Good(cmp, installed, reqs, lib) ||
      (lib in mismatches && lib !in visited && Lookup(installed, lib) == Lookup(dirs, lib))
  }

  /** Visiting one more mismatch keeps the progress invariant. */
  lemma StepProgress(
    cmp: (Version, Version) -> Ordering, mismatches: map<Library, Mismatch>,
    render: Version -> Version, reqs: Contents, dirs: Contents, before: Contents, visited: set<Library>, lib: Library)
    requires ReflexiveCmp(cmp) && RenderPreservesVersion(cmp, render) && IsMismatchOf(mismatches, reqs, dirs)
    requires Progress(cmp, mismatches, reqs, dirs, before, visited)
    requires lib in mismatches && lib !in visited
    ensures Progress(cmp, mismatches, reqs, dirs,
                     ApplyAll(ActionsFor(cmp, render, lib, mismatches[lib]), reqs, before), visited + {lib})
  {
    var acts := ActionsFor(cmp, render, lib, mismatches[lib]);
    var req := Truthy(mismatches[lib].req);
    var dir := Truthy(mismatches[lib].dir);
    if req.None? {
      assert acts == [RemoveLibsDir, PipReinstallAll];
      ApplyReinstall(reqs, before);
    } else if dir.None? || cmp(req.value, dir.value) != Equal {
      ApplyPinned(acts, lib, render(req.value), reqs, before);
    } else {
      assert acts == [];
    }
  }

  /** Removing the directory and reinstalling everything installs the requirements. */
  lemma ApplyReinstall(reqs: Contents, before: Contents)
    ensures ApplyAll([RemoveLibsDir, PipReinstallAll], reqs, before) == reqs
  {
    var acts := [RemoveLibsDir, PipReinstallAll];
    assert ApplyAll(acts, reqs, before) == ApplyAll([PipReinstallAll], reqs, map[]);
    assert ApplyAll([PipReinstallAll], reqs, map[]) == ApplyAll([], reqs, reqs);
  }

  /** A pinned install, perhaps followed by a metadata removal, installs that version. */
  lemma ApplyPinned(acts: seq<Command>, lib: Library, v: Version, reqs: Contents, before: Contents)
    requires acts == [PipInstallPinned(lib, v)] || (|acts| == 2 && acts[0] == PipInstallPinned(lib, v) && acts[1].RemoveMetadata?)
    ensures ApplyAll(acts, reqs, before) == before[lib := v]
  {
    assert ApplyAll(acts, reqs, before) == ApplyAll(acts[1..], reqs, before[lib := v]);
    if |acts| == 2 {
      assert ApplyAll(acts[1..], reqs, before[lib := v]) == ApplyAll([], reqs, before[lib := v]);
    }
  }

  /** The libraries among the first `i` of the order. */
  function Visited(order: seq<Library>, i: nat): set<Library>
    requires i <= |order|
  {
    set k | 0 <= k < i :: order[k]
  }

  /** One more library of a duplicate-free order is one not visited before. */
  lemma VisitedSnoc(order: seq<Library>, i: nat)
    requires 0 < i <= |order|
    requires forall a, b :: 0 <= a < b < |order| ==> order[a] != order[b]
    ensures Visited(order, i) == Visited(order, i - 1) + {order[i - 1]}
    ensures order[i - 1] !in Visited(order, i - 1)
  {
  }

  lemma {:induction false} PlanProgress(
    cmp: (Version, Version) -> Ordering, mismatches: map<Library, Mismatch>,
    render: Version -> Version, reqs: Contents, dirs: Contents, order: seq<Library>, i: nat)
    requires ReflexiveCmp(cmp) && RenderPreservesVersion(cmp, render) && IsMismatchOf(mismatches, reqs, dirs)
    requires forall k :: 0 <= k < |order| ==> order[k] in mismatches
    requires forall a, b :: 0 <= a < b < |order| ==> order[a] != order[b]
    requires i <= |order|
    ensures Progress(cmp, mismatches, reqs, dirs,
                     ApplyAll(PlanInOrder(cmp, render, mismatches, order[..i]), reqs, dirs), Visited(order, i))
  {
    if i == 0 {
      assert order[..0] == [];
      forall lib | lib !in mismatches ensures Good(cmp, dirs, reqs, lib) { }
    } else {
      PlanProgress(cmp, mismatches, render, reqs, dirs, order, i - 1);
      assert order[..i][..i - 1] == order[..i - 1];
      var prefix := PlanInOrder(cmp, render, mismatches, order[..i - 1]);
      var lib := order[i - 1];
      var acts := ActionsFor(cmp, render, lib, mismatches[lib]);
      assert PlanInOrder(cmp, render, mismatches, order[..i]) == prefix + acts;
      ApplyAllConcat(prefix, acts, reqs, dirs);
      VisitedSnoc(order, i);
      StepProgress(cmp, mismatches, render, reqs, dirs, ApplyAll(prefix, reqs, dirs), Visited(order, i - 1), lib);
    }
  }

  /** Carrying out the rectification on the installed libraries leaves them in agreement
      with the requirements file, whichever of the two strategies is taken. */
  lemma RectifyReachesRequirements(
    cmp: (Version, Version) -> Ordering, render: Version -> Version, dirExists: bool,
    reqs: Contents, dirs: Contents, mismatches: map<Library, Mismatch>, order: seq<Library>)
    requires ReflexiveCmp(cmp) && RenderPreservesVersion(cmp, render)
    requires IsMismatchOf(mismatches, reqs, dirs) && Enumerates(order, mismatches)
    ensures var cmds := if |mismatches| >= 5
                        then (if dirExists then [RemoveLibsDir] else []) + [PipReinstallAll]
                        else PlanInOrder(cmp, render, mismatches, order);
      forall lib :: Good(cmp, ApplyAll(cmds, reqs, dirs), reqs, lib)
  {
    if |mismatches| < 5 {
      PlanReachesRequirements(cmp, render, reqs, dirs, mismatches, order);
    } else {
      ReinstallReachesRequirements(cmp, dirExists, reqs, dirs);
    }
  }

  /** Visiting every mismatch in order makes every library good. */
  lemma PlanReachesRequirements(
    cmp: (Version, Version) -> Ordering, render: Version -> Version,
    reqs: Contents, dirs: Contents, mismatches: map<Library, Mismatch>, order: seq<Library>)
    requires ReflexiveCmp(cmp) && RenderPreservesVersion(cmp, render)
    requires IsMismatchOf(mismatches, reqs, dirs) && Enumerates(order, mismatches)
    ensures forall lib :: Good(cmp, ApplyAll(PlanInOrder(cmp, render, mismatches, order), reqs, dirs), reqs, lib)
  {
    PlanProgress(cmp, mismatches, render, reqs, dirs, order, |order|);
    assert order[..|order|] == order;
    forall lib | lib in mismatches ensures exists k :: 0 <= k < |order| && order[k] == lib { }
  }

  /** The full reinstall installs exactly the requirements. */
  lemma ReinstallReachesRequirements(cmp: (Version, Version) -> Ordering, dirExists: bool, reqs: Contents, dirs: Contents)
    requires ReflexiveCmp(cmp)
    ensures var cmds := (if dirExists then [RemoveLibsDir] else []) + [PipReinstallAll];
      forall lib :: Good(cmp, ApplyAll(cmds, reqs, dirs), reqs, lib)
  {
    var tail := [PipReinstallAll];
    assert ApplyAll(tail, reqs, map[]) == reqs && ApplyAll(tail, reqs, dirs) == reqs by {
      assert ApplyAll(tail, reqs, map[]) == ApplyAll([], reqs, reqs);
      assert ApplyAll(tail, reqs, dirs) == ApplyAll([], reqs, reqs);
    }
    if dirExists {
      assert ([RemoveLibsDir] + tail)[1..] == tail;
    } else {
      assert [] + tail == tail;
    }
  }

  /** The file names _remove_metadata deletes from a directory listing, in listing order:
      those starting with "<library>-<version>" or with the same after replacing "-" by "_"
      in the library name. */
  function MetadataPrefixes(lib: Library, version: Version): seq<string> {
    [lib + "-" + version, ReplaceChar(lib, '-', '_') + "-" + version]
  }

  predicate IsMetadataOf(name: string, lib: Library, version: Version) {
    exists p :: p in MetadataPrefixes(lib, version) && StartsWith(name, p)
  }

  /** The listing's metadata entries for the library, in listing order. */
  function MetadataIn(listing: seq<string>, lib: Library, version: Version): (r: seq<string>)
    decreases |listing|
  {
    if listing == [] then []
    else
      var init := MetadataIn(listing[..|listing| - 1], lib, version);
      if IsMetadataOf(listing[|listing| - 1], lib, version) then init + [listing[|listing| - 1]] else init
  }

  /** The selection keeps exactly the metadata entries of the listing. */
  lemma {:induction false} MetadataInSelects(listing: seq<string>, lib: Library, version: Version)
    ensures forall x :: x in MetadataIn(listing, lib, version) <==> x in listing && IsMetadataOf(x, lib, version)
    ensures |MetadataIn(listing, lib, version)| <= |listing|
    decreases |listing|
  {
    if listing != [] {
      var init := listing[..|listing| - 1];
      MetadataInSelects(init, lib, version);
      assert listing == init + [listing[|listing| - 1]];
    }
  }

  /** _remove_metadata: the file names it deletes from the directory listing. */
  method RemoveMetadataFiles(listing: seq<string>, lib: Library, version: Version) returns (removed: seq<string>)
    ensures removed == MetadataIn(listing, lib, version)
  {
    var prefixes := MetadataPrefixes(lib, version);
    removed := [];
    var i := 0;
    while i < |listing|
      invariant 0 <= i <= |listing|
      invariant removed == MetadataIn(listing[..i], lib, version)
    {
      var filename := listing[i];
      assert listing[..i + 1][..i] == listing[..i];
      if StartsWith(filename, prefixes[0]) || StartsWith(filename, prefixes[1]) {
        removed := removed + [filename];
      }
      i := i + 1;
    }
    assert listing[..i] == listing;
  }
}
