/** The deterministic parts of the shell executor (pkg/executors/shell.go):
    the Windows path translation, the path resolver's handling of the cygpath
    result, the child's environment, the `sh` argument list and the mapping
    from exit status to outcome. Everything the Go code reads from the
    process or the operating system is a parameter. */
module ShellEnv {
  import opened Wrappers
  import opened GoStrings

  // ---------------------------------------------------------------------
  // Inputs

  /** config.ShuttleAction, reduced to the field the executor reads. */
  datatype ShuttleAction = ShuttleAction(shell: string)

  /** The project paths of config.ShuttleProjectContext. */
  datatype Project = Project(projectPath: string, localPlanPath: string, tempDirectoryPath: string)

  /** The script context: project, argument map and script name. */
  datatype ScriptContext = ScriptContext(project: Project, args: map<string, string>, scriptName: string)

  /** ActionExecutionContext */
  datatype ActionExecutionContext = ActionExecutionContext(action: ShuttleAction, scriptContext: ScriptContext)

  /** What the executor reads from its surroundings:
      `goos` is runtime.GOOS, `environ` is os.Environ(), `pathEnv` is
      os.Getenv("PATH"), `shuttlePath` is filepath.Abs(filepath.Dir(os.Args[0]))
      (its error is ignored in the source), and `cygpath` gives the combined
      output, or the error, of running a cygpath command line. */
  datatype Host = Host(
    goos: string,
    environ: seq<string>,
    pathEnv: string,
    shuttlePath: string,
    cygpath: string -> Result<string, string>)

  /** os.PathListSeparator for the platform. */
  function PathListSeparator(goos: string): char {
    if goos == "windows" then ';' else if goos == "plan9" then '\0' else ':'
  }

  // ---------------------------------------------------------------------
  // replaceWindowsPathSegmentIfNeeded

  /** On Windows every occurrence of the native project path in
      `originalPath` is replaced by its POSIX form; elsewhere the value
      passes through. */
  function ReplaceWindowsPathSegmentIfNeeded(goos: string, windowsPathSegment: string,
                                             shPathReplacement: string, originalPath: string): string
  {
    if goos == "windows" then ReplaceAll(originalPath, windowsPathSegment, shPathReplacement)
    else originalPath
  }

  lemma NonWindowsIsIdentity(goos: string, segment: string, replacement: string, original: string)
    requires goos != "windows"
    ensures ReplaceWindowsPathSegmentIfNeeded(goos, segment, replacement, original) == original
  {
  }

  /** A value that does not contain the native project path is left alone. */
  lemma WindowsAbsentSegment(segment: string, replacement: string, original: string)
    requires !Contains(original, segment)
    ensures ReplaceWindowsPathSegmentIfNeeded("windows", segment, replacement, original) == original
  {
    ReplaceAbsent(original, segment, replacement);
  }

  /** The project path itself becomes its POSIX form (`project`, `shuttle_project`). */
  lemma WindowsWholeSegment(segment: string, replacement: string)
    requires segment != []
    ensures ReplaceWindowsPathSegmentIfNeeded("windows", segment, replacement, segment) == replacement
  {
    ReplaceWhole(segment, replacement);
  }

  /** A path that starts with the project path starts, after translation,
      with its POSIX form; the rest is translated the same way. */
  lemma WindowsDerivedPath(segment: string, replacement: string, rest: string)
    requires segment != []
    ensures ReplaceWindowsPathSegmentIfNeeded("windows", segment, replacement, segment + rest)
         == replacement + ReplaceWindowsPathSegmentIfNeeded("windows", segment, replacement, rest)
  {
    ReplaceLeading(segment, rest, replacement);
  }

  // ---------------------------------------------------------------------
  // resolveShPathForWindows

  /** The raw command line handed to Windows for the conversion tool. */
  function CygpathCommandLine(projectPath: string): string {
    "cygpath -u \"" + projectPath + "\""
  }

  const ResolveErrorPrefix := "failed converting windows path to unix style path, "

  /** The POSIX form of the project path on Windows, "" elsewhere; a failing
      tool is an error. */
  function ResolveShPathForWindows(projectPath: string, goos: string,
                                   cygpath: string -> Result<string, string>): (r: Result<string, string>)
    ensures goos != "windows" ==> r == Ok("")
    ensures goos == "windows" ==>
      match cygpath(CygpathCommandLine(projectPath))
      case Err(e) => r == Err(ResolveErrorPrefix + e)
      case Ok(out) => r.Ok? && (r.value + "\n" == out || r.value == out)
                      && (r.value + "\n" == out <==> HasSuffix(out, "\n"))
  {
    if goos == "windows" then
      match cygpath(CygpathCommandLine(projectPath))
      case Err(e) => Err(ResolveErrorPrefix + e)
      case Ok(out) => Ok(TrimSuffix(out, "\n"))
    else Ok("")
  }

  /** Only one trailing newline is removed: a second one stays. */
  lemma ResolveKeepsSecondNewline(projectPath: string, cygpath: string -> Result<string, string>, path: string)
    requires cygpath(CygpathCommandLine(projectPath)) == Ok(path + "\n\n")
    ensures ResolveShPathForWindows(projectPath, "windows", cygpath) == Ok(path + "\n")
  {
    assert HasSuffix(path + "\n\n", "\n");
    assert (path + "\n\n")[..|path| + 1] == path + "\n";
  }

  // ---------------------------------------------------------------------
  // The environment

  /** fmt.Sprintf("%s=%s", name, value) */
  function Entry(name: string, value: string): string {
    name + "=" + value
  }

  /** The part of an entry before its first '='. */
  function NameOf(e: string): string {
    if e == [] || e[0] == '=' then [] else [e[0]] + NameOf(e[1..])
  }

  /** The part of an entry after its first '='. */
  function ValueOf(e: string): string {
    if e == [] then [] else if e[0] == '=' then e[1..] else ValueOf(e[1..])
  }

  /** An entry splits back into its name and value when the name has no '='. */
  lemma {:induction false} EntryParts(name: string, value: string)
    requires '=' !in name
    ensures NameOf(Entry(name, value)) == name
    ensures ValueOf(Entry(name, value)) == value
    ensures '=' in Entry(name, value)
  {
    var e := Entry(name, value);
    assert e[|name|] == '=';
    if name != [] {
      assert e[1..] == Entry(name[1..], value);
      EntryParts(name[1..], value);
    }
  }

  /** The value the child sees for `name`: that of the last entry with that
      name, as os/exec resolves duplicate keys. */
  function Lookup(env: seq<string>, name: string): Option<string> {
    if env == [] then None
    else
      var e := env[|env| - 1];
      if '=' in e && NameOf(e) == name then Some(ValueOf(e)) else Lookup(env[..|env| - 1], name)
  }

  /** A key order that lists each key of the map exactly once: the order in
      which `range` visited the argument map. */
  ghost predicate IsEnumeration(order: seq<string>, keys: set<string>) {
    && (forall i, j :: 0 <= i < j < |order| ==> order[i] != order[j])
    && (forall k :: k in order <==> k in keys)
  }

  /** One entry per argument, in the given key order. */
  function ArgEntries(order: seq<string>, args: map<string, string>): seq<string>
    requires forall k :: k in order ==> k in args
  {
    if order == [] then []
    else ArgEntries(order[..|order| - 1], args) + [Entry(order[|order| - 1], args[order[|order| - 1]])]
  }

  /** The names of the nine entries appended after the arguments, in order. */
  const FixedNames: seq<string> := ["shuttle_plan", "plan", "shuttle_tmp", "tmp", "project",
    "shuttle_project", "PATH", "SHUTTLE_PLANS_ALREADY_VALIDATED", "SHUTTLE_INTERACTIVE"]

  /** A project path as the child sees it. */
  function Translated(context: ActionExecutionContext, host: Host, shPath: string, path: string): string {
    ReplaceWindowsPathSegmentIfNeeded(host.goos, context.scriptContext.project.projectPath, shPath, path)
  }

  /** The values of the nine fixed entries, name by name: on Windows the
      plan, temp and project paths in POSIX form; the executable's directory
      put in front of PATH with the platform's separator; the plan path
      untranslated for SHUTTLE_PLANS_ALREADY_VALIDATED. */
  function FixedValues(context: ActionExecutionContext, host: Host, shPath: string): seq<string> {
    var p := context.scriptContext.project;
    var plan := Translated(context, host, shPath, p.localPlanPath);
    var tmp := Translated(context, host, shPath, p.tempDirectoryPath);
    var project := Translated(context, host, shPath, p.projectPath);
    [ plan, plan, tmp, tmp, project, project,
      host.shuttlePath + [PathListSeparator(host.goos)] + host.pathEnv,
      p.localPlanPath,
      "default" ]
  }

  /** The nine entries appended after the arguments. */
  function FixedEntries(context: ActionExecutionContext, host: Host, shPath: string): seq<string> {
    var values := FixedValues(context, host, shPath);
    seq(9, i requires 0 <= i < 9 => Entry(FixedNames[i], values[i]))
  }

  /** The environment setupCommandEnvironmentVariables assigns, for the order
      in which it visited the argument map, or the resolver's error. */
  function SetupEnv(context: ActionExecutionContext, host: Host, order: seq<string>): Result<seq<string>, string>
    requires IsEnumeration(order, context.scriptContext.args.Keys)
  {
    match ResolveShPathForWindows(context.scriptContext.project.projectPath, host.goos, host.cygpath)
    case Err(e) => Err(e)
    case Ok(shPath) =>
      Ok(host.environ + ArgEntries(order, context.scriptContext.args) + FixedEntries(context, host, shPath))
  }

  /** The entry executeShell appends after a successful setup. */
  function ContextIdEntry(contextId: string): string {
    Entry("SHUTTLE_CONTEXT_ID", contextId)
  }

  // ---------------------------------------------------------------------
  // Properties of the environment

  /** An enumeration of a key set is as long as the set is large. */
  lemma {:induction false} EnumerationLength(order: seq<string>, keys: set<string>)
    requires IsEnumeration(order, keys)
    ensures |order| == |keys|
    decreases |order|
  {
    if order != [] {
      var last := order[|order| - 1];
      var init := order[..|order| - 1];
      assert last !in init by {
        forall i | 0 <= i < |init| ensures init[i] != last {
          assert order[i] != order[|order| - 1];
        }
      }
      assert forall k :: k in init <==> k in keys - {last} by {
        forall k ensures k in init <==> k in keys - {last} {
          if k in keys - {last} {
            assert k in order;
            var i :| 0 <= i < |order| && order[i] == k;
            assert i < |order| - 1 && init[i] == k;
          }
        }
      }
      EnumerationLength(init, keys - {last});
    } else {
      assert forall k :: k !in keys;
      assert keys == {};
    }
  }

  lemma {:induction false} ArgEntriesLength(order: seq<string>, args: map<string, string>)
    requires forall k :: k in order ==> k in args
    ensures |ArgEntries(order, args)| == |order|
    decreases |order|
  {
    if order != [] {
      ArgEntriesLength(order[..|order| - 1], args);
    }
  }

  /** Entry i of the argument block is `order[i]=args[order[i]]`. */
  lemma {:induction false} ArgEntriesAt(order: seq<string>, args: map<string, string>, i: int)
    requires forall k :: k in order ==> k in args
    requires 0 <= i < |order|
    ensures |ArgEntries(order, args)| == |order|
    ensures ArgEntries(order, args)[i] == Entry(order[i], args[order[i]])
    decreases |order|
  {
    ArgEntriesLength(order, args);
    if i < |order| - 1 {
      ArgEntriesAt(order[..|order| - 1], args, i);
    }
  }

  /** Setup fails exactly when, on Windows, the conversion tool fails, and
      then with the resolver's error. */
  lemma SetupEnvFails(context: ActionExecutionContext, host: Host, order: seq<string>)
    requires IsEnumeration(order, context.scriptContext.args.Keys)
    ensures SetupEnv(context, host, order).Err?
        <==> host.goos == "windows" && host.cygpath(CygpathCommandLine(context.scriptContext.project.projectPath)).Err?
    ensures SetupEnv(context, host, order).Err? ==>
      SetupEnv(context, host, order).error
        == ResolveErrorPrefix + host.cygpath(CygpathCommandLine(context.scriptContext.project.projectPath)).error
  {
  }

  /** The environment is the inherited one, then one entry per argument
      (see ArgEntriesAt), then the nine fixed entries ending in
      SHUTTLE_INTERACTIVE=default. */
  lemma EnvLayout(context: ActionExecutionContext, host: Host, order: seq<string>)
    requires IsEnumeration(order, context.scriptContext.args.Keys)
    requires SetupEnv(context, host, order).Ok?
    ensures var env := SetupEnv(context, host, order).value;
      var n, a := |host.environ|, |context.scriptContext.args|;
      && |env| == n + a + 9
      && |order| == a
      && env[..n] == host.environ
      && env[n..n + a] == ArgEntries(order, context.scriptContext.args)
      && (forall i :: 0 <= i < 9 ==> NameOf(env[n + a + i]) == FixedNames[i])
      && env[n + a + 8] == "SHUTTLE_INTERACTIVE=default"
  {
    var args := context.scriptContext.args;
    var shPath := SetupEnvParts(context, host, order);
    var env := SetupEnv(context, host, order).value;
    var fixed := FixedEntries(context, host, shPath);
    var block := ArgEntries(order, args);
    EnumerationLength(order, args.Keys);
    ArgEntriesLength(order, args);
    FixedEntriesNamed(context, host, shPath);
    Layout(host.environ, block, fixed);
  }

  /** The index arithmetic of EnvLayout, for any three parts. */
  lemma Layout(environ: seq<string>, block: seq<string>, fixed: seq<string>)
    requires |fixed| == 9
    requires forall i :: 0 <= i < 9 ==> NameOf(fixed[i]) == FixedNames[i]
    requires fixed[8] == "SHUTTLE_INTERACTIVE=default"
    ensures var env := environ + block + fixed;
      var n, a := |environ|, |block|;
      && |env| == n + a + 9
      && env[..n] == environ
      && env[n..n + a] == block
      && (forall i :: 0 <= i < 9 ==> NameOf(env[n + a + i]) == FixedNames[i])
      && env[n + a + 8] == "SHUTTLE_INTERACTIVE=default"
  {
    ConcatIndex(environ, block, fixed);
  }

  /** The names of the fixed entries, and the last one in full. */
  lemma FixedEntriesNamed(context: ActionExecutionContext, host: Host, shPath: string)
    ensures var fixed := FixedEntries(context, host, shPath);
      && |fixed| == 9
      && (forall i :: 0 <= i < 9 ==> NameOf(fixed[i]) == FixedNames[i])
      && fixed[8] == "SHUTTLE_INTERACTIVE=default"
  {
    FixedEntriesParts(context, host, shPath);
    FixedEntriesListed(context, host, shPath);
  }

  /** A successful setup is the inherited environment, the argument block
      and the fixed entries for the resolved path. */
  lemma SetupEnvParts(context: ActionExecutionContext, host: Host, order: seq<string>) returns (shPath: string)
    requires IsEnumeration(order, context.scriptContext.args.Keys)
    requires SetupEnv(context, host, order).Ok?
    ensures ResolveShPathForWindows(context.scriptContext.project.projectPath, host.goos, host.cygpath) == Ok(shPath)
    ensures SetupEnv(context, host, order).value
         == host.environ + ArgEntries(order, context.scriptContext.args) + FixedEntries(context, host, shPath)
  {
    shPath := ResolveShPathForWindows(context.scriptContext.project.projectPath, host.goos, host.cygpath).value;
  }

  lemma ConcatIndex(x: seq<string>, y: seq<string>, z: seq<string>)
    ensures |x + y + z| == |x| + |y| + |z|
    ensures (x + y + z)[..|x|] == x
    ensures (x + y + z)[|x|..|x| + |y|] == y
    ensures forall i :: 0 <= i < |y| ==> (x + y + z)[|x| + i] == y[i]
    ensures forall i :: 0 <= i < |z| ==> (x + y + z)[|x| + |y| + i] == z[i]
  {
  }

  /** Unfolding helper: the fixed entries written out one by one, in the order they are appended. */
  lemma FixedEntriesListed(context: ActionExecutionContext, host: Host, shPath: string)
    ensures var p := context.scriptContext.project;
      var plan := Translated(context, host, shPath, p.localPlanPath);
      var tmp := Translated(context, host, shPath, p.tempDirectoryPath);
      var project := Translated(context, host, shPath, p.projectPath);
      FixedEntries(context, host, shPath)
        == [ Entry("shuttle_plan", plan), Entry("plan", plan),
             Entry("shuttle_tmp", tmp), Entry("tmp", tmp),
             Entry("project", project), Entry("shuttle_project", project),
             Entry("PATH", host.shuttlePath + [PathListSeparator(host.goos)] + host.pathEnv),
             Entry("SHUTTLE_PLANS_ALREADY_VALIDATED", p.localPlanPath),
             "SHUTTLE_INTERACTIVE=default" ]
  {
    assert Entry("SHUTTLE_INTERACTIVE", "default") == "SHUTTLE_INTERACTIVE=default";
  }

  /** The fixed names are '='-free and pairwise distinct. */
  lemma FixedNamesWellFormed()
    ensures |FixedNames| == 9
    ensures forall i :: 0 <= i < 9 ==> '=' !in FixedNames[i]
    ensures forall i, j :: 0 <= i < j < 9 ==> FixedNames[i] != FixedNames[j]
  {
  }

  /** Each fixed entry splits back into its name and its value. */
  lemma FixedEntriesParts(context: ActionExecutionContext, host: Host, shPath: string)
    ensures var f := FixedEntries(context, host, shPath);
      var v := FixedValues(context, host, shPath);
      && |f| == 9
      && forall i :: 0 <= i < 9 ==> '=' in f[i] && NameOf(f[i]) == FixedNames[i] && ValueOf(f[i]) == v[i]
  {
    var v := FixedValues(context, host, shPath);
    FixedNamesWellFormed();
    forall i | 0 <= i < 9
      ensures var e := Entry(FixedNames[i], v[i]); '=' in e && NameOf(e) == FixedNames[i] && ValueOf(e) == v[i]
    {
      EntryParts(FixedNames[i], v[i]);
    }
  }

  /** Looking a name up in a concatenation: the later part wins. */
  lemma {:induction false} LookupAppend(a: seq<string>, b: seq<string>, name: string)
    ensures Lookup(a + b, name) == if Lookup(b, name).Some? then Lookup(b, name) else Lookup(a, name)
    decreases |b|
  {
    if b == [] {
      assert a + b == a;
    } else {
      assert (a + b)[..|a + b| - 1] == a + b[..|b| - 1];
      LookupAppend(a, b[..|b| - 1], name);
    }
  }

  /** The last entry written for a name decides its value. */
  lemma LookupLastEntry(env: seq<string>, name: string, value: string, other: string)
    requires '=' !in name && '=' !in other
    ensures Lookup(env + [Entry(name, value)], name) == Some(value)
    ensures other != name ==> Lookup(env + [Entry(name, value)], other) == Lookup(env, other)
  {
    EntryParts(name, value);
    assert (env + [Entry(name, value)])[..|env|] == env;
  }

  /** Whatever the inherited environment and the arguments hold, the child
      sees exactly one value for each fixed name: the translated plan, temp
      and project paths under both their names, the extended PATH, the
      untranslated plan path and "default". */
  lemma FixedValuesWin(context: ActionExecutionContext, host: Host, order: seq<string>)
    requires IsEnumeration(order, context.scriptContext.args.Keys)
    requires SetupEnv(context, host, order).Ok?
    ensures var env := SetupEnv(context, host, order).value;
      var p := context.scriptContext.project;
      var shPath := ResolveShPathForWindows(p.projectPath, host.goos, host.cygpath).value;
      var plan := Translated(context, host, shPath, p.localPlanPath);
      var tmp := Translated(context, host, shPath, p.tempDirectoryPath);
      var project := Translated(context, host, shPath, p.projectPath);
      && Lookup(env, "shuttle_plan") == Lookup(env, "plan") == Some(plan)
      && Lookup(env, "shuttle_tmp") == Lookup(env, "tmp") == Some(tmp)
      && Lookup(env, "project") == Lookup(env, "shuttle_project") == Some(project)
      && Lookup(env, "PATH") == Some(host.shuttlePath + [PathListSeparator(host.goos)] + host.pathEnv)
      && Lookup(env, "SHUTTLE_PLANS_ALREADY_VALIDATED") == Some(p.localPlanPath)
      && Lookup(env, "SHUTTLE_INTERACTIVE") == Some("default")
  {
    var env := SetupEnv(context, host, order).value;
    var p := context.scriptContext.project;
    var shPath := ResolveShPathForWindows(p.projectPath, host.goos, host.cygpath).value;
    var fixed := FixedEntries(context, host, shPath);
    var values := FixedValues(context, host, shPath);
    var prefix := host.environ + ArgEntries(order, context.scriptContext.args);
    assert env == prefix + fixed;
    FixedEntriesParts(context, host, shPath);
    FixedNamesWellFormed();
    forall k | 0 <= k < 9 ensures Lookup(env, FixedNames[k]) == Some(values[k]) {
      DistinctLookup(fixed, FixedNames, k);
      LookupAppend(prefix, fixed, FixedNames[k]);
    }
    assert Lookup(env, FixedNames[0]) == Lookup(env, FixedNames[1]) == Some(values[0]);
    assert Lookup(env, FixedNames[2]) == Lookup(env, FixedNames[3]) == Some(values[2]);
    assert Lookup(env, FixedNames[4]) == Lookup(env, FixedNames[5]) == Some(values[4]);
    assert Lookup(env, FixedNames[6]) == Some(values[6]);
    assert Lookup(env, FixedNames[7]) == Some(values[7]);
    assert Lookup(env, FixedNames[8]) == Some(values[8]);
  }

  /** Among entries whose names are pairwise distinct, the lookup of entry
      k's name returns entry k's value. */
  lemma {:induction false} DistinctLookup(env: seq<string>, names: seq<string>, k: int)
    requires |env| == |names| && 0 <= k < |env|
    requires forall i, j :: 0 <= i < j < |names| ==> names[i] != names[j]
    requires forall i :: 0 <= i < |env| ==> NameOf(env[i]) == names[i] && '=' in env[i]
    ensures Lookup(env, names[k]) == Some(ValueOf(env[k]))
    decreases |env|
  {
    var last := |env| - 1;
    if k != last {
      assert names[last] != names[k];
      DistinctLookup(env[..last], names[..last], k);
    }
  }

  /** With '='-free keys, the child sees each argument's own value unless a
      fixed entry overrides the name. */
  lemma ArgValuesSeen(context: ActionExecutionContext, host: Host, order: seq<string>, k: string)
    requires IsEnumeration(order, context.scriptContext.args.Keys)
    requires SetupEnv(context, host, order).Ok?
    requires forall key :: key in context.scriptContext.args ==> '=' !in key
    requires k in context.scriptContext.args && k !in FixedNames
    ensures Lookup(SetupEnv(context, host, order).value, k) == Some(context.scriptContext.args[k])
  {
    var args := context.scriptContext.args;
    var env := SetupEnv(context, host, order).value;
    var p := context.scriptContext.project;
    var shPath := ResolveShPathForWindows(p.projectPath, host.goos, host.cygpath).value;
    var fixed := FixedEntries(context, host, shPath);
    var block := ArgEntries(order, args);
    assert env == (host.environ + block) + fixed;
    FixedEntriesParts(context, host, shPath);
    LookupMissing(fixed, k);
    LookupAppend(host.environ + block, fixed, k);
    ArgLookup(order, args, k);
    LookupAppend(host.environ, block, k);
  }

  /** No entry carries the name, so the lookup finds nothing. */
  lemma {:induction false} LookupMissing(env: seq<string>, name: string)
    requires forall i :: 0 <= i < |env| ==> NameOf(env[i]) != name
    ensures Lookup(env, name) == None
    decreases |env|
  {
    if env != [] {
      LookupMissing(env[..|env| - 1], name);
    }
  }

  /** In the argument block, each key's lookup gives its own value. */
  lemma {:induction false} ArgLookup(order: seq<string>, args: map<string, string>, k: string)
    requires forall x :: x in order ==> x in args && '=' !in x
    requires forall i, j :: 0 <= i < j < |order| ==> order[i] != order[j]
    requires k in order
    ensures Lookup(ArgEntries(order, args), k) == Some(args[k])
    decreases |order|
  {
    var last := order[|order| - 1];
    var init := order[..|order| - 1];
    LookupLastEntry(ArgEntries(init, args), last, args[last], k);
    if last != k {
      assert k in init by {
        var i :| 0 <= i < |order| && order[i] == k;
        assert i != |order| - 1;
        assert init[i] == k;
      }
      ArgLookup(init, args, k);
    }
  }

  /** After the context id is appended, the fixed names keep their values
      and SHUTTLE_CONTEXT_ID carries the id. */
  lemma ContextIdAppended(env: seq<string>, contextId: string, name: string)
    requires name in FixedNames
    ensures Lookup(env + [ContextIdEntry(contextId)], "SHUTTLE_CONTEXT_ID") == Some(contextId)
    ensures Lookup(env + [ContextIdEntry(contextId)], name) == Lookup(env, name)
  {
    LookupLastEntry(env, "SHUTTLE_CONTEXT_ID", contextId, name);
  }

  /** Outside Windows the paths reach the child untranslated. */
  lemma NonWindowsPaths(context: ActionExecutionContext, host: Host, shPath: string)
    requires host.goos != "windows"
    ensures var p := context.scriptContext.project;
      && Translated(context, host, shPath, p.localPlanPath) == p.localPlanPath
      && Translated(context, host, shPath, p.tempDirectoryPath) == p.tempDirectoryPath
      && Translated(context, host, shPath, p.projectPath) == p.projectPath
  {
  }

  // ---------------------------------------------------------------------
  // The command line

  /** The arguments of `sh`: change into the project, then run the script. */
  function CmdArgs(projectPath: string, shell: string): (args: seq<string>)
    ensures |args| == 2 && args[0] == "-c"
  {
    ["-c", "cd '" + projectPath + "'; " + shell]
  }

  /** The first index of `c` in `s`. */
  function IndexOfChar(s: string, c: char): (r: Option<nat>)
    ensures r.Some? ==> r.value < |s| && s[r.value] == c && forall i :: 0 <= i < r.value ==> s[i] != c
    ensures r.None? ==> c !in s
  {
    if s == [] then None
    else if s[0] == c then Some(0)
    else match IndexOfChar(s[1..], c)
      case None => None
      case Some(i) => Some(i + 1)
  }

  /** How a POSIX shell reads the script text: the quoted directory of the
      leading `cd`, and the script after it. */
  function ParseCdScript(text: string): Option<(string, string)> {
    if !HasPrefix(text, "cd '") then None
    else
      var rest := text[4..];
      match IndexOfChar(rest, '\'')
      case None => None
      case Some(j) => if HasPrefix(rest[j + 1..], "; ") then Some((rest[..j], rest[j + 3..])) else None
  }

  /** Without a single quote in the project path, the shell changes into
      exactly that path and then runs exactly the script. */
  lemma CmdArgsRoundTrip(projectPath: string, shell: string)
    requires '\'' !in projectPath
    ensures ParseCdScript(CmdArgs(projectPath, shell)[1]) == Some((projectPath, shell))
  {
    var text := CmdArgs(projectPath, shell)[1];
    assert text == "cd '" + (projectPath + "'; " + shell);
    var rest := text[4..];
    assert rest == projectPath + "'; " + shell;
    var j := IndexOfChar(rest, '\'');
    assert rest[|projectPath|] == '\'';
    assert j.Some?;
    assert forall i :: 0 <= i < |projectPath| ==> rest[i] == projectPath[i];
    assert j.value == |projectPath|;
    assert rest[|projectPath| + 1..] == "; " + shell;
    assert rest[..|projectPath|] == projectPath;
    assert rest[|projectPath| + 3..] == shell;
  }

  /** The documented limitation: a quote in the project path ends the
      quoted directory early. */
  lemma QuoteInPathBreaksCd()
    ensures ParseCdScript(CmdArgs("it's", "make")[1]) != Some(("it's", "make"))
  {
    var text := CmdArgs("it's", "make")[1];
    assert text == "cd 'it's'; make";
    var rest := text[4..];
    assert rest == "it's'; make";
    assert rest[2] == '\'';
    var j := IndexOfChar(rest, '\'');
    assert j.Some? && j.value <= 2;
  }

  // ---------------------------------------------------------------------
  // Outcome of a finished script

  /** errors.NewExitCode(code, format, args...) */
  datatype ExitCodeError = ExitCodeError(code: int, message: string)

  /** A positive exit status is a script failure with classification code 4
      whose message names the script and its text and quotes the status;
      any other status is success. */
  function ClassifyExit(scriptName: string, shell: string, exit: int): (r: Option<ExitCodeError>)
    ensures r.Some? <==> exit > 0
    ensures r.Some? ==> r.value.code == 4
    ensures r.Some? ==> Contains(r.value.message, scriptName) && Contains(r.value.message, shell)
    ensures r.Some? ==> HasSuffix(r.value.message, FormatNat(exit))
  {
    if exit > 0 then
      var head := "Failed executing script `";
      var middle := "`: shell script `";
      var tail := "`\nExit code: ";
      var message := head + scriptName + middle + shell + tail + FormatNat(exit);
      assert OccursAt(message, scriptName, |head|);
      assert message[|head + scriptName + middle|..|head + scriptName + middle| + |shell|] == shell;
      assert OccursAt(message, shell, |head + scriptName + middle|);
      Some(ExitCodeError(4, message))
    else None
  }

  /** The exit status can be read back from the end of the message. */
  lemma ExitCodeReadable(scriptName: string, shell: string, exit: int)
    requires exit > 0
    ensures var m := ClassifyExit(scriptName, shell, exit).value.message;
      var d := |FormatNat(exit)|;
      && d <= |m|
      && (forall i :: |m| - d <= i < |m| ==> IsDigit(m[i]))
      && ParseNat(m[|m| - d..]) == exit
  {
    ParseFormatNat(exit);
  }
}
