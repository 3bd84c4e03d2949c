/** `InnoScript`: the InnoSetup script written for a py2exe build, and the
    command line that compiles it. */
module InnoSetup {
  import opened Text
  import opened Paths

  /** The `[Files]` entry of one artifact, installed under its own
      directory relative to the application root. */
  function FileLine(path: string, sep: char): string {
    "Source: \"" + path + "\"; DestDir: \"{app}\\" + Dirname(path, sep) + "\"; Flags: ignoreversion"
  }

  /** A `[Run]` or `[UninstallRun]` entry running an installed script. */
  function RunLine(path: string, parameter: string): string {
    "Filename: \"{app}\\" + path + "\"; WorkingDir: \"{app}\"; Parameters: \"" + parameter + "\""
  }

  function FileLines(paths: seq<string>, sep: char): (lines: seq<string>)
    ensures |lines| == |paths|
    ensures forall i :: 0 <= i < |paths| ==> lines[i] == FileLine(paths[i], sep)
  {
    seq(|paths|, i requires 0 <= i < |paths| => FileLine(paths[i], sep))
  }

  function RunLines(scripts: seq<string>, parameter: string): (lines: seq<string>)
    ensures |lines| == |scripts|
    ensures forall i :: 0 <= i < |scripts| ==> lines[i] == RunLine(scripts[i], parameter)
  {
    seq(|scripts|, i requires 0 <= i < |scripts| => RunLine(scripts[i], parameter))
  }

  /** Python truthiness of `install_scripts`: `None` and `[]` are false. */
  predicate HasScripts(installScripts: Option<seq<string>>) {
    installScripts.Some? && |installScripts.value| > 0
  }

  /** The warning comment and the `[Setup]` section. */
  function SetupSection(name: string, version: string): (lines: seq<string>)
    ensures |lines| == 10
  {
    [ "; WARNING: " + "This script has been created by py2exe. " + "Changes to this script",
      "; will be overwritten " + "the next time py2exe is run!",
      "[Setup]",
      "AppName=" + name,
      "AppVerName=" + name + " " + version,
      "DefaultDirName={pf}\\" + name,
      "DefaultGroupName=" + name,
      "OutputBaseFilename=" + name + "-" + version + "-setup",
      "ChangesEnvironment=yes",
      "" ]
  }

  const DocumentationIcon := "Name: \"{group}\\Documentation\"; " + "Filename: \"{app}\\docs\\index.html\";"
  const PromptIcon := "Name: \"{group}\\" + "Translate Toolkit Command Prompt\"; " + "Filename: \"cmd.exe\""
  /** The registry entry that appends the application directory to the
      user's `Path`. */
  const PathEntry := "Root: HKCU; Subkey: \"Environment\"; " + "ValueType: expandsz; ValueName: \"Path\"; "
                     + "ValueData: \"{reg:HKCU\\Environment," + "Path|};{app};\""

  function UninstallIcon(name: string): string {
    "Name: \"{group}\\Uninstall " + name + "\"; Filename: \"{uninstallexe}\""
  }

  /** The `[Icons]` and `[Registry]` sections, each followed by a blank
      line. */
  function FixedSections(name: string): (lines: seq<string>)
    ensures |lines| == 8
  {
    ["[Icons]", DocumentationIcon, PromptIcon, UninstallIcon(name), "", "[Registry]", PathEntry, ""]
  }

  /** The `[Run]` and `[UninstallRun]` sections. */
  function RunSections(scripts: seq<string>): (lines: seq<string>)
    ensures |lines| == 3 + 2 * |scripts|
  {
    ["[Run]"] + RunLines(scripts, "-install") + [""]
    + ["[UninstallRun]"] + RunLines(scripts, "-remove")
  }

  /** The run sections when `install_scripts` is truthy, else nothing. */
  function OptionalRunSections(installScripts: Option<seq<string>>): (lines: seq<string>)
    ensures |lines| == if HasScripts(installScripts) then 3 + 2 * |installScripts.value| else 0
  {
    if HasScripts(installScripts) then RunSections(installScripts.value) else []
  }

  /** Everything `InnoScript.create` prints before the optional run
      sections. */
  function DocumentBody(name: string, version: string, files: seq<string>, sep: char)
    : (lines: seq<string>)
    ensures |lines| == 20 + |files|
  {
    SetupSection(name, version) + ["[Files]"] + FileLines(files, sep) + [""] + FixedSections(name)
  }

  /** The lines `InnoScript.create` prints, a blank `print()` being "". */
  function RenderScript(name: string, version: string, files: seq<string>,
                        installScripts: Option<seq<string>>, sep: char): seq<string>
  {
    DocumentBody(name, version, files, sep) + OptionalRunSections(installScripts) + [""]
  }

  lemma BodyLayout(name: string, version: string, files: seq<string>, sep: char)
    ensures var lines, n := DocumentBody(name, version, files, sep), |files|;
            && lines[2] == "[Setup]"
            && lines[7] == "OutputBaseFilename=" + name + "-" + version + "-setup"
            && lines[10] == "[Files]"
            && lines[11..11 + n] == FileLines(files, sep)
            && lines[11 + n] == ""
            && lines[12 + n] == "[Icons]"
            && lines[17 + n] == "[Registry]"
  {
    var setup := SetupSection(name, version);
    var fl := FileLines(files, sep);
    var fixed := FixedSections(name);
    var lines := DocumentBody(name, version, files, sep);
    var n := |files|;
    assert lines == (setup + ["[Files]"]) + fl + ([""] + fixed);
    assert lines[11..11 + n] == fl;
    assert lines[11 + n..] == [""] + fixed;
  }

  lemma RunLayout(scripts: seq<string>)
    ensures var lines, m := RunSections(scripts), |scripts|;
            && lines[0] == "[Run]"
            && lines[1..1 + m] == RunLines(scripts, "-install")
            && lines[1 + m] == ""
            && lines[2 + m] == "[UninstallRun]"
            && lines[3 + m..] == RunLines(scripts, "-remove")
  {
    var install := RunLines(scripts, "-install");
    var remove := RunLines(scripts, "-remove");
    var lines := RunSections(scripts);
    var m := |scripts|;
    var head := ["[Run]"] + install;
    var middle := [""] + ["[UninstallRun]"];
    assert lines == head + middle + remove;
    assert |head| == 1 + m && |middle| == 2;
    assert lines[..1 + m] == head;
    assert head[1..] == install;
    assert lines[1 + m] == middle[0] && lines[2 + m] == middle[1];
    assert lines[3 + m..] == remove;
  }

  /** The document is the body, then the run sections when there are
      install scripts, then a final blank line. */
  lemma ScriptParts(name: string, version: string, files: seq<string>,
                    installScripts: Option<seq<string>>, sep: char)
    ensures var lines, n := RenderScript(name, version, files, installScripts, sep), |files|;
            && |lines| == 21 + n + (if HasScripts(installScripts) then 3 + 2 * |installScripts.value| else 0)
            && lines[..20 + n] == DocumentBody(name, version, files, sep)
            && lines[|lines| - 1] == ""
            && (HasScripts(installScripts) ==>
                  lines[20 + n..|lines| - 1] == RunSections(installScripts.value))
  {
    var body := DocumentBody(name, version, files, sep);
    var run := OptionalRunSections(installScripts);
    var lines := RenderScript(name, version, files, installScripts, sep);
    assert lines[..20 + |files|] == body;
    assert lines[20 + |files|..|lines| - 1] == run;
  }

  /** A section header is a line that starts with '['. */
  predicate IsHeader(line: string) {
    |line| > 0 && line[0] == '['
  }

  /** The section headers of a document, in order. */
  function Headers(lines: seq<string>): seq<string> {
    if |lines| == 0 then []
    else (if IsHeader(lines[0]) then [lines[0]] else []) + Headers(lines[1..])
  }

  lemma {:induction false} HeadersAppend(a: seq<string>, b: seq<string>)
    ensures Headers(a + b) == Headers(a) + Headers(b)
  {
    if |a| > 0 {
      assert (a + b)[1..] == a[1..] + b;
      HeadersAppend(a[1..], b);
    } else {
      assert a + b == b;
    }
  }

  lemma {:induction false} NoHeaders(lines: seq<string>)
    requires forall k :: 0 <= k < |lines| ==> !IsHeader(lines[k])
    ensures Headers(lines) == []
  {
    if |lines| > 0 {
      NoHeaders(lines[1..]);
    }
  }

  lemma SetupHeaders(name: string, version: string)
    ensures Headers(SetupSection(name, version)) == ["[Setup]"]
  {
    var setup := SetupSection(name, version);
    assert setup == setup[..2] + ([setup[2]] + setup[3..]);
    assert setup[0][0] == ';' && setup[1][0] == ';';
    NoHeaders(setup[..2]);
    NoHeaders(setup[3..]);
    HeadersAppend([setup[2]], setup[3..]);
    HeadersAppend(setup[..2], [setup[2]] + setup[3..]);
  }

  lemma FixedHeaders(name: string)
    ensures Headers(FixedSections(name)) == ["[Icons]", "[Registry]"]
  {
    var icons := [DocumentationIcon, PromptIcon, UninstallIcon(name), ""];
    var registry := [PathEntry, ""];
    assert DocumentationIcon[0] == PromptIcon[0] == UninstallIcon(name)[0] == 'N';
    assert PathEntry[0] == 'R';
    NoHeaders(icons);
    NoHeaders(registry);
    assert FixedSections(name) == (["[Icons]"] + icons) + (["[Registry]"] + registry);
    HeadersAppend(["[Icons]"], icons);
    HeadersAppend(["[Registry]"], registry);
    HeadersAppend(["[Icons]"] + icons, ["[Registry]"] + registry);
  }

  lemma BodyHeaders(name: string, version: string, files: seq<string>, sep: char)
    ensures Headers(DocumentBody(name, version, files, sep))
         == ["[Setup]", "[Files]", "[Icons]", "[Registry]"]
  {
    var setup := SetupSection(name, version);
    var fl := FileLines(files, sep);
    var fixed := FixedSections(name);
    SetupHeaders(name, version);
    FixedHeaders(name);
    NoHeaders(fl);
    HeadersAppend(setup, ["[Files]"]);
    HeadersAppend(setup + ["[Files]"], fl);
    HeadersAppend(setup + ["[Files]"] + fl, [""]);
    HeadersAppend(setup + ["[Files]"] + fl + [""], fixed);
  }

  lemma RunHeaders(scripts: seq<string>)
    ensures Headers(RunSections(scripts)) == ["[Run]", "[UninstallRun]"]
  {
    var install := RunLines(scripts, "-install");
    var remove := RunLines(scripts, "-remove");
    NoHeaders(install);
    NoHeaders(remove);
    HeadersAppend(["[Run]"], install);
    HeadersAppend(["[Run]"] + install, [""]);
    HeadersAppend(["[Run]"] + install + [""], ["[UninstallRun]"]);
    HeadersAppend(["[Run]"] + install + [""] + ["[UninstallRun]"], remove);
  }

  /** The document's sections come in the order `[Setup]`, `[Files]`,
      `[Icons]`, `[Registry]`, followed by `[Run]` and `[UninstallRun]`
      exactly when there are install scripts; no other line is a header. */
  lemma ScriptSections(name: string, version: string, files: seq<string>,
                       installScripts: Option<seq<string>>, sep: char)
    ensures Headers(RenderScript(name, version, files, installScripts, sep))
         == ["[Setup]", "[Files]", "[Icons]", "[Registry]"]
            + (if HasScripts(installScripts) then ["[Run]", "[UninstallRun]"] else [])
  {
    var body := DocumentBody(name, version, files, sep);
    var run := OptionalRunSections(installScripts);
    BodyHeaders(name, version, files, sep);
    if HasScripts(installScripts) {
      RunHeaders(installScripts.value);
    } else {
      assert run == [];
    }
    HeadersAppend(body, run);
    HeadersAppend(body + run, [""]);
  }

  /** A top-level artifact (no separator in its path) is installed into the
      application root itself: its directory is empty, leaving `{app}\`. */
  lemma TopLevelArtifact(path: string, sep: char)
    requires sep !in path
    ensures FileLine(path, sep)
         == "Source: \"" + path + "\"; DestDir: \"{app}\\" + "\"; Flags: ignoreversion"
  {
    assert Dirname(path, sep) == "";
  }

  /** A nested artifact is installed into its own parent directory. */
  lemma NestedArtifact(parts: seq<string>, sep: char)
    requires |parts| >= 2
    requires forall k :: 0 <= k < |parts| ==> parts[k] != "" && sep !in parts[k]
    ensures FileLine(Intercalate(parts, sep), sep)
         == "Source: \"" + Intercalate(parts, sep) + "\"; DestDir: \"{app}\\"
            + Intercalate(parts[..|parts| - 1], sep) + "\"; Flags: ignoreversion"
  {
    DirnameOfSegments(parts, sep);
  }

  /** The compile command used when the registry holds none. */
  const FallbackCompileCommand := "compil32.exe " + "\"%1\""

  /** `getcompilecommand`: the registered compile command when the registry
      lookup succeeds, else the fallback. */
  function CompileCommandTemplate(registered: Option<string>): string {
    if registered.Some? then registered.value else FallbackCompileCommand
  }

  /** With the fallback command, the script path is substituted for the
      quoted placeholder, quotes included. */
  lemma FallbackCommand(pathname: string)
    ensures ReplaceAll(FallbackCompileCommand, "\"%1\"", pathname) == "compil32.exe " + pathname
  {
    var a := "compil32.exe ";
    assert FallbackCompileCommand + "" == FallbackCompileCommand;
    assert '"' !in a;
    ReplaceAllAfter(a, "\"%1\"", pathname, "");
  }

  /** A registered command of the form `<a>"%1"<b>`, where `<a>` holds no
      `%` (it may hold quotes, as a quoted program path does): the script
      path takes the place of the quoted placeholder, quotes included, and
      `<b>` is kept when it holds no further placeholder. */
  lemma RegisteredCommand(a: string, b: string, pathname: string)
    requires '%' !in a
    ensures ReplaceAll(a + "\"%1\"" + b, "\"%1\"", pathname)
         == a + pathname + ReplaceAll(b, "\"%1\"", pathname)
    ensures !Occurs(b, "\"%1\"") ==> ReplaceAll(a + "\"%1\"" + b, "\"%1\"", pathname) == a + pathname + b
  {
    ReplaceAllAfterSecond(a, "\"%1\"", pathname, b);
    if !Occurs(b, "\"%1\"") {
      ReplaceAllAbsent(b, "\"%1\"", pathname);
    }
  }

  /** The lines `create` prints, in the order it prints them. */
  method PrintScript(name: string, version: string, files: seq<string>,
                     installScripts: Option<seq<string>>, sep: char)
    returns (lines: seq<string>)
    ensures lines == RenderScript(name, version, files, installScripts, sep)
  {
    lines := SetupSection(name, version) + ["[Files]"];
    lines := PrintFileLines(lines, files, sep);
    lines := lines + [""] + FixedSections(name);
    if HasScripts(installScripts) {
      var scripts := installScripts.value;
      ghost var body := lines;
      lines := lines + ["[Run]"];
      lines := PrintRunLines(lines, scripts, "-install");
      lines := lines + [""] + ["[UninstallRun]"];
      lines := PrintRunLines(lines, scripts, "-remove");
      assert lines == body + RunSections(scripts);
    }
    lines := lines + [""];
  }

  /** Where `create` puts the script by default: `<name>.iss` joined onto
      `dist_dir`, which already ends with the separator. */
  lemma DefaultScriptPath(distDir: string, name: string, sep: char)
    requires EndsWith(distDir, [sep])
    ensures !StartsWith(name + ".iss", [sep]) ==>
              JoinTwo(distDir, name + "." + "iss", sep) == distDir + name + ".iss"
    ensures StartsWith(name + ".iss", [sep]) ==>
              JoinTwo(distDir, name + "." + "iss", sep) == name + ".iss"
  {
    var fileName := name + "." + "iss";
    assert fileName == name + ".iss";
    assert fileName[..1] == [fileName[0]];
    assert distDir[|distDir| - 1] == sep;
    assert distDir + fileName == distDir + name + ".iss";
  }

  /** The loop of `create` over the artifacts: one `[Files]` line each,
      printed after `lines`. */
  method PrintFileLines(lines: seq<string>, files: seq<string>, sep: char)
    returns (printed: seq<string>)
    ensures printed == lines + FileLines(files, sep)
  {
    printed := lines;
    for i := 0 to |files|
      invariant printed == lines + FileLines(files[..i], sep)
    {
      assert FileLines(files[..i + 1], sep) == FileLines(files[..i], sep) + [FileLine(files[i], sep)];
      printed := printed + [FileLine(files[i], sep)];
    }
    assert files[..|files|] == files;
  }

  /** A loop of `create` over the install scripts: one run line each,
      printed after `lines`. */
  method PrintRunLines(lines: seq<string>, scripts: seq<string>, parameter: string)
    returns (printed: seq<string>)
    ensures printed == lines + RunLines(scripts, parameter)
  {
    printed := lines;
    for i := 0 to |scripts|
      invariant printed == lines + RunLines(scripts[..i], parameter)
    {
      assert RunLines(scripts[..i + 1], parameter)
          == RunLines(scripts[..i], parameter) + [RunLine(scripts[i], parameter)];
      printed := printed + [RunLine(scripts[i], parameter)];
    }
    assert scripts[..|scripts|] == scripts;
  }

  /** The text `str(dist_dir)` with a trailing separator. */
  function WithTrailingSep(dir: string, sep: char): (r: string)
    ensures EndsWith(r, [sep])
    ensures StartsWith(r, dir) && |r| <= |dir| + 1
    ensures EndsWith(dir, [sep]) ==> r == dir
  {
    if EndsWith(dir, [sep]) then dir else dir + [sep]
  }

  class InnoScript {
    const sep: char
    var name: string
    var libDir: string
    var distDir: string
    var version: string
    var exeFiles: seq<string>
    var otherFiles: seq<string>
    var installScripts: Option<seq<string>>
    /** Where `Create` wrote the script; absent until it has run. */
    var pathname: Option<string>

    /** `InnoScript.__init__`: `dist_dir` is made to end with the separator
        and every artifact path is made relative to it; an artifact outside
        `dist_dir` fails the `assert` in `chop`. */
    constructor (name: string, libDir: string, distDir: string, exeFiles: seq<string>,
                 otherFiles: seq<string>, installScripts: Option<seq<string>>,
                 version: string, sep: char)
      requires forall p :: p in exeFiles ==> StartsWith(p, WithTrailingSep(distDir, sep))
      requires forall p :: p in otherFiles ==> StartsWith(p, WithTrailingSep(distDir, sep))
      ensures this.sep == sep && this.name == name && this.libDir == libDir
      ensures this.version == version && this.installScripts == installScripts
      ensures this.distDir == WithTrailingSep(distDir, sep)
      ensures |this.exeFiles| == |exeFiles|
      ensures forall i :: 0 <= i < |exeFiles| ==> this.distDir + this.exeFiles[i] == exeFiles[i]
      ensures |this.otherFiles| == |otherFiles|
      ensures forall i :: 0 <= i < |otherFiles| ==> this.distDir + this.otherFiles[i] == otherFiles[i]
      ensures pathname == None
      ensures Valid()
    {
      this.sep := sep;
      this.libDir := libDir;
      this.distDir := distDir;
      this.name := name;
      this.version := version;
      this.installScripts := installScripts;
      this.pathname := None;
      new;
      if !EndsWith(this.distDir, [sep]) {
        this.distDir := this.distDir + [sep];
      }
      assert this.distDir == WithTrailingSep(distDir, sep);
      assert Valid();
      this.exeFiles := ChopAll(exeFiles);
      this.otherFiles := ChopAll(otherFiles);
    }

    /** After construction `dist_dir` ends with the separator. */
    predicate Valid()
      reads this
    {
      EndsWith(distDir, [sep])
    }

    /** `chop`: the part of `path` after `dist_dir`. */
    function Chop(path: string): (r: string)
      reads this
      requires StartsWith(path, distDir)
      ensures distDir + r == path
    {
      path[|distDir|..]
    }

    /** `[self.chop(p) for p in paths]`. */
    method ChopAll(paths: seq<string>) returns (chopped: seq<string>)
      requires forall p :: p in paths ==> StartsWith(p, distDir)
      ensures |chopped| == |paths|
      ensures forall i :: 0 <= i < |paths| ==> distDir + chopped[i] == paths[i]
    {
      chopped := [];
      for i := 0 to |paths|
        invariant |chopped| == i
        invariant forall j :: 0 <= j < i ==> distDir + chopped[j] == paths[j]
      {
        chopped := chopped + [Chop(paths[i])];
      }
    }

    /** `create`: records where the script goes (by default `<name>.iss`
        in `dist_dir`, spaces turned into underscores) and returns the lines
        it prints there, in order. */
    method Create(target: Option<string>) returns (lines: seq<string>)
      requires Valid()
      modifies this`pathname
      ensures target.Some? ==> pathname == target
      ensures target.None? && !StartsWith(name + ".iss", [sep]) ==>
                pathname == Some(ReplaceChar(distDir + name + ".iss", ' ', '_'))
      ensures target.None? && StartsWith(name + ".iss", [sep]) ==>
                pathname == Some(ReplaceChar(name + ".iss", ' ', '_'))
      ensures lines == RenderScript(name, version, exeFiles + otherFiles, installScripts, sep)
    {
      if target.None? {
        var fileName := name + "." + "iss";
        DefaultScriptPath(distDir, name, sep);
        pathname := Some(ReplaceChar(JoinTwo(distDir, fileName, sep), ' ', '_'));
      } else {
        pathname := target;
      }
      lines := PrintScript(name, version, exeFiles + otherFiles, installScripts, sep);
    }

    /** `compile`: the command run through the shell, and what happens when
        it exits with `exitStatus`: on failure two messages are printed and
        the script is opened for manual compilation. */
    method Compile(registered: Option<string>, exitStatus: int)
      returns (command: string, messages: seq<string>, opensScript: bool)
      requires pathname.Some?
      ensures registered.None? ==> command == "compil32.exe " + pathname.value
      ensures registered.Some? && !Occurs(registered.value, "\"%1\"") ==> command == registered.value
      ensures command == ReplaceAll(CompileCommandTemplate(registered), "\"%1\"", pathname.value)
      ensures opensScript <==> exitStatus != 0
      ensures exitStatus == 0 ==> messages == []
      ensures exitStatus != 0 ==>
                messages == ["Error compiling iss file",
                             "Opening iss file, use InnoSetup GUI to compile manually"]
    {
      var shellCommand := CompileCommandTemplate(registered);
      command := ReplaceAll(shellCommand, "\"%1\"", pathname.value);
      if registered.None? {
        FallbackCommand(pathname.value);
      } else if !Occurs(registered.value, "\"%1\"") {
        ReplaceAllAbsent(registered.value, "\"%1\"", pathname.value);
      }
      messages := [];
      opensScript := false;
      if exitStatus != 0 {
        messages := ["Error compiling iss file",
                     "Opening iss file, use InnoSetup GUI to compile manually"];
        opensScript := true;
      }
    }
  }
}
