# Translate Toolkit build script: a verified model

This project models the logic of `setup.py` in the Translate Toolkit
repository that is not packaging metadata. It covers five parts:

- **Data-file remapping for py2exe.** `map_data_file` drops a leading
  `Lib\site-packages` pair and then one leading `translate` segment.
  `build_exe_map.remap_data_files` applies it to every entry of a
  `data_files` list. These are in `datafiles.dfy`.
- **The InnoSetup installer script.** `InnoScript` normalises `dist_dir`,
  makes every artifact relative to it (`chop`), prints the sections of the
  `.iss` script (`create`) and builds the compiler command (`compile`).
  These are in `innoscript.dfy`.
- **The pip requirements filter.** `parse_requirements` reads a file line by
  line and skips, rewrites or keeps each line. This is in `requirements.dfy`.
- **The package lists.** `addsubpackages` grows the module-level lists
  `initfiles` and `packages`. This is in `packages.dfy`.
- **The `MANIFEST.in` block.** `buildmanifest_in` writes it. This is in
  `manifest.dfy`.

Two support modules model Python's `str.split`, `str.join`,
`str.startswith`/`endswith` and `str.replace` (`text.dfy`), and
`os.path.join` and `os.path.dirname` over one separator (`paths.dfy`).
The separator `os.sep` is a parameter; it is a backslash on the Windows
target. Strings are `seq<char>`.

Objects that change in place are classes with `modifies` clauses:

- `InnoScript` and its `pathname`;
- `PackageLists`, which holds `initfiles` and `packages`.

Loops become methods. Each is proved against a specification function:

- `RemapDataFiles` is proved against `MapDataFile`;
- `ParseRequirements` against `Requirements`;
- `PrintScript` against `RenderScript`;
- `BuildManifestIn` against `ManifestChunks`.

The properties are then proved about those functions.

Some consequences of the code that the model makes explicit:

- **Remapping drops nothing.** `map_data_file` never returns `None`, so the
  `None` branch of `remap_data_files` (`setup.py:185-186`) is dead. Every
  entry is kept, the empty path included.
- **Remapping is not idempotent.** `map_data_file` strips at most one
  `translate` segment: `translate\translate\x` maps to `translate\x`, which
  maps to `x` (`MapDataFileNotIdempotent`).
- **The input list is not mutated.** `remap_data_files` builds a new list
  and returns it, and so does the model.
- **`parse_requirements` returns `None`.** It has no `return` statement
  (see Findings).

## Model

| member | source | states |
|---|---|---|
| DataFiles.MapDataFileCases | setup.py:314-330 | The path comes back unchanged when neither prefix is present. It becomes the empty path when every segment is stripped. Otherwise the segments after the stripped ones are joined again. The result is always a string, never absent. |
| DataFiles.StrippedSegmentsAreSuffix | setup.py:316-329 | Take a path whose segments are all non-empty and from which something is stripped. The result is empty exactly when every segment was stripped. Otherwise the result's segments are exactly the input's segments after the stripped prefix. |
| DataFiles.MapDataFileOfSegments | setup.py:316-329 | For a path given by non-empty, separator-free segments: the counted prefix (`Lib`,`site-packages`, then `translate`) is removed and the rest is re-joined. |
| DataFiles.MapDataFileStripsBoth | setup.py:317-329 | `Lib\site-packages\translate\convert` gives `convert`: both prefixes are stripped, in order. |
| DataFiles.MapDataFileStripsLib | setup.py:317-322 | `Lib\site-packages\other` gives `other`: only the library pair is stripped. |
| DataFiles.MapDataFileToRoot | setup.py:317-329 | `Lib\site-packages` and `translate` each give the empty path, not `None`. |
| DataFiles.MapDataFileLibAfterTranslate | setup.py:317-329 | `translate\Lib\site-packages\x` gives `Lib\site-packages\x`: the library pair is only looked for first. |
| DataFiles.MapDataFileNotIdempotent | setup.py:323-329 | `translate\translate\x` gives `translate\x`, and a second application gives `x`. |
| DataFiles.RemapEntry | setup.py:179-188 | One entry's remapped value is always present. Its kind (bare path or directory pair) is kept, and a pair keeps its file list. |
| DataFiles.RemapDataFiles | setup.py:175-191 | The new list has the input's length and order. Bare paths are mapped. For pairs only the directory is mapped and the files are kept. |
| Text.SplitIntercalate | setup.py:316 | Splitting separator-free segments joined by the separator gives the segments back. |
| Text.IntercalateSplit | setup.py:316 | Joining the pieces of a split with the separator gives the string back. |
| Text.SplitAround | setup.py:316 | Splitting distributes over one separator occurrence. |
| Text.SplitSepFree | setup.py:316 | No piece of a split contains the separator. |
| Text.ReplaceAllAbsent | setup.py:272 | `replace` leaves a string without the target unchanged. |
| Text.ReplaceAllAfter | setup.py:272 | After a prefix that cannot begin the target, the target is replaced and scanning resumes after it. |
| Text.ReplaceAllAfterSecond | setup.py:272 | `str.replace` also passes over a prefix that may hold the target's first character, when it lacks the second and the two differ, and replaces the occurrence right after it. |
| Paths.JoinIntercalate | setup.py:321 | `join` of non-empty, separator-free segments is the segments separated by the separator. |
| Paths.JoinSplit | setup.py:316-321 | Splitting a path with no empty segment and joining the pieces gives the path back. |
| Paths.DirnameOfSegments | setup.py:246 | `dirname` of a one-segment path is empty. For more segments it is the path of all segments but the last. |
| Requirements.LastOccurrence | setup.py:156 | The greedy `.*` before `#egg=` finds the last occurrence. It is absent exactly when there is none, and no occurrence starts after it. |
| Requirements.EggName | setup.py:156 | Without `#egg=` the line is unchanged. Otherwise the line ends with `#egg=` followed by the result, and the result holds no `#egg=`. |
| Requirements.ParseLine | setup.py:152-160 | A line contributes nothing exactly when it is a comment, blank, `-r ` or a `-f` option that is not `-e`. An `-e` line contributes its egg name. Any other line is kept verbatim. |
| Requirements.ParseRequirements | setup.py:143-160 | The loop accumulates `Requirements` of the file's lines, and the function returns `None`. |
| Requirements.ParseRequirementsWithReturn | setup.py:143-160 | The function with `return requirements` added hands its caller the accumulated list. |
| Requirements.RequirementLost | setup.py:150-160 | A file holding the single line `six` yields the list `["six"]`, which the function as written does not return. |
| Requirements.RequirementsAppend | setup.py:150-160 | The filter works line by line: concatenated files give concatenated lists. |
| Requirements.RequirementsBounded | setup.py:150-160 | There is at most one requirement per line. |
| Requirements.PlainLinesKept | setup.py:159-160 | Lines that are neither skipped nor options are kept verbatim and in order. |
| Requirements.EditableWithEgg | setup.py:155-156 | `-e <url>#egg=<name>` becomes `<name>`. |
| Requirements.EditableWithoutEgg | setup.py:155-156 | An `-e` line without `#egg=` is kept unchanged. |
| Requirements.SkippedLines | setup.py:152-158 | Indented comments, whitespace-only lines, `-r ` includes and `-f` lines contribute nothing. |
| Requirements.IndentedIncludeKept | setup.py:152 | An indented `-r` line is not skipped, because that alternative of the pattern allows no leading whitespace. |
| InnoSetup.WithTrailingSep | setup.py:200-201 | The directory ends with the separator, extends the original by at most that one character, and is unchanged when it already ended with one. |
| InnoSetup.InnoScript.constructor | setup.py:196-206 | `dist_dir` ends with the separator. Every artifact is stored relative to it: `dist_dir + stored == given`, with count and order kept. |
| InnoSetup.InnoScript.Chop | setup.py:219-222 | For a path that starts with `dist_dir`, `dist_dir + chop(p) == p`. |
| InnoSetup.InnoScript.ChopAll | setup.py:204-205 | Every path is chopped, in order. |
| InnoSetup.InnoScript.Create | setup.py:224-267 | The script path is the given one, or by default `<name>.iss` joined onto `dist_dir` with spaces turned into underscores. The lines written are the rendered script of all `exe_files` then all `other_files`. |
| InnoSetup.DefaultScriptPath | setup.py:226-228 | Joined onto a `dist_dir` that ends with the separator, the default file name is appended directly. A name that starts with the separator replaces the directory. |
| InnoSetup.PrintScript | setup.py:234-267 | The printed lines are the rendered script. |
| InnoSetup.PrintFileLines | setup.py:244-246 | The artifact loop prints one `[Files]` line per artifact, in order. |
| InnoSetup.PrintRunLines | setup.py:258-266 | Each script loop prints one run line per script, in order. |
| InnoSetup.BodyLayout | setup.py:234-257 | `[Setup]` is on line 3 and `OutputBaseFilename=<name>-<version>-setup` on line 8. `[Files]` is followed by exactly the artifact lines in order, then a blank line and `[Icons]`, and `[Registry]` five lines later. |
| InnoSetup.RunLayout | setup.py:258-266 | `[Run]` holds one `-install` line per script, in order. A blank line and `[UninstallRun]` follow, then one `-remove` line per script, in order. |
| InnoSetup.ScriptParts | setup.py:234-267 | The script is the body, then the run sections exactly when `install_scripts` is truthy, then a final blank line. The line count follows. |
| InnoSetup.ScriptSections | setup.py:236-266 | The section headers are `[Setup]`, `[Files]`, `[Icons]`, `[Registry]`, then `[Run]`, `[UninstallRun]` exactly when `install_scripts` is truthy. `None` and the empty list both omit them. No other line is a header. |
| InnoSetup.SetupHeaders | setup.py:234-243 | The warning and `[Setup]` block holds the single header `[Setup]`. |
| InnoSetup.FixedHeaders | setup.py:248-257 | The icon and registry block holds the headers `[Icons]` and `[Registry]`. |
| InnoSetup.BodyHeaders | setup.py:234-257 | The body's headers are `[Setup]`, `[Files]`, `[Icons]`, `[Registry]`. |
| InnoSetup.RunHeaders | setup.py:258-266 | The run block's headers are `[Run]`, `[UninstallRun]`. |
| InnoSetup.TopLevelArtifact | setup.py:246 | An artifact with no separator in its path is installed to `DestDir: "{app}\"`. |
| InnoSetup.NestedArtifact | setup.py:245-246 | A nested artifact is installed under `{app}\` followed by its parent segments. |
| InnoSetup.FallbackCommand | setup.py:216 | With the fallback command, the quoted placeholder, quotes included, is replaced by the script path: `compil32.exe <path>`. |
| InnoSetup.RegisteredCommand | setup.py:272 | For a registered command `<a>"%1"<b>` whose `<a>` holds no `%`, such as a quoted program path followed by `/cc`, the command is `<a>` then the script path then `<b>` with its own placeholders replaced; it is `<a><path><b>` when `<b>` has none. |
| InnoSetup.InnoScript.Compile | setup.py:269-277 | The command is the registered command, or the fallback, with every quoted placeholder `"%1"` replaced by the script path. It is `compil32.exe <path>` without a registered command. A registered command without the placeholder is used as is. A non-zero exit status prints the two messages and opens the script; exit status zero does neither. |
| Packages.PackageLists.constructor | setup.py:60-78 | `initfiles` starts with the `__init__.py` of `translate` under `sitepackages`, and `packages` starts as `["translate"]`. |
| Packages.PackageLists.AddSubpackages | setup.py:136-140 | One `initfiles` entry and one `translate.<s>` package are appended per subpackage, in order. The existing entries are untouched. |
| Packages.InitEntryRemapped | setup.py:137-138 | On Windows with user site-packages disabled, where `sitepackages` is `Lib\site-packages`, a subpackage's `initfiles` directory is remapped by `map_data_file` to the subpackage path itself. |
| Packages.InitDirPath | setup.py:137 | That directory is `Lib\site-packages\translate\<s>`. |
| Packages.InitEntryOfRootRemapped | setup.py:60 | With `sitepackages` equal to `Lib\site-packages`, the entry of `translate` itself is remapped to the installation root. |
| Manifest.BuildManifestIn | setup.py:348-364 | The writes are the header, the informational and C lines, one `include` line per script in order, the documentation lines, then the end marker with no newline. |
| Manifest.ManifestText | setup.py:348-364 | The file text is the manifest lines joined by newlines. |
| Manifest.ManifestReadBack | setup.py:348-364 | Read back line by line, the text gives the manifest lines when none holds a newline. |
| Manifest.ManifestIncludesScripts | setup.py:357-359 | The `include` lines name exactly the scripts, each once and in order. No fixed line is an `include`. |
| Manifest.IncludesRecovered | setup.py:358-359 | Stripping `include ` from the script lines gives the scripts back. |
| Manifest.ConcatTerminated | setup.py:349-364 | Newline-terminated lines followed by an unterminated last line concatenate to all the lines joined by newlines. |

## Left out

- `build_exe_map.reinitialize_command` (setup.py:167-173) and `build_installer` (setup.py:280-309): they depend on py2exe and distutils base classes. `build_installer.run` wraps a single `install_script` string into a one-element list (setup.py:300-301); `InnoScript` here takes that list, or `None`, directly.
- `InnoScript.getcompilecommand`'s registry lookup through `_winreg` (setup.py:208-215): it is a foreign call. Its outcome is the parameter `registered` (absent when the lookup raises).
- `os.system` and `os.startfile` in `compile` (setup.py:273-277): they are process I/O. The exit status is the parameter `exitStatus`, and opening the script is the flag `opensScript`.
- File I/O: `create`'s `open`/`print`/`close` become the returned lines, and `self.file` is not kept. `buildmanifest_in`'s `f.write` calls become the returned `writes`. `parse_requirements` reads its file into the parameter `contents`. Newline translation by text-mode files is not modelled.
- `getdatafiles` (setup.py:333-345): it walks the file system.
- `TranslateDistribution`, `standardsetup` and `dosetup` (setup.py:367-451): they build configuration for distutils `setup()`.
- The fixed lists `infofiles`, `subpackages`, `translatescripts` and `translatebashscripts`: these are data, not logic.
- The module-level probing of `site`/`sys.prefix` (setup.py:52-56) and the optional imports (setup.py:30-42): these are environment queries. `sitepackages` is a parameter of `PackageLists`.
- Python's `re` engine: only the three patterns used are written out, as predicates over one line.
- `os.path` on Windows also accepts `/` as a separator and handles drive letters. The model uses the single separator `sep` and no drives.
- The `(str, unicode)` type test in `remap_data_files` is the choice between the `Bare` and `Dir` constructors.
- DataFiles.RemapEntry: the dead `datadir is None` branch (setup.py:185-186) cannot be taken, because `MapDataFile` always returns a string.
- InnoSetup.InnoScript.Compile: for a registered command that contains the placeholder, the command is stated as the `ReplaceAll` of that command; its closed form is given by `RegisteredCommand` only when the text before the first placeholder holds no `%`.
- The defaults of `InnoScript.__init__` (setup.py:196-197: `exe_files=[]`, `other_files=[]`, `install_scripts=[]`, `version="1.0"`): the constructor takes every argument explicitly. The default `install_scripts` is `Some([])`, which renders no run sections.
- `sitepackages` when user site-packages are enabled (setup.py:52-53): it is the absolute `site.USER_SITE`, which starts with neither `Lib` nor `translate`, so `map_data_file` leaves such entries unchanged. `InitEntryRemapped` and `InitEntryOfRootRemapped` cover only the `Lib\site-packages` value of setup.py:54-56.
- Manifest.ManifestReadBack: the read-back is stated for lines without newlines; the version and script names are not checked for newlines.

## Findings

| source | as written | input that shows it | evidently intended | confidence | as-written member | corrected member |
|---|---|---|---|---|---|---|
| setup.py:143-160 | `parse_requirements` builds `requirements` but has no `return`, so it returns `None` | a requirements file holding the line `six`: the loop collects `["six"]` and the caller receives `None` | return the accumulated list, as the docstring says ("returns a list of packages") | high; not executed | Requirements.ParseRequirements, Requirements.RequirementLost | Requirements.ParseRequirementsWithReturn |
