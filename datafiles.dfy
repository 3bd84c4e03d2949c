/** Remapping of py2exe data-file destinations (`map_data_file` and
    `build_exe_map.remap_data_files`). */
module DataFiles {
  import opened Text
  import opened Paths

  /** One entry of distutils' `data_files`: a bare path, or a destination
      directory with the files copied into it. */
  datatype DataFile = Bare(path: string) | Dir(dir: string, files: seq<string>)

  predicate HasLibPrefix(parts: seq<string>) {
    |parts| >= 2 && parts[0] == "Lib" && parts[1] == "site-packages"
  }

  /** How many leading segments `map_data_file` removes: the `Lib`,
      `site-packages` pair when present, then one `translate` segment when
      the remaining path starts with it. */
  function StrippedCount(parts: seq<string>): (k: nat)
    ensures k <= |parts| && k <= 3
  {
    var a := if HasLibPrefix(parts) then 2 else 0;
    a + (if |parts| > a && parts[a] == "translate" then 1 else 0)
  }

  /** `map_data_file`: drops a leading `Lib\site-packages`, then a leading
      `translate`. The result is always a path, never absent. */
  function MapDataFile(dataFile: string, sep: char): string
  {
    var parts0 := Split(dataFile, sep);
    var (parts1, file1) :=
      if parts0[..if |parts0| < 2 then |parts0| else 2] == ["Lib", "site-packages"] then
        var rest := parts0[2..];
        (rest, if rest != [] then Join(rest, sep) else "")
      else (parts0, dataFile);
    if parts1[..if |parts1| < 1 then 0 else 1] == ["translate"] then
      var rest := parts1[1..];
      if rest != [] then Join(rest, sep) else ""
    else file1
  }

  /** The path is returned unchanged when neither prefix is present; when
      every segment is stripped it becomes the empty path; otherwise the
      remaining segments are joined again. */
  lemma MapDataFileCases(dataFile: string, sep: char)
    ensures var parts := Split(dataFile, sep);
            var k := StrippedCount(parts);
            var r := MapDataFile(dataFile, sep);
            && (k == 0 ==> r == dataFile)
            && (0 < k == |parts| ==> r == "")
            && (0 < k < |parts| ==> r == Join(parts[k..], sep))
  {
    var parts := Split(dataFile, sep);
    if HasLibPrefix(parts) {
      assert parts[..2] == ["Lib", "site-packages"];
      var rest := parts[2..];
      if |rest| > 0 && rest[0] == "translate" {
        assert rest[..1] == ["translate"];
        assert rest[1..] == parts[3..];
      }
    } else if |parts| > 0 && parts[0] == "translate" {
      assert parts[..1] == ["translate"];
    }
  }

  /** When something is stripped from a path whose segments are all
      non-empty, the result's segments are exactly the input's segments
      after the stripped ones. */
  lemma StrippedSegmentsAreSuffix(dataFile: string, sep: char)
    requires NoEmptySegment(dataFile, sep)
    requires StrippedCount(Split(dataFile, sep)) > 0
    ensures var parts := Split(dataFile, sep);
            var k := StrippedCount(parts);
            var r := MapDataFile(dataFile, sep);
            && (r == "" <==> k == |parts|)
            && (r != "" ==> Split(r, sep) == parts[k..])
  {
    var parts := Split(dataFile, sep);
    var k := StrippedCount(parts);
    MapDataFileCases(dataFile, sep);
    SplitSepFree(dataFile, sep);
    if k < |parts| {
      var rest := parts[k..];
      assert forall j :: 0 <= j < |rest| ==> rest[j] == parts[k + j];
      JoinIntercalate(rest, sep);
      SplitIntercalate(rest, sep);
      assert rest[0] != "";
    }
  }

  /** `MapDataFile` on a path given by its (non-empty, separator-free)
      segments strips the counted prefix and re-joins the rest. */
  lemma MapDataFileOfSegments(parts: seq<string>, sep: char)
    requires |parts| >= 1
    requires forall j :: 0 <= j < |parts| ==> parts[j] != "" && sep !in parts[j]
    ensures var k := StrippedCount(parts);
            MapDataFile(Intercalate(parts, sep), sep)
            == if k == 0 then Intercalate(parts, sep)
               else if k == |parts| then ""
               else Intercalate(parts[k..], sep)
  {
    SplitIntercalate(parts, sep);
    MapDataFileCases(Intercalate(parts, sep), sep);
    var k := StrippedCount(parts);
    if 0 < k < |parts| {
      JoinIntercalate(parts[k..], sep);
    }
  }

  /** `Lib\site-packages\translate\convert` gives `convert`: both prefixes
      are stripped, in order. */
  lemma MapDataFileStripsBoth()
    ensures MapDataFile(Intercalate(["Lib", "site-packages", "translate", "convert"], '\\'), '\\')
         == "convert"
  {
    var parts := ["Lib", "site-packages", "translate", "convert"];
    assert StrippedCount(parts) == 3;
    assert parts[3..] == ["convert"];
    MapDataFileOfSegments(parts, '\\');
  }

  /** `Lib\site-packages\other` gives `other`: the library prefix alone is
      stripped from another package. */
  lemma MapDataFileStripsLib()
    ensures MapDataFile(Intercalate(["Lib", "site-packages", "other"], '\\'), '\\') == "other"
  {
    var parts := ["Lib", "site-packages", "other"];
    assert StrippedCount(parts) == 2;
    assert parts[2..] == ["other"];
    MapDataFileOfSegments(parts, '\\');
  }

  /** `Lib\site-packages` and `translate` give the empty path: a path that is
      only a stripped prefix becomes the application root. */
  lemma MapDataFileToRoot()
    ensures MapDataFile(Intercalate(["Lib", "site-packages"], '\\'), '\\') == ""
    ensures MapDataFile("translate", '\\') == ""
  {
    var lib := ["Lib", "site-packages"];
    assert StrippedCount(lib) == 2;
    MapDataFileOfSegments(lib, '\\');
    MapDataFileOfSegments(["translate"], '\\');
  }

  /** `translate\Lib\site-packages\x` gives `Lib\site-packages\x`: the
      library pair is only looked for before `translate`, so one behind it is
      kept. */
  lemma MapDataFileLibAfterTranslate()
    ensures MapDataFile(Intercalate(["translate", "Lib", "site-packages", "x"], '\\'), '\\')
         == Intercalate(["Lib", "site-packages", "x"], '\\')
  {
    var parts := ["translate", "Lib", "site-packages", "x"];
    assert StrippedCount(parts) == 1;
    assert parts[1..] == ["Lib", "site-packages", "x"];
    MapDataFileOfSegments(parts, '\\');
  }

  /** Remapping is not idempotent: `translate\translate\x` gives
      `translate\x`, which in turn gives `x`. */
  lemma MapDataFileNotIdempotent()
    ensures MapDataFile(Intercalate(["translate", "translate", "x"], '\\'), '\\')
         == Intercalate(["translate", "x"], '\\')
    ensures MapDataFile(MapDataFile(Intercalate(["translate", "translate", "x"], '\\'), '\\'), '\\')
         == "x"
  {
    var parts := ["translate", "translate", "x"];
    assert StrippedCount(parts) == 1;
    assert parts[1..] == ["translate", "x"];
    MapDataFileOfSegments(parts, '\\');
    assert StrippedCount(["translate", "x"]) == 1;
    assert ["translate", "x"][1..] == ["x"];
    MapDataFileOfSegments(["translate", "x"], '\\');
  }

  /** One step of `remap_data_files`: a bare path is remapped; for a pair only
      the directory is remapped. The result is absent only when the remapped
      value is absent, which `MapDataFile` never is. */
  function RemapEntry(f: DataFile, sep: char): (r: Option<DataFile>)
    ensures r.Some?
    ensures r.value.Bare? <==> f.Bare?
    ensures f.Dir? ==> r.value.files == f.files
  {
    match f
    case Bare(p) => Some(Bare(MapDataFile(p, sep)))
    case Dir(d, fs) => Some(Dir(MapDataFile(d, sep), fs))
  }

  /** `remap_data_files`: a new list, entry for entry, in the same order; no
      entry is dropped. The input is a value and so cannot be modified. */
  method RemapDataFiles(dataFiles: seq<DataFile>, sep: char) returns (newDataFiles: seq<DataFile>)
    ensures |newDataFiles| == |dataFiles|
    ensures forall i :: 0 <= i < |dataFiles| && dataFiles[i].Bare? ==>
              newDataFiles[i] == Bare(MapDataFile(dataFiles[i].path, sep))
    ensures forall i :: 0 <= i < |dataFiles| && dataFiles[i].Dir? ==>
              newDataFiles[i] == Dir(MapDataFile(dataFiles[i].dir, sep), dataFiles[i].files)
  {
    newDataFiles := [];
    for i := 0 to |dataFiles|
      invariant |newDataFiles| == i
      invariant forall j :: 0 <= j < i ==> Some(newDataFiles[j]) == RemapEntry(dataFiles[j], sep)
    {
      var f := RemapEntry(dataFiles[i], sep);
      if f.Some? {
        newDataFiles := newDataFiles + [f.value];
      }
    }
  }
}
