/** The module-level package lists of the build script: `initfiles`, the
    `__init__.py` data files installed per package, and `packages`, the
    dotted package names, both grown in place by `addsubpackages`. */
module Packages {
  import opened Text
  import opened Paths
  import opened DataFiles

  /** The `initfiles` entry of one subpackage (a path relative to
      `translate`). */
  function InitEntry(sitepackages: string, subpackage: string, sep: char): DataFile {
    Dir(Join([sitepackages, "translate", subpackage], sep),
        [Join(["translate", subpackage, "__init__.py"], sep)])
  }

  /** `"translate.%s" % subpackage`. */
  function PackageName(subpackage: string): string {
    "translate." + subpackage
  }

  class PackageLists {
    /** `sitepackages`: where the library is installed, as probed at start-up. */
    const sitepackages: string
    const sep: char
    var initfiles: seq<DataFile>
    var packages: seq<string>

    /** The initial lists: the `__init__.py` of `translate` itself and the
        `translate` package. */
    constructor (sitepackages: string, sep: char)
      ensures this.sitepackages == sitepackages && this.sep == sep
      ensures initfiles == [Dir(Join([sitepackages, "translate"], sep),
                                [Join(["translate", "__init__.py"], sep)])]
      ensures packages == ["translate"]
    {
      this.sitepackages := sitepackages;
      this.sep := sep;
      initfiles := [Dir(Join([sitepackages, "translate"], sep), [Join(["translate", "__init__.py"], sep)])];
      packages := ["translate"];
    }

    /** `addsubpackages`: one data-file entry and one package name per
        subpackage, appended in order; the existing entries are kept. */
    method AddSubpackages(subpackages: seq<string>)
      modifies this
      ensures |initfiles| == |old(initfiles)| + |subpackages|
      ensures |packages| == |old(packages)| + |subpackages|
      ensures initfiles[..|old(initfiles)|] == old(initfiles)
      ensures packages[..|old(packages)|] == old(packages)
      ensures forall i :: 0 <= i < |subpackages| ==>
                initfiles[|old(initfiles)| + i] == InitEntry(sitepackages, subpackages[i], sep)
      ensures forall i :: 0 <= i < |subpackages| ==>
                packages[|old(packages)| + i] == PackageName(subpackages[i])
    {
      ghost var initfiles0, packages0 := initfiles, packages;
      for i := 0 to |subpackages|
        invariant |initfiles| == |initfiles0| + i && |packages| == |packages0| + i
        invariant initfiles[..|initfiles0|] == initfiles0
        invariant packages[..|packages0|] == packages0
        invariant forall j :: 0 <= j < i ==>
                    initfiles[|initfiles0| + j] == InitEntry(sitepackages, subpackages[j], sep)
        invariant forall j :: 0 <= j < i ==>
                    packages[|packages0| + j] == PackageName(subpackages[j])
      {
        initfiles := initfiles + [InitEntry(sitepackages, subpackages[i], sep)];
        packages := packages + [PackageName(subpackages[i])];
      }
    }
  }

  /** The site-packages directory of the Windows installer,
      `Lib\site-packages`: what `sitepackages` becomes when user
      site-packages are disabled, `get_python_lib()` with `sys.prefix`
      stripped. With user site-packages enabled, `sitepackages` is the
      absolute `site.USER_SITE` instead, and the lemmas below do not apply. */
  function WindowsSitePackages(): string {
    Intercalate(["Lib", "site-packages"], '\\')
  }

  /** When user site-packages are disabled, the `initfiles` entry of a
      subpackage, remapped for the Windows installer, lands in the directory
      named by the subpackage itself. */
  lemma InitEntryRemapped(subpackage: string)
    requires NoEmptySegment(subpackage, '\\')
    ensures MapDataFile(InitEntry(WindowsSitePackages(), subpackage, '\\').dir, '\\') == subpackage
  {
    var sep := '\\';
    var prefix := ["Lib", "site-packages", "translate"];
    var x := Intercalate(prefix, sep);
    InitDirPath(subpackage);
    SplitIntercalate(prefix, sep);
    SplitAround(x, sep, subpackage);
    var all := Split(x + [sep] + subpackage, sep);
    var parts := Split(subpackage, sep);
    assert all == prefix + parts;
    assert StrippedCount(all) == 3;
    assert all[3..] == parts;
    MapDataFileCases(x + [sep] + subpackage, sep);
    JoinSplit(subpackage, sep);
  }

  /** The directory of a subpackage's entry on Windows: the three prefix
      segments, then the subpackage. */
  lemma InitDirPath(subpackage: string)
    requires NoEmptySegment(subpackage, '\\')
    ensures Join([WindowsSitePackages(), "translate", subpackage], '\\')
         == Intercalate(["Lib", "site-packages", "translate"], '\\') + ['\\'] + subpackage
  {
    var sep := '\\';
    SplitFirst(subpackage, sep);
    var site := WindowsSitePackages();
    assert site == "Lib" + [sep] + "site-packages";
    var x := site + [sep] + "translate";
    assert Intercalate(["Lib", "site-packages", "translate"], sep) == x;
    assert site[|site| - 1] != sep;
    assert Join([site, "translate"], sep) == x;
    assert [site, "translate", subpackage][..2] == [site, "translate"];
    assert x[|x| - 1] != sep;
  }

  /** The entry of `translate` itself is remapped to the application root. */
  lemma InitEntryOfRootRemapped()
    ensures MapDataFile(Join([WindowsSitePackages(), "translate"], '\\'), '\\') == ""
  {
    var prefix := ["Lib", "site-packages", "translate"];
    var site := WindowsSitePackages();
    assert site[|site| - 1] != '\\';
    assert Join([site, "translate"], '\\') == Intercalate(prefix, '\\');
    assert StrippedCount(prefix) == 3;
    MapDataFileOfSegments(prefix, '\\');
  }

  /** A string without empty segments starts with a non-separator. */
  lemma SplitFirst(s: string, sep: char)
    requires NoEmptySegment(s, sep)
    ensures s != [] && s[0] != sep
  {
    assert Split(s, sep)[0] != "";
  }
}
