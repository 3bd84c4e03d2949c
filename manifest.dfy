/** `buildmanifest_in`: the autogenerated block of `MANIFEST.in`, written
    as a sequence of chunks. Every chunk but the last ends with a newline. */
module Manifest {
  import opened Text

  /** The informational files included from every directory. */
  const InfoFiles: seq<string> := ["README.rst", "COPYING", "*.txt"]

  const EndMarker := "# MANIFEST.in: " + "end of autogenerated block"

  /** The first three lines, the first naming the toolkit version. */
  function IntroLines(version: string): seq<string> {
    [ "# MANIFEST.in: " + "the below autogenerated " + "by setup.py from translate " + version,
      "# things needed " + "by translate setup.py to rebuild",
      "# informational fs" ]
  }

  /** One directive line per item: `directive` followed by the item. */
  function Directives(directive: string, items: seq<string>): (lines: seq<string>)
    ensures |lines| == |items|
    ensures forall i :: 0 <= i < |items| ==> lines[i] == directive + items[i]
  {
    seq(|items|, i requires 0 <= i < |items| => directive + items[i])
  }

  /** The C sources, and the comment that introduces the scripts. */
  const SourceLines: seq<string> :=
    ["# C programs", "global-include *.c", "# scripts which don't " + "get included by default in sdist"]

  /** The documentation lines before the end marker. */
  const DocLines: seq<string> :=
    ["# include our documentation", "graft docs", "prune docs/doctrees", "graft share"]

  /** The newline-terminated lines, before the end marker. */
  function BlockLines(version: string, scripts: seq<string>): seq<string> {
    IntroLines(version) + Directives("global-include ", InfoFiles) + SourceLines
      + Directives("include ", scripts) + DocLines
  }

  /** The lines of the block as a reader of the file sees them. */
  function ManifestLines(version: string, scripts: seq<string>): seq<string> {
    BlockLines(version, scripts) + [EndMarker]
  }

  /** Each line followed by a newline. */
  function Terminated(lines: seq<string>): (chunks: seq<string>)
    ensures |chunks| == |lines|
    ensures forall i :: 0 <= i < |lines| ==> chunks[i] == lines[i] + "\n"
  {
    seq(|lines|, i requires 0 <= i < |lines| => lines[i] + "\n")
  }

  /** The chunks `buildmanifest_in` writes, in order. */
  function ManifestChunks(version: string, scripts: seq<string>): seq<string> {
    Terminated(BlockLines(version, scripts)) + [EndMarker]
  }

  /** The text of a sequence of writes. */
  function Concat(chunks: seq<string>): string {
    if |chunks| == 0 then "" else chunks[0] + Concat(chunks[1..])
  }

  /** `buildmanifest_in(f, scripts)` with `f.write` recorded as `writes`,
      and `translateversion` passed as `version`. */
  method BuildManifestIn(version: string, scripts: seq<string>) returns (writes: seq<string>)
    ensures writes == ManifestChunks(version, scripts)
  {
    writes := Terminated(IntroLines(version));
    for i := 0 to |InfoFiles|
      invariant writes == Terminated(IntroLines(version) + Directives("global-include ", InfoFiles[..i]))
    {
      writes := writes + ["global-include " + InfoFiles[i] + "\n"];
      assert IntroLines(version) + Directives("global-include ", InfoFiles[..i + 1])
          == IntroLines(version) + Directives("global-include ", InfoFiles[..i]) + ["global-include " + InfoFiles[i]];
    }
    assert InfoFiles[..|InfoFiles|] == InfoFiles;
    ghost var head := IntroLines(version) + Directives("global-include ", InfoFiles) + SourceLines;
    writes := writes + Terminated(SourceLines);
    assert writes == Terminated(head);
    for i := 0 to |scripts|
      invariant writes == Terminated(head + Directives("include ", scripts[..i]))
    {
      writes := writes + ["include " + scripts[i] + "\n"];
      assert head + Directives("include ", scripts[..i + 1])
          == head + Directives("include ", scripts[..i]) + ["include " + scripts[i]];
    }
    assert scripts[..|scripts|] == scripts;
    writes := writes + Terminated(DocLines);
    assert writes == Terminated(BlockLines(version, scripts));
    writes := writes + [EndMarker];
  }

  /** The written text is the lines joined with newlines: no newline after
      the end marker. */
  lemma {:induction false} ConcatTerminated(lines: seq<string>, last: string)
    ensures Concat(Terminated(lines) + [last]) == Intercalate(lines + [last], '\n')
  {
    if |lines| == 0 {
      assert Terminated(lines) + [last] == [last];
      assert lines + [last] == [last];
    } else {
      ConcatTerminated(lines[1..], last);
      assert (Terminated(lines) + [last])[1..] == Terminated(lines[1..]) + [last];
      assert (lines + [last])[1..] == lines[1..] + [last];
    }
  }

  /** Lines that cannot be `include` directives: non-empty, not starting
      with 'i'. */
  predicate Plain(lines: seq<string>) {
    forall k :: 0 <= k < |lines| ==> |lines[k]| > 0 && lines[k][0] != 'i'
  }

  lemma PlainConcat(a: seq<string>, b: seq<string>)
    requires Plain(a) && Plain(b)
    ensures Plain(a + b)
  {
    forall k | 0 <= k < |a + b| ensures (a + b)[k] == if k < |a| then a[k] else b[k - |a|] {
    }
  }

  /** The lines around the include lines, before and after, include
      nothing. */
  lemma FixedLinesPlain(version: string)
    ensures Plain(IntroLines(version) + (Directives("global-include ", InfoFiles) + SourceLines))
    ensures Plain(DocLines + [EndMarker])
  {
    var intro := IntroLines(version);
    assert intro[0][0] == intro[1][0] == intro[2][0] == '#';
    var globals := Directives("global-include ", InfoFiles);
    assert globals[0][0] == globals[1][0] == globals[2][0] == 'g';
    assert SourceLines[0][0] == '#' && SourceLines[1][0] == 'g' && SourceLines[2][0] == '#';
    PlainConcat(globals, SourceLines);
    PlainConcat(intro, globals + SourceLines);
    var tail := DocLines + [EndMarker];
    assert tail[0][0] == '#' && tail[1][0] == 'g' && tail[2][0] == 'p';
    assert tail[3][0] == 'g' && tail[4][0] == '#';
  }

  /** The file holds the manifest lines separated by newlines, with no
      newline after the end marker. */
  lemma ManifestText(version: string, scripts: seq<string>)
    ensures Concat(ManifestChunks(version, scripts)) == Intercalate(ManifestLines(version, scripts), '\n')
  {
    ConcatTerminated(BlockLines(version, scripts), EndMarker);
  }

  /** Read back line by line, the file gives the manifest lines again when
      none of them holds a newline. */
  lemma ManifestReadBack(version: string, scripts: seq<string>)
    requires forall k :: 0 <= k < |ManifestLines(version, scripts)| ==>
               '\n' !in ManifestLines(version, scripts)[k]
    ensures Split(Concat(ManifestChunks(version, scripts)), '\n') == ManifestLines(version, scripts)
  {
    ManifestText(version, scripts);
    SplitIntercalate(ManifestLines(version, scripts), '\n');
  }

  /** The script names named by the `include` lines, in order. */
  function IncludedScripts(lines: seq<string>): seq<string> {
    if |lines| == 0 then []
    else (if StartsWith(lines[0], "include ") then [lines[0][8..]] else [])
         + IncludedScripts(lines[1..])
  }

  lemma {:induction false} IncludedScriptsAppend(a: seq<string>, b: seq<string>)
    ensures IncludedScripts(a + b) == IncludedScripts(a) + IncludedScripts(b)
  {
    if |a| > 0 {
      assert (a + b)[1..] == a[1..] + b;
      IncludedScriptsAppend(a[1..], b);
    } else {
      assert a + b == b;
    }
  }

  lemma {:induction false} NoneIncluded(lines: seq<string>)
    requires Plain(lines)
    ensures IncludedScripts(lines) == []
  {
    if |lines| > 0 {
      assert !StartsWith(lines[0], "include ") by {
        if |lines[0]| >= 8 {
          assert lines[0][..8][0] == lines[0][0];
        }
      }
      NoneIncluded(lines[1..]);
    }
  }

  lemma {:induction false} IncludesRecovered(scripts: seq<string>)
    ensures IncludedScripts(Directives("include ", scripts)) == scripts
  {
    if |scripts| > 0 {
      var lines := Directives("include ", scripts);
      assert lines[1..] == Directives("include ", scripts[1..]);
      assert StartsWith(lines[0], "include ");
      assert lines[0][8..] == scripts[0];
      IncludesRecovered(scripts[1..]);
      assert [scripts[0]] + scripts[1..] == scripts;
    }
  }

  /** Every `include` line of the block names one of the scripts, each
      script once and in the given order; the fixed lines include nothing. */
  lemma ManifestIncludesScripts(version: string, scripts: seq<string>)
    ensures IncludedScripts(ManifestLines(version, scripts)) == scripts
  {
    var head := IntroLines(version) + (Directives("global-include ", InfoFiles) + SourceLines);
    var tail := DocLines + [EndMarker];
    FixedLinesPlain(version);
    IncludesRecovered(scripts);
    assert ManifestLines(version, scripts) == head + Directives("include ", scripts) + tail;
    IncludedBetween(head, Directives("include ", scripts), tail);
  }

  lemma IncludedBetween(head: seq<string>, middle: seq<string>, tail: seq<string>)
    requires Plain(head) && Plain(tail)
    ensures IncludedScripts(head + middle + tail) == IncludedScripts(middle)
  {
    NoneIncluded(head);
    NoneIncluded(tail);
    IncludedScriptsAppend(head, middle);
    IncludedScriptsAppend(head + middle, tail);
  }
}
