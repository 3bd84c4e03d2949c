/** The line filter of `parse_requirements`: a pip requirements file is read,
    split into lines, and each line is skipped, rewritten or kept. The three
    regular expressions are written out as predicates over one line. Lines
    come from splitting on '\n', so they never contain a newline, and the
    regular expressions' `.` and `$` need no special case for one. */
module Requirements {
  import opened Text

  /** Python 2's `\s` for byte strings: space, tab, newline, carriage return,
      form feed and vertical tab. */
  predicate IsSpace(c: char) {
    c == ' ' || c == '\t' || c == '\n' || c == '\r' || c == 12 as char || c == 11 as char
  }

  /** Length of the longest all-whitespace prefix: what a greedy `\s*`
      anchored at the start consumes. */
  function LeadingSpaces(s: string): (n: nat)
    ensures n <= |s|
    ensures forall k :: 0 <= k < n ==> IsSpace(s[k])
    ensures n < |s| ==> !IsSpace(s[n])
  {
    if |s| > 0 && IsSpace(s[0]) then 1 + LeadingSpaces(s[1..]) else 0
  }

  /** `re.match(r'(\s*#)|(\s*$)|(-r .*$)', line)`: a comment, a blank line,
      or an included requirements file. */
  predicate IsSkipped(line: string) {
    var n := LeadingSpaces(line);
    (n < |line| && line[n] == '#') || n == |line| || StartsWith(line, "-r ")
  }

  /** `re.match(r'\s*-X\s+', line)` for the option letter `flag`. */
  predicate HasOption(line: string, flag: char) {
    var n := LeadingSpaces(line);
    n + 2 < |line| && line[n] == '-' && line[n + 1] == flag && IsSpace(line[n + 2])
  }

  /** The greatest index not above `i` at which `pat` occurs in `s`. */
  function LastOccurrenceFrom(s: string, pat: string, i: nat): (r: Option<nat>)
    ensures r.Some? ==> r.value <= i && OccursAt(s, pat, r.value)
    ensures forall j: nat :: (r.Some? ==> r.value < j) && j <= i ==> !OccursAt(s, pat, j)
  {
    if OccursAt(s, pat, i) then Some(i)
    else if i == 0 then None
    else LastOccurrenceFrom(s, pat, i - 1)
  }

  /** The index of the last occurrence of `pat` in `s`, if any. */
  function LastOccurrence(s: string, pat: string): (r: Option<nat>)
    ensures r.None? <==> !Occurs(s, pat)
    ensures r.Some? ==> OccursAt(s, pat, r.value)
    ensures r.Some? ==> forall j: nat :: r.value < j ==> !OccursAt(s, pat, j)
  {
    LastOccurrenceFrom(s, pat, |s|)
  }

  /** `re.sub(r'\s*-e\s+.*#egg=(.*)$', r'\1', line)` on a line that starts
      with `-e`: the greedy `.*` picks the LAST `#egg=`, and the whole line
      becomes what follows it; with no `#egg=` nothing matches and the line
      is unchanged. */
  function EggName(line: string): (r: string)
    ensures !Occurs(line, "#egg=") ==> r == line
    ensures Occurs(line, "#egg=") ==>
              EndsWith(line, "#egg=" + r) && !Occurs(r, "#egg=")
  {
    match LastOccurrence(line, "#egg=")
    case None => line
    case Some(q) =>
      var name := line[q + 5..];
      assert line[q..] == "#egg=" + name;
      forall j: nat | j <= |name| ensures !OccursAt(name, "#egg=", j) {
        assert !OccursAt(line, "#egg=", q + 5 + j);
      }
      name
  }

  /** What one line contributes to the requirement list. */
  function ParseLine(line: string): (r: Option<string>)
    ensures r.None? <==> IsSkipped(line) || (!HasOption(line, 'e') && HasOption(line, 'f'))
    ensures r.Some? && !HasOption(line, 'e') ==> r.value == line
    ensures r.Some? && HasOption(line, 'e') ==> r.value == EggName(line)
  {
    if IsSkipped(line) then None
    else if HasOption(line, 'e') then Some(EggName(line))
    else if HasOption(line, 'f') then None
    else Some(line)
  }

  /** The requirement list accumulated from `lines`, in order. */
  function Requirements(lines: seq<string>): seq<string>
  {
    if |lines| == 0 then []
    else
      var last := ParseLine(lines[|lines| - 1]);
      Requirements(lines[..|lines| - 1]) + (if last.Some? then [last.value] else [])
  }

  /** `parse_requirements(file_name)` after the file has been read into
      `contents`. The function has no `return`, so what its caller receives
      is `None`; the list it accumulates is returned beside it. */
  method ParseRequirements(contents: string)
    returns (returned: Option<seq<string>>, requirements: seq<string>)
    ensures returned == None
    ensures requirements == Requirements(Split(contents, '\n'))
  {
    var lines := Split(contents, '\n');
    requirements := [];
    for i := 0 to |lines|
      invariant requirements == Requirements(lines[..i])
    {
      var line := lines[i];
      assert lines[..i + 1][..i] == lines[..i];
      if IsSkipped(line) {
        continue;
      }
      if HasOption(line, 'e') {
        requirements := requirements + [EggName(line)];
      } else if HasOption(line, 'f') {
      } else {
        requirements := requirements + [line];
      }
    }
    assert lines[..|lines|] == lines;
    returned := None;
  }

  /** `parse_requirements` with the missing `return requirements` added:
      the caller receives the accumulated list. */
  method ParseRequirementsWithReturn(contents: string) returns (requirements: seq<string>)
    ensures requirements == Requirements(Split(contents, '\n'))
  {
    var _, accumulated := ParseRequirements(contents);
    requirements := accumulated;
  }

  /** A one-line requirements file naming one package: the loop collects
      it, and the function as written still hands its caller nothing. */
  lemma RequirementLost()
    ensures Requirements(Split("six", '\n')) == ["six"]
  {
    assert Split("six", '\n') == ["six"] by {
      SplitNoSep("six", '\n');
    }
    assert LeadingSpaces("six") == 0;
    assert !IsSkipped("six");
    assert ParseLine("six") == Some("six");
  }

  /** The filter works line by line: the lines of two concatenated files
      give the two lists concatenated. */
  lemma {:induction false} RequirementsAppend(a: seq<string>, b: seq<string>)
    ensures Requirements(a + b) == Requirements(a) + Requirements(b)
  {
    if |b| > 0 {
      var ab := a + b;
      assert ab[..|ab| - 1] == a + b[..|b| - 1];
      assert ab[|ab| - 1] == b[|b| - 1];
      RequirementsAppend(a, b[..|b| - 1]);
    } else {
      assert a + b == a;
    }
  }

  /** The list has at most one entry per line. */
  lemma {:induction false} RequirementsBounded(lines: seq<string>)
    ensures |Requirements(lines)| <= |lines|
  {
    if |lines| > 0 {
      RequirementsBounded(lines[..|lines| - 1]);
    }
  }

  /** Lines that are neither skipped nor options are kept verbatim and in
      order. */
  lemma {:induction false} PlainLinesKept(lines: seq<string>)
    requires forall k :: 0 <= k < |lines| ==>
               !IsSkipped(lines[k]) && !HasOption(lines[k], 'e') && !HasOption(lines[k], 'f')
    ensures Requirements(lines) == lines
  {
    if |lines| > 0 {
      PlainLinesKept(lines[..|lines| - 1]);
      assert lines[..|lines| - 1] + [lines[|lines| - 1]] == lines;
    }
  }

  /** `-e <url>#egg=<name>` becomes `<name>`, whatever the url holds. */
  lemma EditableWithEgg(url: string, name: string)
    requires !Occurs(name, "#egg=")
    ensures ParseLine("-e " + url + "#egg=" + name) == Some(name)
  {
    var line := "-e " + url + "#egg=" + name;
    var q := |line| - |name| - 5;
    assert line[q..] == "#egg=" + name;
    assert line[q + 5..] == name;
    assert OccursAt(line, "#egg=", q);
    forall j: nat | q < j ensures !OccursAt(line, "#egg=", j) {
      if j < q + 5 {
        assert line[j] == "#egg="[j - q] != '#';
      } else if j + 5 <= |line| {
        assert line[j..j + 5] == line[q + 5..][j - q - 5..j - q] == name[j - q - 5..j - q];
        assert !OccursAt(name, "#egg=", j - q - 5);
      }
    }
    assert LeadingSpaces(line) == 0;
    assert HasOption(line, 'e');
  }

  /** An editable requirement without an egg name is kept as it is. */
  lemma EditableWithoutEgg(path: string)
    requires !Occurs(path, "#egg=")
    ensures ParseLine("-e " + path) == Some("-e " + path)
  {
    var line := "-e " + path;
    assert line[3..] == path;
    forall j: nat | j <= |line| ensures !OccursAt(line, "#egg=", j) {
      if j + 5 > |line| {
      } else if j < 3 {
        assert line[j] != '#';
        assert line[j..j + 5][0] == line[j];
      } else {
        assert line[j..j + 5] == line[3..][j - 3..j + 2];
        assert !OccursAt(path, "#egg=", j - 3);
      }
    }
    assert LeadingSpaces(line) == 0;
    assert HasOption(line, 'e');
  }

  /** Comments (after any indentation), all-blank lines, `-r ` includes and
      `-f` find-links lines contribute nothing. */
  lemma SkippedLines(indent: string, rest: string)
    requires forall k :: 0 <= k < |indent| ==> IsSpace(indent[k])
    ensures ParseLine(indent + "#" + rest) == None
    ensures ParseLine(indent) == None
    ensures ParseLine("-r " + rest) == None
    ensures ParseLine("-f " + rest) == None
  {
    LeadingSpacesOf(indent, "#" + rest);
    assert indent + "#" + rest == indent + ("#" + rest);
    LeadingSpacesOf(indent, "");
    assert indent + "" == indent;
    assert StartsWith("-r " + rest, "-r ");
    assert LeadingSpaces("-f " + rest) == 0;
    assert HasOption("-f " + rest, 'f');
  }

  /** An indented include is kept verbatim: the `-r ` alternative of the
      pattern is not preceded by `\s*`. */
  lemma IndentedIncludeKept(rest: string)
    ensures ParseLine(" -r " + rest) == Some(" -r " + rest)
  {
    var line := " -r " + rest;
    assert LeadingSpaces(line[1..]) == 0;
    assert LeadingSpaces(line) == 1;
  }

  lemma {:induction false} LeadingSpacesOf(indent: string, rest: string)
    requires forall k :: 0 <= k < |indent| ==> IsSpace(indent[k])
    requires rest == [] || !IsSpace(rest[0])
    ensures LeadingSpaces(indent + rest) == |indent|
  {
    if |indent| > 0 {
      assert (indent + rest)[1..] == indent[1..] + rest;
      LeadingSpacesOf(indent[1..], rest);
    }
  }
}
