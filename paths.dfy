/** `os.path.join` and `os.path.dirname` over a single directory separator
    `sep` (the value of `os.sep`; a backslash on the Windows target). */
module Paths {
  import opened Text

  /** `join(a, b)`: a `b` that starts with the separator replaces `a`; a
      separator is inserted only after a non-empty `a` that does not already
      end with one. */
  function JoinTwo(a: string, b: string, sep: char): (r: string)
    ensures |b| > 0 && b[0] == sep ==> r == b
    ensures !(|b| > 0 && b[0] == sep) && (a == [] || EndsWith(a, [sep])) ==> r == a + b
    ensures !(|b| > 0 && b[0] == sep) && !(a == [] || EndsWith(a, [sep])) ==> r == a + [sep] + b
  {
    if |b| > 0 && b[0] == sep then b
    else if a == [] || a[|a| - 1] == sep then a + b
    else a + [sep] + b
  }

  /** `join(*parts)`: a left fold of `JoinTwo` over the parts. */
  function Join(parts: seq<string>, sep: char): string
    requires |parts| >= 1
  {
    if |parts| == 1 then parts[0]
    else JoinTwo(Join(parts[..|parts| - 1], sep), parts[|parts| - 1], sep)
  }

  /** Index just past the last separator in `p`, or 0 when there is none. */
  function LastSepEnd(p: string, sep: char): (i: nat)
    ensures i <= |p|
    ensures i > 0 ==> p[i - 1] == sep
    ensures sep !in p[i..]
  {
    if |p| == 0 then 0
    else if p[|p| - 1] == sep then |p|
    else LastSepEnd(p[..|p| - 1], sep)
  }

  /** `s.rstrip(sep)`. */
  function RStrip(s: string, sep: char): (r: string)
    ensures StartsWith(s, r)
    ensures r == [] || r[|r| - 1] != sep
    ensures forall k :: |r| <= k < |s| ==> s[k] == sep
  {
    if |s| > 0 && s[|s| - 1] == sep then RStrip(s[..|s| - 1], sep) else s
  }

  /** `os.path.dirname(p)`: everything up to the last separator, with the
      trailing separators removed unless nothing else is left. */
  function Dirname(p: string, sep: char): (r: string)
    ensures StartsWith(p, r)
    ensures sep !in p ==> r == ""
  {
    var head := p[..LastSepEnd(p, sep)];
    var stripped := RStrip(head, sep);
    if stripped == [] then head else stripped
  }

  /** Joining separator-free, non-empty segments is plain concatenation
      with the separator between them. */
  lemma {:induction false} JoinIntercalate(parts: seq<string>, sep: char)
    requires |parts| >= 1
    requires forall k :: 0 <= k < |parts| ==> parts[k] != "" && sep !in parts[k]
    ensures Join(parts, sep) == Intercalate(parts, sep)
  {
    if |parts| > 1 {
      var init := parts[..|parts| - 1];
      JoinIntercalate(init, sep);
      IntercalateLast(parts, sep);
      if |init| > 1 {
        IntercalateLast(init, sep);
      }
      var last := init[|init| - 1];
      assert EndsWith(Intercalate(init, sep), last);
      assert Intercalate(init, sep)[|Intercalate(init, sep)| - 1] == last[|last| - 1];
    }
  }

  /** For a path whose segments are all non-empty, the segments survive a
      split followed by a join. */
  lemma JoinSplit(s: string, sep: char)
    requires NoEmptySegment(s, sep)
    ensures Join(Split(s, sep), sep) == s
  {
    SplitSepFree(s, sep);
    JoinIntercalate(Split(s, sep), sep);
    IntercalateSplit(s, sep);
  }

  /** The directory of a nested path is the path of its parent segments, and
      a path with one segment has the empty directory. */
  lemma {:induction false} DirnameOfSegments(parts: seq<string>, sep: char)
    requires |parts| >= 1
    requires forall k :: 0 <= k < |parts| ==> parts[k] != "" && sep !in parts[k]
    ensures |parts| == 1 ==> Dirname(Intercalate(parts, sep), sep) == ""
    ensures |parts| >= 2 ==>
      Dirname(Intercalate(parts, sep), sep) == Intercalate(parts[..|parts| - 1], sep)
  {
    if |parts| >= 2 {
      var init := parts[..|parts| - 1];
      var last := parts[|parts| - 1];
      var x := Intercalate(init, sep);
      IntercalateLast(parts, sep);
      if |init| >= 2 {
        IntercalateLast(init, sep);
      }
      assert EndsWith(x, init[|init| - 1]);
      assert x != [] && x[|x| - 1] != sep;
      var p := x + [sep] + last;
      LastSepEndAfter(x, sep, last);
      assert p[..|x| + 1] == x + [sep];
      assert (x + [sep])[..|x|] == x;
      assert RStrip(x + [sep], sep) == x;
    }
  }

  lemma {:induction false} LastSepEndAfter(x: string, sep: char, y: string)
    requires sep !in y
    ensures LastSepEnd(x + [sep] + y, sep) == |x| + 1
  {
    if |y| > 0 {
      var p := x + [sep] + y;
      assert p[..|p| - 1] == x + [sep] + y[..|y| - 1];
      assert y[|y| - 1] in y;
      LastSepEndAfter(x, sep, y[..|y| - 1]);
    }
  }
}
