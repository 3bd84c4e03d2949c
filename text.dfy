/** String primitives used by the build script: Python's `str.split` with an
    explicit separator, `str.startswith`/`endswith`, `str.replace` and the
    separator-joined form of a list of segments. Strings are `seq<char>`. */
module Text {

  datatype Option<+T> = None | Some(value: T)

  predicate StartsWith(s: string, prefix: string) {
    |prefix| <= |s| && s[..|prefix|] == prefix
  }

  predicate EndsWith(s: string, suffix: string) {
    |suffix| <= |s| && s[|s| - |suffix|..] == suffix
  }

  /** True when `pat` occurs in `s` starting at index `i`. */
  predicate OccursAt(s: string, pat: string, i: nat) {
    i + |pat| <= |s| && s[i..i + |pat|] == pat
  }

  ghost predicate Occurs(s: string, pat: string) {
    exists i: nat | i <= |s| :: OccursAt(s, pat, i)
  }

  /** `s.split(sep)`: the pieces between separators, always at least one. */
  function Split(s: string, sep: char): (parts: seq<string>)
    ensures |parts| >= 1
  {
    if |s| == 0 then [""]
    else if s[0] == sep then [""] + Split(s[1..], sep)
    else
      var rest := Split(s[1..], sep);
      [[s[0]] + rest[0]] + rest[1..]
  }

  /** No piece holds the separator. */
  lemma {:induction false} SplitSepFree(s: string, sep: char)
    ensures forall k :: 0 <= k < |Split(s, sep)| ==> sep !in Split(s, sep)[k]
  {
    if |s| > 0 {
      SplitSepFree(s[1..], sep);
      var rest := Split(s[1..], sep);
      if s[0] != sep {
        assert sep !in [s[0]] + rest[0];
      }
    }
  }

  /** `sep.join(parts)` for a non-empty list. */
  function Intercalate(parts: seq<string>, sep: char): string
    requires |parts| >= 1
  {
    if |parts| == 1 then parts[0] else parts[0] + [sep] + Intercalate(parts[1..], sep)
  }

  /** Every segment of `s` is non-empty: `s` is non-empty, does not start or
      end with `sep` and has no two adjacent separators. */
  predicate NoEmptySegment(s: string, sep: char) {
    var parts := Split(s, sep);
    forall k :: 0 <= k < |parts| ==> parts[k] != ""
  }

  lemma {:induction false} SplitNoSep(s: string, sep: char)
    requires sep !in s
    ensures Split(s, sep) == [s]
  {
    if |s| > 0 {
      SplitNoSep(s[1..], sep);
      assert [s[0]] + s[1..] == s;
    }
  }

  /** `Split` of a string that starts with the separator. */
  lemma SplitSepCons(sep: char, t: string)
    ensures Split([sep] + t, sep) == [""] + Split(t, sep)
  {
    assert ([sep] + t)[0] == sep && ([sep] + t)[1..] == t;
  }

  /** `Split` of a string that starts with another character. */
  lemma SplitCharCons(c: char, t: string, sep: char)
    requires c != sep
    ensures Split([c] + t, sep) == [[c] + Split(t, sep)[0]] + Split(t, sep)[1..]
  {
    assert ([c] + t)[0] == c && ([c] + t)[1..] == t;
  }

  /** Splitting distributes over a separator. */
  lemma {:induction false} SplitAround(x: string, sep: char, y: string)
    ensures Split(x + [sep] + y, sep) == Split(x, sep) + Split(y, sep)
  {
    if |x| == 0 {
      assert x + [sep] + y == [sep] + y;
      SplitSepCons(sep, y);
    } else {
      SplitAround(x[1..], sep, y);
      var c, x' := x[0], x[1..];
      var a, b := Split(x', sep), Split(y, sep);
      if c == sep {
        assert Split(x + [sep] + y, sep) == [""] + (a + b) by {
          assert x + [sep] + y == [sep] + (x' + [sep] + y);
          SplitSepCons(sep, x' + [sep] + y);
        }
        assert Split(x, sep) == [""] + a by {
          assert x == [sep] + x';
          SplitSepCons(sep, x');
        }
        HeadAssoc([""], a, b);
      } else {
        assert Split(x + [sep] + y, sep) == [[c] + (a + b)[0]] + (a + b)[1..] by {
          assert x + [sep] + y == [c] + (x' + [sep] + y);
          SplitCharCons(c, x' + [sep] + y, sep);
        }
        assert Split(x, sep) == [[c] + a[0]] + a[1..] by {
          assert x == [c] + x';
          SplitCharCons(c, x', sep);
        }
        HeadCons([c], a, b);
      }
    }
  }

  lemma HeadAssoc<T>(p: seq<T>, a: seq<T>, b: seq<T>)
    ensures p + (a + b) == (p + a) + b
  {
  }

  lemma HeadCons(head: string, a: seq<string>, b: seq<string>)
    requires |a| > 0
    ensures [head + (a + b)[0]] + (a + b)[1..] == ([head + a[0]] + a[1..]) + b
  {
    assert (a + b)[0] == a[0] && (a + b)[1..] == a[1..] + b;
  }

  /** Splitting undoes joining, when no segment holds the separator. */
  lemma {:induction false} SplitIntercalate(parts: seq<string>, sep: char)
    requires |parts| >= 1
    requires forall k :: 0 <= k < |parts| ==> sep !in parts[k]
    ensures Split(Intercalate(parts, sep), sep) == parts
  {
    if |parts| == 1 {
      SplitNoSep(parts[0], sep);
    } else {
      SplitIntercalate(parts[1..], sep);
      SplitAround(parts[0], sep, Intercalate(parts[1..], sep));
      SplitNoSep(parts[0], sep);
      assert [parts[0]] + parts[1..] == parts;
    }
  }

  /** Joining undoes splitting, for every string. */
  lemma {:induction false} IntercalateSplit(s: string, sep: char)
    ensures Intercalate(Split(s, sep), sep) == s
  {
    if |s| > 0 {
      IntercalateSplit(s[1..], sep);
      var rest := Split(s[1..], sep);
      if s[0] == sep {
        assert Split(s, sep)[1..] == rest;
        assert [s[0]] + s[1..] == s;
      } else {
        var parts := Split(s, sep);
        assert parts[1..] == rest[1..];
        if |rest| > 1 {
          assert rest == [rest[0]] + rest[1..];
        }
        assert [s[0]] + s[1..] == s;
      }
    }
  }

  /** The last segment is appended after the joined prefix. */
  lemma {:induction false} IntercalateLast(parts: seq<string>, sep: char)
    requires |parts| >= 2
    ensures Intercalate(parts, sep)
         == Intercalate(parts[..|parts| - 1], sep) + [sep] + parts[|parts| - 1]
  {
    if |parts| > 2 {
      IntercalateLast(parts[1..], sep);
      assert parts[1..][..|parts| - 2] == parts[..|parts| - 1][1..];
    }
  }

  /** `s.replace(target, replacement)`: every non-overlapping occurrence of `target`, found
      left to right, is replaced by `replacement`. */
  function ReplaceAll(s: string, target: string, replacement: string): (r: string)
    requires |target| > 0
    decreases |s|
  {
    if |s| < |target| then s
    else if s[..|target|] == target then replacement + ReplaceAll(s[|target|..], target, replacement)
    else [s[0]] + ReplaceAll(s[1..], target, replacement)
  }

  lemma {:induction false} ReplaceAllAbsent(s: string, target: string, replacement: string)
    requires |target| > 0
    requires !Occurs(s, target)
    ensures ReplaceAll(s, target, replacement) == s
  {
    if |s| >= |target| {
      assert !OccursAt(s, target, 0);
      forall i: nat | i <= |s[1..]| ensures !OccursAt(s[1..], target, i) {
        assert !OccursAt(s, target, i + 1);
      }
      ReplaceAllAbsent(s[1..], target, replacement);
      assert [s[0]] + s[1..] == s;
    }
  }

  /** Replacement passes over a prefix that cannot start an occurrence and
      replaces the occurrence right after it. */
  lemma {:induction false} ReplaceAllAfter(a: string, target: string, replacement: string, b: string)
    requires |target| > 0
    requires target[0] !in a
    ensures ReplaceAll(a + target + b, target, replacement)
         == a + replacement + ReplaceAll(b, target, replacement)
  {
    var s := a + target + b;
    if |a| == 0 {
      assert s == target + b;
      assert s[..|target|] == target;
      assert s[|target|..] == b;
    } else {
      var s' := a[1..] + target + b;
      assert s[0] == a[0] && s[1..] == s';
      assert s[..|target|] != target by {
        assert s[..|target|][0] == a[0] != target[0];
      }
      assert ReplaceAll(s, target, replacement) == [a[0]] + ReplaceAll(s', target, replacement);
      assert target[0] !in a[1..] by {
        assert forall c :: c in a[1..] ==> c in a;
      }
      ReplaceAllAfter(a[1..], target, replacement, b);
      assert [a[0]] + a[1..] == a;
    }
  }

  /** The same when the prefix may hold the target's first character but
      not its second, and the target's first two characters differ: no
      occurrence can start inside the prefix, nor straddle its end. */
  lemma {:induction false} ReplaceAllAfterSecond(a: string, target: string, replacement: string, b: string)
    requires |target| >= 2 && target[0] != target[1]
    requires target[1] !in a
    ensures ReplaceAll(a + target + b, target, replacement)
         == a + replacement + ReplaceAll(b, target, replacement)
  {
    var s := a + target + b;
    if |a| == 0 {
      assert s == target + b;
      assert s[..|target|] == target;
      assert s[|target|..] == b;
    } else {
      var s' := a[1..] + target + b;
      assert s[0] == a[0] && s[1..] == s';
      assert s[..|target|] != target by {
        if |a| == 1 {
          assert s[..|target|][1] == target[0];
        } else {
          assert s[..|target|][1] == a[1];
        }
      }
      assert ReplaceAll(s, target, replacement) == [a[0]] + ReplaceAll(s', target, replacement);
      assert target[1] !in a[1..] by {
        assert forall c :: c in a[1..] ==> c in a;
      }
      ReplaceAllAfterSecond(a[1..], target, replacement, b);
      assert [a[0]] + a[1..] == a;
    }
  }

  /** `s.replace(a, b)` for single characters. */
  function ReplaceChar(s: string, a: char, b: char): (r: string)
    ensures |r| == |s|
    ensures forall k :: 0 <= k < |s| ==> r[k] == (if s[k] == a then b else s[k])
  {
    if |s| == 0 then "" else [if s[0] == a then b else s[0]] + ReplaceChar(s[1..], a, b)
  }
}
