/**
 * Python's `str.split(sep)` for a one-character separator, its inverse
 * `sep.join(parts)`, and the branch name at the end of a Git ref
 * (`ref.split('/')[-1]`).
 */
module Text {

  /**
   * `s.split(sep)`: the maximal separator-free runs of `s`, in order; an
   * empty string gives one empty part, and each separator starts a new part.
   */
  function Split(s: string, sep: char): (parts: seq<string>)
    ensures |parts| >= 1
    ensures forall k :: 0 <= k < |parts| ==> sep !in parts[k]
    decreases |s|
  {
    if |s| == 0 then [""]
    else
      var rest := Split(s[1..], sep);
      if s[0] == sep then [""] + rest
      else [[s[0]] + rest[0]] + rest[1..]
  }

  /** `sep.join(parts)`. */
  function Join(parts: seq<string>, sep: char): string
    decreases |parts|
  {
    if |parts| == 0 then ""
    else if |parts| == 1 then parts[0]
    else parts[0] + ([sep] + Join(parts[1..], sep))
  }

  /** The last `/`-separated segment of a ref: `ref.split('/')[-1]`. */
  function LastSegment(ref: string): (seg: string)
    ensures '/' !in seg
  {
    var parts := Split(ref, '/');
    parts[|parts| - 1]
  }

  /** Joining the parts of a split gives back the string. */
  lemma {:induction false} JoinSplit(s: string, sep: char)
    ensures Join(Split(s, sep), sep) == s
    decreases |s|
  {
    if |s| > 0 {
      var rest := Split(s[1..], sep);
      JoinSplit(s[1..], sep);
      if s[0] == sep {
        assert ([""] + rest)[1..] == rest;
        assert s == [sep] + s[1..];
      } else {
        var parts := [[s[0]] + rest[0]] + rest[1..];
        if |rest| == 1 {
          assert s == [s[0]] + s[1..];
        } else {
          assert parts[1..] == rest[1..];
          assert Join(rest, sep) == rest[0] + [sep] + Join(rest[1..], sep);
          assert s == [s[0]] + s[1..];
        }
      }
    }
  }

  /** A separator-free prefix is glued onto the first part of what follows it. */
  lemma {:induction false} SplitPrefix(a: string, x: string, sep: char)
    requires sep !in a
    ensures Split(a + x, sep) == [a + Split(x, sep)[0]] + Split(x, sep)[1..]
    decreases |a|
  {
    if |a| == 0 {
      var rest := Split(x, sep);
      assert a + x == x && a + rest[0] == rest[0];
      assert rest == [rest[0]] + rest[1..];
    } else {
      assert (a + x)[0] == a[0];
      assert (a + x)[1..] == a[1..] + x;
      SplitPrefix(a[1..], x, sep);
      assert [a[0]] + (a[1..] + Split(x, sep)[0]) == a + Split(x, sep)[0];
    }
  }

  /** Splitting a join of separator-free parts gives back the parts. */
  lemma {:induction false} SplitJoin(parts: seq<string>, sep: char)
    requires |parts| >= 1
    requires forall k :: 0 <= k < |parts| ==> sep !in parts[k]
    ensures Split(Join(parts, sep), sep) == parts
    decreases |parts|
  {
    if |parts| == 1 {
      SplitPrefix(parts[0], "", sep);
      assert parts[0] + "" == parts[0];
    } else {
      var tail := Join(parts[1..], sep);
      SplitJoin(parts[1..], sep);
      assert Split([sep] + tail, sep) == [""] + parts[1..] by {
        assert ([sep] + tail)[1..] == tail;
      }
      assert Join(parts, sep) == parts[0] + ([sep] + tail);
      SplitPrefix(parts[0], [sep] + tail, sep);
      assert ([""] + parts[1..])[1..] == parts[1..];
      assert ([""] + parts[1..])[0] == "";
      assert parts[0] + "" == parts[0];
      assert parts == [parts[0]] + parts[1..];
    }
  }

  /** The last part of a join follows the last separator. */
  lemma {:induction false} JoinLast(parts: seq<string>, sep: char)
    requires |parts| >= 2
    ensures Join(parts, sep) == Join(parts[..|parts| - 1], sep) + [sep] + parts[|parts| - 1]
    decreases |parts|
  {
    if |parts| > 2 {
      JoinLast(parts[1..], sep);
      assert parts[1..][..|parts| - 2] == parts[..|parts| - 1][1..];
    }
  }

  /**
   * `seg` is the longest `/`-free suffix of `ref`: it contains no `/`, ends
   * `ref`, and is either the whole of `ref` or preceded by `/` in it.
   */
  predicate LongestPlainSuffix(seg: string, ref: string) {
    '/' !in seg && |seg| <= |ref| && ref[|ref| - |seg|..] == seg &&
    (|seg| < |ref| ==> ref[|ref| - |seg| - 1] == '/')
  }

  /** The branch name is the longest `/`-free suffix of the ref. */
  lemma LastSegmentIsSuffix(ref: string)
    ensures LongestPlainSuffix(LastSegment(ref), ref)
  {
    var parts := Split(ref, '/');
    var seg := parts[|parts| - 1];
    JoinSplit(ref, '/');
    if |parts| >= 2 {
      JoinLast(parts, '/');
      var init := Join(parts[..|parts| - 1], '/');
      assert ref == init + ['/'] + seg;
      assert |ref| - |seg| == |init| + 1;
      assert ref[|init|] == '/';
      assert ref[|init| + 1..] == seg;
    } else {
      assert ref == seg;
    }
  }

  /** A ref without `/` is its own last segment. */
  lemma LastSegmentOfPlainName(name: string)
    requires '/' !in name
    ensures LastSegment(name) == name
  {
    SplitJoin([name], '/');
  }
}
