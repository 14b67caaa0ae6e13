/**
 * The JavaScript string operations the console's path helpers rely on:
 * `String.prototype.split` with a one-character separator,
 * `Array.prototype.join`, and `String.prototype.lastIndexOf`.
 */
module Strings {

  /** `s.split(sep)`: the maximal separator-free pieces between separators.
      There is always at least one piece, so `"".split("/")` is `[""]`. */
  function Split(s: string, sep: char): (parts: seq<string>)
    ensures |parts| >= 1
    decreases |s|
  {
    if s == [] then [""]
    else
      var rest := Split(s[1..], sep);
      if s[0] == sep then [""] + rest
      else [[s[0]] + rest[0]] + rest[1..]
  }

  /** The pieces hold no separator, and there is one more piece than there are
      separators. */
  lemma {:induction false} SplitPieces(s: string, sep: char)
    ensures forall i :: 0 <= i < |Split(s, sep)| ==> sep !in Split(s, sep)[i]
    ensures |Split(s, sep)| == 1 + CountOf(s, sep)
    decreases |s|
  {
    if s != [] {
      SplitPieces(s[1..], sep);
      var rest := Split(s[1..], sep);
      if s[0] != sep {
        var parts := Split(s, sep);
        assert parts[0] == [s[0]] + rest[0];
        forall i | 1 <= i < |parts| ensures sep !in parts[i] {
          assert parts[i] == rest[i];
        }
      }
    }
  }

  /** Number of occurrences of `c` in `s`. */
  function CountOf(s: string, c: char): nat
    decreases |s|
  {
    if s == [] then 0 else (if s[0] == c then 1 else 0) + CountOf(s[1..], c)
  }

  /** `parts.join(sep)`; the empty array joins to the empty string. */
  function Join(parts: seq<string>, sep: char): string
    decreases |parts|
  {
    if |parts| == 0 then ""
    else if |parts| == 1 then parts[0]
    else parts[0] + [sep] + Join(parts[1..], sep)
  }

  /** `s.lastIndexOf(c)`: the last index holding `c`, or -1 when there is none. */
  function LastIndexOf(s: string, c: char): (i: int)
    ensures -1 <= i < |s|
    ensures i >= 0 ==> s[i] == c && c !in s[i + 1..]
    ensures i == -1 <==> c !in s
    decreases |s|
  {
    if s == [] then -1
    else if s[|s| - 1] == c then |s| - 1
    else
      var j := LastIndexOf(s[..|s| - 1], c);
      assert s[..|s| - 1] + [s[|s| - 1]] == s;
      j
  }

  /** Joining the pieces of a split gives back the string. */
  lemma {:induction false} JoinSplit(s: string, sep: char)
    ensures Join(Split(s, sep), sep) == s
    decreases |s|
  {
    if s != [] {
      var rest := Split(s[1..], sep);
      JoinSplit(s[1..], sep);
      if s[0] == sep {
        assert Split(s, sep) == [""] + rest;
        assert ([""] + rest)[1..] == rest;
        assert s == [sep] + s[1..];
      } else {
        var parts := Split(s, sep);
        assert parts == [[s[0]] + rest[0]] + rest[1..];
        if |rest| == 1 {
          assert Join(rest, sep) == rest[0];
        } else {
          assert parts[1..] == rest[1..];
          assert Join(rest, sep) == rest[0] + [sep] + Join(rest[1..], sep);
        }
        assert s == [s[0]] + s[1..];
      }
    }
  }

  /** A string without the separator is its own single piece. */
  lemma {:induction false} SplitWithoutSep(s: string, sep: char)
    requires sep !in s
    ensures Split(s, sep) == [s]
    decreases |s|
  {
    if s != [] {
      assert sep !in s[1..] by {
        forall k | 0 <= k < |s[1..]| ensures s[1..][k] != sep { assert s[1..][k] == s[k + 1]; }
      }
      SplitWithoutSep(s[1..], sep);
      assert [s[0]] + s[1..] == s;
    }
  }

  /** One step of the split: the first character either closes the first piece
      or opens it. */
  lemma SplitCons(s: string, sep: char)
    requires s != []
    ensures s[0] == sep ==> Split(s, sep) == [""] + Split(s[1..], sep)
    ensures s[0] != sep ==> Split(s, sep) == [[s[0]] + Split(s[1..], sep)[0]] + Split(s[1..], sep)[1..]
  {
  }

  /** Concatenation regroups. */
  lemma PiecesAssoc(x: seq<string>, y: seq<string>, z: seq<string>)
    ensures x + (y + z) == (x + y) + z
  {
  }

  /** Splitting distributes over a separator: the pieces of `a + sep + b`
      are the pieces of `a` followed by the pieces of `b`. */
  lemma {:induction false} SplitAround(a: string, sep: char, b: string)
    ensures Split(a + [sep] + b, sep) == Split(a, sep) + Split(b, sep)
    decreases |a|
  {
    if a == [] {
      var s := a + [sep] + b;
      assert s[0] == sep && s[1..] == b;
      SplitCons(s, sep);
    } else {
      SplitAround(a[1..], sep, b);
      SplitAroundStep(a, sep, b);
    }
  }

  /** The inductive step of `SplitAround`: from the tail of `a` to `a`. */
  lemma SplitAroundStep(a: string, sep: char, b: string)
    requires a != []
    requires Split(a[1..] + [sep] + b, sep) == Split(a[1..], sep) + Split(b, sep)
    ensures Split(a + [sep] + b, sep) == Split(a, sep) + Split(b, sep)
  {
    var s := a + [sep] + b;
    assert s[0] == a[0] && s[1..] == a[1..] + [sep] + b;
    if a[0] == sep {
      SplitAroundSep(s, a, sep, b);
    } else {
      SplitAroundChar(s, a, sep, b);
    }
  }

  /** The step when `a` opens with the separator. */
  lemma SplitAroundSep(s: string, a: string, sep: char, b: string)
    requires a != [] && s != [] && a[0] == sep && s[0] == sep
    requires Split(s[1..], sep) == Split(a[1..], sep) + Split(b, sep)
    ensures Split(s, sep) == Split(a, sep) + Split(b, sep)
  {
    SplitCons(s, sep);
    SplitCons(a, sep);
    PiecesAssoc([""], Split(a[1..], sep), Split(b, sep));
  }

  /** The step when `a` opens with another character. */
  lemma SplitAroundChar(s: string, a: string, sep: char, b: string)
    requires a != [] && s != [] && a[0] != sep && s[0] == a[0]
    requires Split(s[1..], sep) == Split(a[1..], sep) + Split(b, sep)
    ensures Split(s, sep) == Split(a, sep) + Split(b, sep)
  {
    SplitCons(s, sep);
    SplitCons(a, sep);
    ExtendFirstPiece(a[0], Split(a[1..], sep), Split(b, sep));
  }

  /** Prefixing the first piece of `x + y` is prefixing the first piece of `x`. */
  lemma ExtendFirstPiece(c: char, x: seq<string>, y: seq<string>)
    requires x != []
    ensures [[c] + (x + y)[0]] + (x + y)[1..] == ([[c] + x[0]] + x[1..]) + y
  {
    assert (x + y)[0] == x[0] && (x + y)[1..] == x[1..] + y;
  }

  /** Splitting a join of separator-free pieces gives the pieces back. */
  lemma {:induction false} SplitJoin(parts: seq<string>, sep: char)
    requires |parts| >= 1
    requires forall i :: 0 <= i < |parts| ==> sep !in parts[i]
    ensures Split(Join(parts, sep), sep) == parts
    decreases |parts|
  {
    if |parts| == 1 {
      SplitWithoutSep(parts[0], sep);
    } else {
      SplitJoin(parts[1..], sep);
      SplitAround(parts[0], sep, Join(parts[1..], sep));
      SplitWithoutSep(parts[0], sep);
    }
  }

  /** The pieces of separator-free `parts`, joined and followed by a separator and
      `rest`, are `parts` followed by the pieces of `rest`. */
  lemma SplitJoinThen(parts: seq<string>, sep: char, rest: string)
    requires |parts| >= 1
    requires forall i :: 0 <= i < |parts| ==> sep !in parts[i]
    ensures Split(Join(parts, sep) + [sep] + rest, sep) == parts + Split(rest, sep)
  {
    SplitAround(Join(parts, sep), sep, rest);
    SplitJoin(parts, sep);
  }

  /** Joining peels off one leading piece at a time. */
  lemma JoinCons(parts: seq<string>, sep: char)
    requires |parts| >= 2
    ensures Join(parts, sep) == parts[0] + [sep] + Join(parts[1..], sep)
  {
  }

  /** The join of four or more pieces, with its first four pieces written out. */
  lemma JoinFour(parts: seq<string>, sep: char)
    requires |parts| >= 4
    ensures |parts| == 4 ==>
      Join(parts, sep) == parts[0] + [sep] + parts[1] + [sep] + parts[2] + [sep] + parts[3]
    ensures |parts| > 4 ==>
      Join(parts, sep) == parts[0] + [sep] + parts[1] + [sep] + parts[2] + [sep] + parts[3] + [sep] + Join(parts[4..], sep)
  {
    JoinCons(parts, sep);
    JoinCons(parts[1..], sep);
    assert parts[1..][1..] == parts[2..];
    JoinCons(parts[2..], sep);
    assert parts[2..][1..] == parts[3..];
    if |parts| > 4 {
      JoinCons(parts[3..], sep);
      assert parts[3..][1..] == parts[4..];
    }
  }
}
