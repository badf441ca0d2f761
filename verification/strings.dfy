/** `String.prototype.split` and `Array.prototype.join` with a one-character
    separator, and the facts that make them inverse to each other. */
module Strings {

  /** `s.split(d)`: the maximal runs of `s` between occurrences of `d`;
      an empty string splits into one empty part. */
  function Split(s: string, d: char): (r: seq<string>)
    ensures |r| >= 1
    ensures forall i :: 0 <= i < |r| ==> d !in r[i]
  {
    if |s| == 0 then [""]
    else
      var rest := Split(s[1..], d);
      if s[0] == d then [""] + rest else [[s[0]] + rest[0]] + rest[1..]
  }

  /** `parts.join(d)`. */
  function Join(parts: seq<string>, d: char): string {
    if |parts| == 0 then ""
    else if |parts| == 1 then parts[0]
    else parts[0] + [d] + Join(parts[1..], d)
  }

  /** Joining the parts of a split restores the original string. */
  lemma {:induction false} JoinSplit(s: string, d: char)
    ensures Join(Split(s, d), d) == s
    decreases |s|
  {
    if |s| > 0 {
      JoinSplit(s[1..], d);
      var rest := Split(s[1..], d);
      if s[0] == d {
        assert Join([""] + rest, d) == [d] + Join(rest, d) by {
          assert ([""] + rest)[1..] == rest;
        }
        assert s == [d] + s[1..];
      } else if |rest| == 1 {
        assert s == [s[0]] + s[1..];
      } else {
        var first := [s[0]] + rest[0];
        assert ([first] + rest[1..])[1..] == rest[1..];
        assert Join([first] + rest[1..], d) == first + [d] + Join(rest[1..], d);
        assert s == [s[0]] + s[1..];
      }
    }
  }

  /** A string free of the separator splits into itself. */
  lemma {:induction false} SplitWithoutSeparator(s: string, d: char)
    requires d !in s
    ensures Split(s, d) == [s]
    decreases |s|
  {
    if |s| > 0 {
      SplitWithoutSeparator(s[1..], d);
      assert s == [s[0]] + s[1..];
    }
  }

  /** The first part of a split is the text before the first separator. */
  lemma {:induction false} SplitAtFirst(a: string, b: string, d: char)
    requires d !in a
    ensures Split(a + [d] + b, d) == [a] + Split(b, d)
    decreases |a|
  {
    if |a| == 0 {
      assert (a + [d] + b)[1..] == b;
    } else {
      SplitAtFirst(a[1..], b, d);
      assert (a + [d] + b)[1..] == a[1..] + [d] + b;
      assert a == [a[0]] + a[1..];
    }
  }

  /** Splitting a join of separator-free parts gives the parts back. */
  lemma {:induction false} SplitJoin(parts: seq<string>, d: char)
    requires |parts| >= 1
    requires forall i :: 0 <= i < |parts| ==> d !in parts[i]
    ensures Split(Join(parts, d), d) == parts
    decreases |parts|
  {
    if |parts| == 1 {
      SplitWithoutSeparator(parts[0], d);
    } else {
      SplitJoin(parts[1..], d);
      SplitAtFirst(parts[0], Join(parts[1..], d), d);
      assert parts == [parts[0]] + parts[1..];
    }
  }

  /** A string that contains the separator is the first part, the separator,
      and the remaining parts joined back with the separator. */
  lemma SplitHeadAndRest(s: string, d: char)
    requires d in s
    ensures |Split(s, d)| >= 2
    ensures s == Split(s, d)[0] + [d] + Join(Split(s, d)[1..], d)
  {
    var parts := Split(s, d);
    JoinSplit(s, d);
  }

  /** Splitting around one occurrence of the separator splits each side
      independently. */
  lemma {:induction false} SplitConcat(x: string, y: string, d: char)
    ensures Split(x + [d] + y, d) == Split(x, d) + Split(y, d)
    decreases |x|
  {
    if |x| == 0 {
      assert (x + [d] + y)[1..] == y;
    } else {
      var s := x + [d] + y;
      SplitConcat(x[1..], y, d);
      assert s[1..] == x[1..] + [d] + y;
      var a, b := Split(x[1..], d), Split(y, d);
      var rest := a + b;
      assert Split(s[1..], d) == rest;
      if x[0] == d {
        assert Split(s, d) == [""] + rest;
        assert Split(x, d) == [""] + a;
      } else {
        assert rest[0] == a[0] && rest[1..] == a[1..] + b;
        assert Split(s, d) == [[x[0]] + a[0]] + rest[1..];
        assert Split(x, d) == [[x[0]] + a[0]] + a[1..];
      }
    }
  }

  /** A string splits into more than one part exactly when it contains the separator. */
  lemma SplitSingleIffNoSeparator(s: string, d: char)
    ensures |Split(s, d)| == 1 <==> d !in s
  {
    if d in s {
      SplitHeadAndRest(s, d);
    } else {
      SplitWithoutSeparator(s, d);
    }
  }

  /** The number of occurrences of `d` in `s`. */
  function Occurrences(s: string, d: char): (n: nat)
    ensures n == 0 <==> d !in s
    ensures n <= |s|
  {
    if |s| == 0 then 0
    else (if s[0] == d then 1 else 0) + Occurrences(s[1..], d)
  }

  lemma {:induction false} OccurrencesAppend(a: string, b: string, d: char)
    ensures Occurrences(a + b, d) == Occurrences(a, d) + Occurrences(b, d)
    decreases |a|
  {
    if |a| > 0 {
      OccurrencesAppend(a[1..], b, d);
      assert (a + b)[1..] == a[1..] + b;
    } else {
      assert a + b == b;
    }
  }

  /** A split yields one part more than there are separators. */
  lemma {:induction false} SplitLength(s: string, d: char)
    ensures |Split(s, d)| == 1 + Occurrences(s, d)
    decreases |s|
  {
    if |s| > 0 {
      SplitLength(s[1..], d);
    }
  }

  function TotalOccurrences(parts: seq<string>, d: char): nat {
    if |parts| == 0 then 0 else Occurrences(parts[0], d) + TotalOccurrences(parts[1..], d)
  }

  /** `parts.join(sep)` with a separator of any length. */
  function JoinWith(parts: seq<string>, sep: string): string {
    if |parts| == 0 then ""
    else if |parts| == 1 then parts[0]
    else parts[0] + sep + JoinWith(parts[1..], sep)
  }

  lemma {:induction false} JoinWithOneChar(parts: seq<string>, d: char)
    ensures JoinWith(parts, [d]) == Join(parts, d)
    decreases |parts|
  {
    if |parts| > 1 {
      JoinWithOneChar(parts[1..], d);
    }
  }

  /** Joining with a separator that holds `d` once adds one `d` per gap
      to those of the parts. */
  lemma {:induction false} JoinWithOccurrences(parts: seq<string>, sep: string, d: char)
    requires |parts| >= 1
    requires Occurrences(sep, d) == 1
    ensures Occurrences(JoinWith(parts, sep), d) == |parts| - 1 + TotalOccurrences(parts, d)
    decreases |parts|
  {
    if |parts| > 1 {
      var rest := JoinWith(parts[1..], sep);
      JoinWithOccurrences(parts[1..], sep, d);
      OccurrencesAppend(parts[0], sep, d);
      OccurrencesAppend(parts[0] + sep, rest, d);
    }
  }

  /** A join holds no character other than the separator beyond those of its parts. */
  lemma {:induction false} JoinAddsOnlySeparator(parts: seq<string>, d: char, c: char)
    requires c != d
    requires forall i :: 0 <= i < |parts| ==> c !in parts[i]
    ensures c !in Join(parts, d)
    decreases |parts|
  {
    if |parts| > 1 {
      JoinAddsOnlySeparator(parts[1..], d, c);
    }
  }
}
