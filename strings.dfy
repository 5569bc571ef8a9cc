/**
 * The two JavaScript string operations the metrics exporter uses to take a
 * composite key `"<clientID>#<pluginName>"` apart: `String.prototype.split`
 * with a one-character separator, and `Array.prototype.join`.
 */
module Strings {

  /** `s.split(d)`: the maximal runs of `s` between occurrences of `d`. Never empty. */
  function Split(s: string, d: char): (parts: seq<string>)
    ensures |parts| >= 1
    ensures forall i :: 0 <= i < |parts| ==> d !in parts[i]
    decreases |s|
  {
    if s == [] then [""]
    else
      var rest := Split(s[1..], d);
      if s[0] == d then [""] + rest
      else [[s[0]] + rest[0]] + rest[1..]
  }

  /** `parts.join(d)`; the empty array joins to the empty string. */
  function Join(parts: seq<string>, d: char): string
  {
    if parts == [] then ""
    else if |parts| == 1 then parts[0]
    else parts[0] + [d] + Join(parts[1..], d)
  }

  /** Joining the pieces of a split with the same separator gives the string back. */
  lemma {:induction false} JoinSplit(s: string, d: char)
    ensures Join(Split(s, d), d) == s
    decreases |s|
  {
    if s != [] {
      var rest := Split(s[1..], d);
      JoinSplit(s[1..], d);
      if s[0] == d {
        assert Split(s, d) == [""] + rest;
        assert Join(Split(s, d), d) == "" + [d] + Join(rest, d);
        assert s == [s[0]] + s[1..];
      } else {
        var parts := Split(s, d);
        assert parts == [[s[0]] + rest[0]] + rest[1..];
        if |rest| == 1 {
          assert Join(parts, d) == [s[0]] + rest[0];
        } else {
          assert parts[1..] == rest[1..];
          assert Join(parts, d) == [s[0]] + rest[0] + [d] + Join(rest[1..], d);
        }
        assert s == [s[0]] + s[1..];
      }
    }
  }

  /** A string without the separator splits into itself alone. */
  lemma {:induction false} SplitWithout(s: string, d: char)
    requires d !in s
    ensures Split(s, d) == [s]
    decreases |s|
  {
    if s != [] {
      assert d !in s[1..] by {
        forall k | 0 <= k < |s[1..]| ensures s[1..][k] != d {
          assert s[1..][k] == s[k + 1];
        }
      }
      SplitWithout(s[1..], d);
      assert s == [s[0]] + s[1..];
    }
  }

  /** Joining at least two parts puts the separator right before the last part. */
  lemma {:induction false} JoinLast(parts: seq<string>, d: char)
    requires |parts| >= 2
    ensures Join(parts, d) == Join(parts[..|parts| - 1], d) + [d] + parts[|parts| - 1]
    decreases |parts|
  {
    if |parts| > 2 {
      JoinLast(parts[1..], d);
      assert parts[1..][..|parts| - 2] == parts[..|parts| - 1][1..];
    }
  }
}
