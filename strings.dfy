/**
 * The two string operations the start-up code uses on the -addr-env flag:
 * strings.SplitN(s, sep, 2) and strings.Split(s, sep), for a one-character
 * separator.
 */
module Strings {

  /** strings.SplitN(s, [sep], 2): [s] when sep does not occur, otherwise the
      text before and after its first occurrence. */
  function SplitN2(s: string, sep: char): (parts: seq<string>)
    ensures |parts| == 1 || |parts| == 2
    ensures |parts| == 2 <==> sep in s
    ensures |parts| == 1 ==> parts[0] == s
    ensures |parts| == 2 ==> sep !in parts[0] && parts[0] + [sep] + parts[1] == s
    decreases |s|
  {
    if s == [] then [s]
    else if s[0] == sep then ["", s[1..]]
    else
      var rest := SplitN2(s[1..], sep);
      if |rest| == 1 then [s] else [[s[0]] + rest[0], rest[1]]
  }

  /** strings.Split(s, [sep]): the pieces between the separators, in order;
      the empty string still yields one (empty) piece. */
  function Split(s: string, sep: char): (parts: seq<string>)
    ensures |parts| >= 1
    ensures forall i :: 0 <= i < |parts| ==> sep !in parts[i]
    decreases |s|
  {
    var cut := SplitN2(s, sep);
    if |cut| == 1 then [s] else [cut[0]] + Split(cut[1], sep)
  }

  /** strings.Join(parts, [sep]), the inverse of Split. */
  function Join(parts: seq<string>, sep: char): (s: string)
    requires |parts| >= 1
  {
    if |parts| == 1 then parts[0] else parts[0] + [sep] + Join(parts[1..], sep)
  }

  /** Splitting loses nothing: joining the pieces gives the string back. */
  lemma {:induction false} JoinSplit(s: string, sep: char)
    ensures Join(Split(s, sep), sep) == s
    decreases |s|
  {
    var cut := SplitN2(s, sep);
    if |cut| == 2 {
      JoinSplit(cut[1], sep);
      assert Split(s, sep)[1..] == Split(cut[1], sep);
    }
  }

  /** Pieces free of the separator are recovered exactly by Split. */
  lemma {:induction false} SplitJoin(parts: seq<string>, sep: char)
    requires |parts| >= 1
    requires forall i :: 0 <= i < |parts| ==> sep !in parts[i]
    ensures Split(Join(parts, sep), sep) == parts
  {
    if |parts| > 1 {
      var s := Join(parts, sep);
      SplitN2Unique(parts[0], Join(parts[1..], sep), sep);
      SplitJoin(parts[1..], sep);
    }
  }

  /** The first occurrence of the separator determines SplitN's answer. */
  lemma {:induction false} SplitN2Unique(before: string, after: string, sep: char)
    requires sep !in before
    ensures SplitN2(before + [sep] + after, sep) == [before, after]
    decreases |before|
  {
    var s := before + [sep] + after;
    if before != [] {
      assert s[1..] == before[1..] + [sep] + after;
      SplitN2Unique(before[1..], after, sep);
      assert s[0] == before[0] && before[0] != sep;
      assert [s[0]] + before[1..] == before;
    } else {
      assert s[0] == sep && s[1..] == after;
    }
  }
}
