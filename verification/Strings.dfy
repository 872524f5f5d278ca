/** Strings split at every occurrence of one character. */
module Strings {

  function Split(s: string, c: char): (parts: seq<string>)
    ensures parts != []
  {
    if s == "" then [""]
    else
      var rest := Split(s[1..], c);
      if s[0] == c then [""] + rest else [[s[0]] + rest[0]] + rest[1..]
  }

  lemma {:induction false} SplitOfJoin(a: string, c: char, b: string)
    ensures Split(a + [c] + b, c) == Split(a, c) + Split(b, c)
  {
    if a == "" {
      assert a + [c] + b == [c] + b;
      assert ([c] + b)[1..] == b;
    } else {
      assert (a + [c] + b)[1..] == a[1..] + [c] + b;
      SplitOfJoin(a[1..], c, b);
    }
  }

  lemma {:induction false} SplitOfPart(s: string, c: char)
    requires c !in s
    ensures Split(s, c) == [s]
  {
    if s != "" {
      SplitOfPart(s[1..], c);
      assert [s[0]] + s[1..] == s;
    }
  }

  lemma FirstPart(s: string, c: char)
    requires s != ""
    ensures
      var parts, rest := Split(s, c), Split(s[1..], c);
      if s[0] == c then parts[0] == "" && parts[1..] == rest
      else parts[0] != "" && parts[0][0] == s[0] && parts[0][1..] == rest[0] && parts[1..] == rest[1..]
  {
  }

  lemma SplitOfNonEmpty(a: string, c: char)
    requires a != ""
    ensures Split(a, c) != [""]
  {
  }

  lemma {:induction false} SplitInjective(a: string, b: string, c: char)
    requires Split(a, c) == Split(b, c)
    ensures a == b
  {
    if a != "" && b != "" {
      var ra, rb := Split(a[1..], c), Split(b[1..], c);
      FirstPart(a, c);
      FirstPart(b, c);
      assert a[0] == b[0];
      assert ra == [ra[0]] + ra[1..] && rb == [rb[0]] + rb[1..];
      SplitInjective(a[1..], b[1..], c);
      assert a == [a[0]] + a[1..] && b == [b[0]] + b[1..];
    } else if a != "" {
      SplitOfNonEmpty(a, c);
    } else if b != "" {
      SplitOfNonEmpty(b, c);
    }
  }

  /** A proper suffix of the parts comes from a suffix after a separator. */
  lemma {:induction false} SuffixAfter(s: string, c: char, k: nat) returns (head: string, tail: string)
    requires 0 < k < |Split(s, c)|
    ensures s == head + [c] + tail && Split(tail, c) == Split(s, c)[k..]
  {
    if s[0] == c && k == 1 {
      head, tail := "", s[1..];
      assert s == [c] + tail;
    } else {
      var rest := Split(s[1..], c);
      var j := if s[0] == c then k - 1 else k;
      assert Split(s, c)[k..] == rest[j..];
      head, tail := SuffixAfter(s[1..], c, j);
      assert s == [s[0]] + (head + [c] + tail);
      head := [s[0]] + head;
    }
  }
}
