/** The few operations on Python strings that several modules share. */
module Texts {
  import opened Wrappers

  /** The characters that `str.strip` removes. */
  predicate IsSpace(c: char) {
    || '\t' <= c <= '\r' || '\U{1C}' <= c <= ' ' || c == '\U{85}' || c == '\U{A0}' || c == '\U{1680}'
    || '\U{2000}' <= c <= '\U{200A}' || c == '\U{2028}' || c == '\U{2029}' || c == '\U{202F}'
    || c == '\U{205F}' || c == '\U{3000}'
  }

  /** They are the 29 blank characters of Unicode as Python knows them, and no others. */
  lemma BlankCharacters(c: char)
    ensures IsSpace(c) <==>
              || c in ['\t', '\n', '\U{B}', '\U{C}', '\r', '\U{1C}', '\U{1D}', '\U{1E}', '\U{1F}', ' ']
              || c in ['\U{85}', '\U{A0}', '\U{1680}', '\U{2000}', '\U{2001}', '\U{2002}', '\U{2003}', '\U{2004}']
              || c in ['\U{2005}', '\U{2006}', '\U{2007}', '\U{2008}', '\U{2009}', '\U{200A}', '\U{2028}']
              || c in ['\U{2029}', '\U{202F}', '\U{205F}', '\U{3000}']
  {
  }

  function StripLeft(s: string): string {
    if s != [] && IsSpace(s[0]) then StripLeft(s[1..]) else s
  }

  function StripRight(s: string): string {
    if s != [] && IsSpace(s[|s| - 1]) then StripRight(s[..|s| - 1]) else s
  }

  function Strip(s: string): string {
    StripRight(StripLeft(s))
  }

  predicate AllSpace(s: string) {
    forall i :: 0 <= i < |s| ==> IsSpace(s[i])
  }

  /** Stripping takes off the outer blanks, all of them, and nothing else. */
  lemma StripMeans(s: string) returns (left: string, right: string)
    ensures s == left + Strip(s) + right && AllSpace(left) && AllSpace(right)
    ensures Strip(s) != [] ==> !IsSpace(Strip(s)[0]) && !IsSpace(Strip(s)[|Strip(s)| - 1])
  {
    hide IsSpace;
    left := StripLeftMeans(s);
    right := StripRightMeans(StripLeft(s));
    var rest := StripLeft(s);
    assert Strip(s) != [] ==> rest[0] == Strip(s)[0];
  }

  lemma {:induction false} StripLeftMeans(s: string) returns (left: string)
    ensures s == left + StripLeft(s) && AllSpace(left)
    ensures StripLeft(s) != [] ==> !IsSpace(StripLeft(s)[0])
  {
    hide IsSpace;
    left := [];
    if s != [] && IsSpace(s[0]) {
      var rest := StripLeftMeans(s[1..]);
      left := [s[0]] + rest;
    }
  }

  lemma {:induction false} StripRightMeans(s: string) returns (right: string)
    ensures s == StripRight(s) + right && AllSpace(right)
    ensures StripRight(s) != [] ==> !IsSpace(StripRight(s)[|StripRight(s)| - 1])
  {
    hide IsSpace;
    right := [];
    if s != [] && IsSpace(s[|s| - 1]) {
      var rest := StripRightMeans(s[..|s| - 1]);
      right := rest + [s[|s| - 1]];
    }
  }

  /** Code-point order, as Python compares strings. */
  predicate Less(a: string, b: string) {
    b != [] && (a == [] || a[0] < b[0] || (a[0] == b[0] && Less(a[1..], b[1..])))
  }

  /** The texts agree up to k, and there a is at its end or has the smaller character. */
  predicate DiffersAt(a: string, b: string, k: nat) {
    k <= |a| && k < |b| && a[..k] == b[..k] && (k == |a| || a[k] < b[k])
  }

  lemma DiffersBehind(a: string, b: string, k: nat)
    requires a != [] && b != [] && a[0] == b[0]
    ensures DiffersAt(a[1..], b[1..], k) <==> DiffersAt(a, b, k + 1)
  {
    if k < |a| && k < |b| {
      assert a[..k + 1] == [a[0]] + a[1..][..k] && b[..k + 1] == [b[0]] + b[1..][..k];
      assert a[..k + 1][1..] == a[1..][..k] && b[..k + 1][1..] == b[1..][..k];
    }
  }

  lemma DiffersAtOnce(a: string, b: string, k: nat)
    ensures DiffersAt(a, b, 0) <==> b != [] && (a == [] || a[0] < b[0])
    ensures 0 < k && DiffersAt(a, b, k) ==> a != [] && b != [] && a[0] == b[0]
  {
    if 0 < k && DiffersAt(a, b, k) {
      assert a[..k][0] == b[..k][0];
    }
  }

  /** The first difference decides, and what merely goes on is greater. */
  lemma {:induction false} LessIsLexicographic(a: string, b: string)
    ensures Less(a, b) <==> exists k: nat :: DiffersAt(a, b, k)
  {
    hide DiffersAt;
    DiffersAtOnce(a, b, 0);
    if a != [] && b != [] && a[0] == b[0] {
      LessIsLexicographic(a[1..], b[1..]);
      forall k: nat
        ensures DiffersAt(a[1..], b[1..], k) <==> DiffersAt(a, b, k + 1)
      {
        DiffersBehind(a, b, k);
      }
      if k: nat :| DiffersAt(a, b, k) {
        assert k > 0 ==> DiffersAt(a[1..], b[1..], k - 1);
      }
    } else if k: nat :| DiffersAt(a, b, k) {
      DiffersAtOnce(a, b, k);
    }
  }

  lemma {:induction false} LessIsTotal(a: string, b: string)
    ensures Less(a, b) || a == b || Less(b, a)
  {
    if a != [] && b != [] && a[0] == b[0] {
      LessIsTotal(a[1..], b[1..]);
      if a[1..] == b[1..] {
        assert a == [a[0]] + a[1..];
        assert b == [b[0]] + b[1..];
      }
    }
  }

  lemma {:induction false} LessIsAsymmetric(a: string, b: string)
    requires Less(a, b)
    ensures !Less(b, a) && a != b
  {
    if a != [] && a[0] == b[0] {
      LessIsAsymmetric(a[1..], b[1..]);
    }
  }

  lemma {:induction false} LessIsTransitive(a: string, b: string, c: string)
    requires Less(a, b) && Less(b, c)
    ensures Less(a, c)
  {
    if a != [] && a[0] == b[0] && b[0] == c[0] {
      LessIsTransitive(a[1..], b[1..], c[1..]);
    }
  }

  /** `text.partition(mark)`: what stands before the first mark, and what follows it if there is one. */
  function Partition(s: string, mark: char): (r: (string, Option<string>))
    ensures mark !in r.0
    ensures s == r.0 + (if r.1.Some? then [mark] + r.1.value else [])
  {
    if s == [] then ([], None)
    else if s[0] == mark then ([], Some(s[1..]))
    else
      var rest := Partition(s[1..], mark);
      ([s[0]] + rest.0, rest.1)
  }

  lemma {:induction false} PartitionAt(before: string, mark: char, after: string)
    requires mark !in before
    ensures Partition(before + [mark] + after, mark) == (before, Some(after))
  {
    var s := before + [mark] + after;
    if before == [] {
      assert s[1..] == after;
    } else {
      assert s[1..] == before[1..] + [mark] + after;
      PartitionAt(before[1..], mark, after);
      assert before == [before[0]] + before[1..];
    }
  }

  lemma {:induction false} PartitionNowhere(s: string, mark: char)
    requires mark !in s
    ensures Partition(s, mark) == (s, None)
  {
    if s == [] {
    } else {
      PartitionNowhere(s[1..], mark);
      assert s == [s[0]] + s[1..];
    }
  }
}
