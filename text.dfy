/**
  The Python string operations the WSGI demo uses: slicing with step -1,
  `"\n".join(...)`, and its inverse `str.split("\n")`.
*/
module Text {
  /** `s[::-1]`: the elements of `s` in reverse order. */
  function Reversed<T>(s: seq<T>): (r: seq<T>)
    ensures |r| == |s|
    ensures forall i :: 0 <= i < |s| ==> r[i] == s[|s| - 1 - i]
  {
    if s == [] then [] else Reversed(s[1..]) + [s[0]]
  }

  /** Reversing twice gives back the original sequence. */
  lemma ReversedInvolution<T>(s: seq<T>)
    ensures Reversed(Reversed(s)) == s
  {
    var r := Reversed(s);
    assert forall i :: 0 <= i < |s| ==> Reversed(r)[i] == r[|s| - 1 - i] == s[i];
  }

  /** `"\n".join(lines)`: it starts with the first line. */
  function Join(lines: seq<string>): (s: string)
    ensures |lines| >= 1 ==> lines[0] <= s
  {
    if |lines| == 0 then ""
    else if |lines| == 1 then lines[0]
    else lines[0] + "\n" + Join(lines[1..])
  }

  /** `s.split("\n")`: the pieces between newlines; the empty string gives one empty piece. */
  function Split(s: string): (parts: seq<string>)
    ensures |parts| >= 1
  {
    if s == [] then [""]
    else if s[0] == '\n' then [""] + Split(s[1..])
    else
      var rest := Split(s[1..]);
      [[s[0]] + rest[0]] + rest[1..]
  }

  /** A string without newlines splits into itself. */
  lemma {:induction false} SplitWithoutNewline(s: string)
    requires '\n' !in s
    ensures Split(s) == [s]
  {
    if s != [] {
      assert s[0] != '\n' && '\n' !in s[1..];
      SplitWithoutNewline(s[1..]);
      assert [s[0]] + s[1..] == s;
    }
  }

  /** The first newline of a string ends its first piece. */
  lemma {:induction false} SplitAtNewline(a: string, b: string)
    requires '\n' !in a
    ensures Split(a + "\n" + b) == [a] + Split(b)
  {
    if a == [] {
      assert a + "\n" + b == ['\n'] + b;
    } else {
      var s := a + "\n" + b;
      assert s[0] == a[0] != '\n';
      assert s[1..] == a[1..] + "\n" + b;
      assert '\n' !in a[1..];
      SplitAtNewline(a[1..], b);
      assert [a[0]] + a[1..] == a;
    }
  }

  /** Splitting undoes joining when no line contains a newline. */
  lemma {:induction false} SplitJoin(lines: seq<string>)
    requires |lines| >= 1
    requires forall i :: 0 <= i < |lines| ==> '\n' !in lines[i]
    ensures Split(Join(lines)) == lines
  {
    if |lines| == 1 {
      SplitWithoutNewline(lines[0]);
    } else {
      SplitAtNewline(lines[0], Join(lines[1..]));
      SplitJoin(lines[1..]);
    }
  }

  /**
    Joining `n >= 1` newline-free lines puts exactly `n - 1` newlines between
    them and ends with the last line itself, so nothing trails it; no lines
    give the empty string.
  */
  lemma {:induction false} JoinSeparators(lines: seq<string>)
    requires forall i :: 0 <= i < |lines| ==> '\n' !in lines[i]
    ensures |lines| == 0 ==> Join(lines) == ""
    ensures |lines| >= 1 ==> multiset(Join(lines))['\n'] == |lines| - 1
    ensures |lines| >= 1 ==> var last := lines[|lines| - 1];
                             |last| <= |Join(lines)| && Join(lines)[|Join(lines)| - |last|..] == last
  {
    if |lines| == 1 {
      assert '\n' !in multiset(lines[0]);
    } else if |lines| > 1 {
      JoinSeparators(lines[1..]);
      var tail := Join(lines[1..]);
      assert Join(lines) == lines[0] + "\n" + tail;
      assert '\n' !in multiset(lines[0]);
      assert multiset(Join(lines)) == multiset(lines[0]) + multiset{'\n'} + multiset(tail);
      var last := lines[|lines| - 1];
      assert last == lines[1..][|lines| - 2];
      assert Join(lines)[|Join(lines)| - |last|..] == tail[|tail| - |last|..];
    }
  }
}
