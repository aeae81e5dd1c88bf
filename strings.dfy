/** The string operations the validator relies on: removing space characters
    (`str.replace(' ', '')`), joining lines (`"\n".join`) and, as the inverse
    used to state what a joined message contains, splitting (`str.split`). */
module Strings {

  /** The formula with every U+0020 space character removed. Tabs, newlines
      and other whitespace are kept. */
  function RemoveSpaces(s: string): (r: string)
    ensures forall i :: 0 <= i < |r| ==> r[i] != ' '
    ensures multiset(r) == multiset(s)[' ' := 0]
  {
    if s == [] then []
    else if s[0] == ' ' then
      assert s == [s[0]] + s[1..];
      RemoveSpaces(s[1..])
    else
      assert s == [s[0]] + s[1..];
      [s[0]] + RemoveSpaces(s[1..])
  }

  /** Removing spaces works piecewise on a concatenation. */
  lemma {:induction false} RemoveSpacesAppend(a: string, b: string)
    ensures RemoveSpaces(a + b) == RemoveSpaces(a) + RemoveSpaces(b)
  {
    if a == [] {
      assert a + b == b;
    } else {
      assert (a + b)[0] == a[0];
      assert (a + b)[1..] == a[1..] + b;
      RemoveSpacesAppend(a[1..], b);
    }
  }

  /** A string with no space in it is left as it is. */
  lemma {:induction false} RemoveSpacesNoSpace(s: string)
    requires forall i :: 0 <= i < |s| ==> s[i] != ' '
    ensures RemoveSpaces(s) == s
  {
    if s != [] {
      RemoveSpacesNoSpace(s[1..]);
    }
  }

  /** Stripping twice is the same as stripping once. */
  lemma RemoveSpacesIdempotent(s: string)
    ensures RemoveSpaces(RemoveSpaces(s)) == RemoveSpaces(s)
  {
    RemoveSpacesNoSpace(RemoveSpaces(s));
  }

  /** Inserting a space between two parts is undone by stripping. */
  lemma RemoveSpacesInsert(front: string, back: string)
    ensures RemoveSpaces(front + " " + back) == RemoveSpaces(front + back)
  {
    RemoveSpacesAppend(front + " ", back);
    RemoveSpacesAppend(front, " ");
    RemoveSpacesAppend(front, back);
  }

  /** `sep.join(xs)`: the strings of xs with one separator between neighbours. */
  function Join(xs: seq<string>, sep: char): (r: string)
    ensures |xs| == 1 ==> r == xs[0]
  {
    if |xs| == 0 then []
    else if |xs| == 1 then xs[0]
    else xs[0] + [sep] + Join(xs[1..], sep)
  }

  /** `s.split(sep)`: the maximal pieces of s between separators; never empty. */
  function Split(s: string, sep: char): (r: seq<string>)
    ensures |r| > 0
  {
    if s == [] then [[]]
    else if s[0] == sep then [[]] + Split(s[1..], sep)
    else
      var pieces := Split(s[1..], sep);
      [[s[0]] + pieces[0]] + pieces[1..]
  }

  /** Splitting a separator-free prefix glued to t extends t's first piece. */
  lemma {:induction false} SplitPrefix(a: string, t: string, sep: char)
    requires sep !in a
    ensures Split(a + t, sep) == [a + Split(t, sep)[0]] + Split(t, sep)[1..]
  {
    if a == [] {
      assert a + t == t;
      var pieces := Split(t, sep);
      assert a + pieces[0] == pieces[0];
      assert pieces == [pieces[0]] + pieces[1..];
    } else {
      assert (a + t)[0] == a[0];
      assert (a + t)[1..] == a[1..] + t;
      SplitPrefix(a[1..], t, sep);
      assert [a[0]] + (a[1..] + Split(t, sep)[0]) == a + Split(t, sep)[0];
    }
  }

  /** Split undoes Join when no piece contains the separator. */
  lemma {:induction false} SplitJoin(xs: seq<string>, sep: char)
    requires |xs| > 0
    requires forall i :: 0 <= i < |xs| ==> sep !in xs[i]
    ensures Split(Join(xs, sep), sep) == xs
  {
    if |xs| == 1 {
      SplitPrefix(xs[0], [], sep);
      assert xs[0] + [] == xs[0];
    } else {
      var tail := Join(xs[1..], sep);
      SplitJoin(xs[1..], sep);
      assert xs[0] + [sep] + tail == xs[0] + ([sep] + tail);
      SplitPrefix(xs[0], [sep] + tail, sep);
      assert ([sep] + tail)[0] == sep && ([sep] + tail)[1..] == tail;
      assert Split([sep] + tail, sep) == [[]] + Split(tail, sep);
      assert xs[0] + [] == xs[0];
      assert xs == [xs[0]] + xs[1..];
    }
  }

  /** A first line followed by joined lines splits back into all of them. */
  lemma SplitLines(head: string, lines: seq<string>, sep: char)
    requires sep !in head && |lines| > 0
    requires forall i :: 0 <= i < |lines| ==> sep !in lines[i]
    ensures Split(head + [sep] + Join(lines, sep), sep) == [head] + lines
  {
    var all := [head] + lines;
    assert all[1..] == lines;
    SplitJoin(all, sep);
  }
}
