/**
  Python's `str.split(sep)` and `sep.join(parts)` for a one-character separator,
  as used on model completions (split on '\n') and on rendered transcripts
  (joined with '\n').
 */
module Text {

  lemma AppendAssoc<T>(a: seq<T>, b: seq<T>, c: seq<T>)
    ensures (a + b) + c == a + (b + c)
  {
  }

  /**
    `sep.join(parts)`: the parts with one separator between neighbours. No
    parts give the empty text; otherwise the text opens with the first part,
    followed by a separator when more parts come.
   */
  function Join(parts: seq<string>, sep: char): string
    decreases |parts|
  {
    if |parts| == 0 then ""
    else if |parts| == 1 then parts[0]
    else parts[0] + [sep] + Join(parts[1..], sep)
  }

  /**
    A join opens with the first part; with more parts, the separator comes
    right after it. Joining nothing gives the empty string.
  */
  lemma JoinFront(parts: seq<string>, sep: char)
    ensures |parts| == 0 ==> Join(parts, sep) == ""
    ensures |parts| > 0 ==> parts[0] <= Join(parts, sep)
    ensures |parts| > 1 ==>
              |parts[0]| < |Join(parts, sep)| && Join(parts, sep)[|parts[0]|] == sep
  {
  }

  lemma JoinCons(p: string, ps: seq<string>, sep: char)
    requires |ps| >= 1
    ensures Join([p] + ps, sep) == p + [sep] + Join(ps, sep)
  {
    assert ([p] + ps)[1..] == ps;
  }

  /** Prepending a character to the first part prepends it to the joined text. */
  lemma JoinPrependChar(c: char, ps: seq<string>, sep: char)
    requires |ps| >= 1
    ensures Join([[c] + ps[0]] + ps[1..], sep) == [c] + Join(ps, sep)
  {
    if |ps| > 1 {
      JoinCons([c] + ps[0], ps[1..], sep);
    }
  }

  /**
    `s.split(sep)`: the maximal separator-free pieces of `s`, in order. There is
    always at least one piece (the empty text splits into one empty piece), and
    joining the pieces back gives `s`.
   */
  function Split(s: string, sep: char): (parts: seq<string>)
    ensures |parts| >= 1
    ensures forall i :: 0 <= i < |parts| ==> sep !in parts[i]
    ensures Join(parts, sep) == s
    ensures sep !in s ==> parts == [s]
    decreases |s|
  {
    if |s| == 0 then [""]
    else
      var rest := Split(s[1..], sep);
      assert [s[0]] + s[1..] == s;
      if s[0] == sep then
        JoinCons("", rest, sep);
        [""] + rest
      else
        JoinPrependChar(s[0], rest, sep);
        [[s[0]] + rest[0]] + rest[1..]
  }

  /** A leading separator closes an empty first piece. */
  lemma SplitSep(y: string, sep: char)
    ensures Split([sep] + y, sep) == [""] + Split(y, sep)
  {
    assert ([sep] + y)[1..] == y;
  }

  /** A leading non-separator character belongs to the first piece. */
  lemma SplitChar(c: char, z: string, sep: char)
    requires c != sep
    ensures Split([c] + z, sep) == [[c] + Split(z, sep)[0]] + Split(z, sep)[1..]
  {
    assert ([c] + z)[1..] == z;
  }

  /** Splitting after a separator-free segment yields that segment first. */
  lemma {:induction false} SplitSegment(x: string, y: string, sep: char)
    requires sep !in x
    ensures Split(x + [sep] + y, sep) == [x] + Split(y, sep)
    decreases |x|
  {
    if |x| == 0 {
      assert x + [sep] + y == [sep] + y;
      SplitSep(y, sep);
    } else {
      var z := x[1..] + [sep] + y;
      SplitSegment(x[1..], y, sep);
      assert x + [sep] + y == [x[0]] + z;
      SplitChar(x[0], z, sep);
      assert [x[0]] + x[1..] == x;
    }
  }

  /**
    The text after the last separator is the last piece: whatever precedes a
    separator, a separator-free tail comes out as the final piece on its own.
   */
  lemma {:induction false} SplitLast(x: string, y: string, sep: char)
    requires sep !in y
    ensures |Split(x + [sep] + y, sep)| >= 2
    ensures Split(x + [sep] + y, sep)[|Split(x + [sep] + y, sep)| - 1] == y
    decreases |x|
  {
    if |x| == 0 {
      assert x + [sep] + y == [sep] + y;
      SplitSep(y, sep);
      assert Split(y, sep) == [y];
    } else {
      var z := x[1..] + [sep] + y;
      SplitLast(x[1..], y, sep);
      assert x + [sep] + y == [x[0]] + z;
      if x[0] == sep {
        SplitSep(z, sep);
      } else {
        SplitChar(x[0], z, sep);
      }
    }
  }

  /** Join and Split are inverse on non-empty lists of separator-free parts. */
  lemma {:induction false} SplitJoin(parts: seq<string>, sep: char)
    requires |parts| >= 1
    requires forall i :: 0 <= i < |parts| ==> sep !in parts[i]
    ensures Split(Join(parts, sep), sep) == parts
    decreases |parts|
  {
    if |parts| > 1 {
      SplitJoin(parts[1..], sep);
      SplitSegment(parts[0], Join(parts[1..], sep), sep);
      assert [parts[0]] + parts[1..] == parts;
    }
  }

  /** Appending a part appends one separator and the part. */
  lemma {:induction false} JoinSnoc(parts: seq<string>, p: string, sep: char)
    requires |parts| >= 1
    ensures Join(parts + [p], sep) == Join(parts, sep) + [sep] + p
    decreases |parts|
  {
    if |parts| == 1 {
      assert parts + [p] == [parts[0]] + [p];
      JoinCons(parts[0], [p], sep);
    } else {
      JoinSnoc(parts[1..], p, sep);
      assert (parts + [p])[1..] == parts[1..] + [p];
      JoinCons(parts[0], parts[1..] + [p], sep);
      assert [parts[0]] + parts[1..] == parts;
      JoinCons(parts[0], parts[1..], sep);
    }
  }
}
