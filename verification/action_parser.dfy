/**
  The action-directive grammar `^Action: (\w+): (.*)$` of app.py, applied with
  `re.match` (anchored at the start, no MULTILINE flag) to each line of a
  completion split on '\n'. `\w` is approximated by ASCII word characters.
 */
module ActionParser {
  import opened Wrappers
  import opened Text

  const Prefix: string := "Action: "
  const Separator: string := ": "

  /** ASCII approximation of the regular-expression class `\w`. */
  predicate IsWordChar(c: char) {
    ('a' <= c <= 'z') || ('A' <= c <= 'Z') || ('0' <= c <= '9') || c == '_'
  }

  /** A non-empty run of word characters: what `(\w+)` captures. */
  predicate IsName(s: string) {
    |s| > 0 && forall i :: 0 <= i < |s| ==> IsWordChar(s[i])
  }

  /** The two groups of a match: the action name and its argument. */
  datatype Directive = Directive(name: string, arg: string)

  /** A directive the pattern can capture: `(.*)` never covers a newline. */
  predicate WellFormed(d: Directive) {
    IsName(d.name) && '\n' !in d.arg
  }

  /** The wire format of a directive line. */
  function Format(d: Directive): string {
    Prefix + d.name + Separator + d.arg
  }

  /** Length of the maximal run of word characters in `s` starting at `from`. */
  function WordRun(s: string, from: nat): (n: nat)
    requires from <= |s|
    ensures from + n <= |s|
    ensures forall i :: from <= i < from + n ==> IsWordChar(s[i])
    ensures from + n == |s| || !IsWordChar(s[from + n])
    decreases |s| - from
  {
    if from < |s| && IsWordChar(s[from]) then 1 + WordRun(s, from + 1) else 0
  }

  /**
    `action_re.match(line)`. The greedy `\w+` can only stop at the end of the
    word run, because ':' is not a word character; `(.*)` takes everything up
    to the first newline and `$` then holds at the end of the text or just
    before a final newline.
   */
  function MatchLine(line: string): (r: Option<Directive>)
    ensures r.Some? ==> WellFormed(r.value)
    ensures r.Some? ==> line == Format(r.value) || line == Format(r.value) + "\n"
  {
    if |line| < |Prefix| || line[..|Prefix|] != Prefix then None
    else
      var n := WordRun(line, |Prefix|);
      var j := |Prefix| + n;
      if n == 0 || j + |Separator| > |line| || line[j..j + |Separator|] != Separator then None
      else
        var name := line[|Prefix|..j];
        var rest := line[j + |Separator|..];
        assert line == Prefix + name + Separator + rest;
        if '\n' !in rest then Some(Directive(name, rest))
        else if rest[|rest| - 1] == '\n' && '\n' !in rest[..|rest| - 1] then
          assert rest == rest[..|rest| - 1] + "\n";
          Some(Directive(name, rest[..|rest| - 1]))
        else None
  }

  /** A word run that is followed by a non-word character has exactly that length. */
  lemma WordRunExact(s: string, from: nat, k: nat)
    requires from + k <= |s|
    requires forall i :: from <= i < from + k ==> IsWordChar(s[i])
    requires from + k == |s| || !IsWordChar(s[from + k])
    ensures WordRun(s, from) == k
  {
  }

  /** Every well-formed directive line is recognised, with or without one final newline. */
  lemma MatchFormat(d: Directive)
    requires WellFormed(d)
    ensures MatchLine(Format(d)) == Some(d)
    ensures MatchLine(Format(d) + "\n") == Some(d)
  {
    var line := Format(d);
    var j := |Prefix| + |d.name|;
    assert line[..|Prefix|] == Prefix;
    assert line[|Prefix|..j] == d.name;
    assert line[j] == ':';
    WordRunExact(line, |Prefix|, |d.name|);
    assert line[j..j + |Separator|] == Separator;
    assert line[j + |Separator|..] == d.arg;

    var line' := line + "\n";
    assert line'[..|Prefix|] == Prefix;
    assert line'[|Prefix|..j] == d.name;
    assert line'[j] == ':';
    WordRunExact(line', |Prefix|, |d.name|);
    assert line'[j..j + |Separator|] == Separator;
    var rest := line'[j + |Separator|..];
    assert rest == d.arg + "\n";
    assert rest[..|rest| - 1] == d.arg;
  }

  /**
    The grammar, both directions: a line is a directive exactly when it is the
    prefix, a name, the separator and a newline-free argument (optionally
    followed by one final newline), and then the groups are that name and argument.
   */
  lemma MatchLineIff(line: string, d: Directive)
    ensures MatchLine(line) == Some(d)
        <==> WellFormed(d) && (line == Format(d) || line == Format(d) + "\n")
  {
    if WellFormed(d) && (line == Format(d) || line == Format(d) + "\n") {
      MatchFormat(d);
    }
  }

  /** For a line without newlines, as produced by splitting, the grammar is exactly `Format`. */
  lemma MatchSplitLine(line: string, d: Directive)
    requires '\n' !in line
    ensures MatchLine(line) == Some(d) <==> WellFormed(d) && line == Format(d)
  {
    MatchLineIff(line, d);
  }

  /** `[action_re.match(a) for a in lines if action_re.match(a)]`, keeping the groups. */
  function MatchAll(lines: seq<string>): (r: seq<Directive>)
    ensures |r| <= |lines|
    ensures r == [] <==> forall i :: 0 <= i < |lines| ==> MatchLine(lines[i]).None?
    decreases |lines|
  {
    if lines == [] then []
    else
      var rest := MatchAll(lines[1..]);
      assert forall i :: 1 <= i < |lines| ==> lines[i] == lines[1..][i - 1];
      match MatchLine(lines[0])
      case Some(d) => [d] + rest
      case None => rest
  }

  /** `d` is on line `i`, and no earlier line is a directive. */
  predicate FirstMatchAt(lines: seq<string>, i: int, d: Directive) {
    && 0 <= i < |lines|
    && MatchLine(lines[i]) == Some(d)
    && forall j :: 0 <= j < i ==> MatchLine(lines[j]).None?
  }

  /** The head of the match list comes from the first matching line. */
  lemma {:induction false} MatchAllHead(lines: seq<string>)
    requires MatchAll(lines) != []
    ensures exists i :: FirstMatchAt(lines, i, MatchAll(lines)[0])
    decreases |lines|
  {
    if MatchLine(lines[0]).Some? {
      assert FirstMatchAt(lines, 0, MatchAll(lines)[0]);
    } else {
      MatchAllHead(lines[1..]);
      var i' :| FirstMatchAt(lines[1..], i', MatchAll(lines[1..])[0]);
      var i := i' + 1;
      assert lines[i] == lines[1..][i'];
      forall j | 0 <= j < i
        ensures MatchLine(lines[j]).None?
      {
        if j > 0 {
          assert lines[j] == lines[1..][j - 1];
        }
      }
      assert FirstMatchAt(lines, i, MatchAll(lines)[0]);
    }
  }

  /** Matching distributes over concatenation of line lists: line order is kept. */
  lemma {:induction false} MatchAllAppend(a: seq<string>, b: seq<string>)
    ensures MatchAll(a + b) == MatchAll(a) + MatchAll(b)
    decreases |a|
  {
    if a == [] {
      assert a + b == b;
    } else {
      var ab := a + b;
      assert ab[0] == a[0];
      assert ab[1..] == a[1..] + b;
      MatchAllAppend(a[1..], b);
      match MatchLine(a[0])
      case Some(d) =>
        calc {
          MatchAll(ab);
          [d] + MatchAll(a[1..] + b);
          [d] + (MatchAll(a[1..]) + MatchAll(b));
          ([d] + MatchAll(a[1..])) + MatchAll(b);
        }
      case None =>
    }
  }

  /** `d` is the match of some line. */
  predicate OnSomeLine(lines: seq<string>, d: Directive) {
    exists j :: 0 <= j < |lines| && MatchLine(lines[j]) == Some(d)
  }

  lemma OnLaterLine(lines: seq<string>, d: Directive)
    requires |lines| > 0 && OnSomeLine(lines[1..], d)
    ensures OnSomeLine(lines, d)
  {
    var j :| 0 <= j < |lines[1..]| && MatchLine(lines[1..][j]) == Some(d);
    assert lines[j + 1] == lines[1..][j];
  }

  /** Every element of the match list is the match of some line. */
  lemma {:induction false} MatchAllFrom(lines: seq<string>)
    ensures forall d :: d in MatchAll(lines) ==> OnSomeLine(lines, d)
    decreases |lines|
  {
    if lines != [] {
      MatchAllFrom(lines[1..]);
      forall d | d in MatchAll(lines)
        ensures OnSomeLine(lines, d)
      {
        if d in MatchAll(lines[1..]) {
          OnLaterLine(lines, d);
        } else {
          assert MatchLine(lines[0]) == Some(d);
        }
      }
    }
  }

  /** The directives of a completion, in line order. */
  function Directives(text: string): seq<Directive> {
    MatchAll(Split(text, '\n'))
  }

  /**
    The directives of a completion are well formed, each written in wire
    format on a line of its own, at most one per line; there are none exactly
    when no line matches.
   */
  lemma {:induction false} DirectivesSpec(text: string)
    ensures |Directives(text)| <= |Split(text, '\n')|
    ensures Directives(text) == [] <==>
              forall i :: 0 <= i < |Split(text, '\n')| ==> MatchLine(Split(text, '\n')[i]).None?
    ensures forall i :: 0 <= i < |Directives(text)| ==>
              WellFormed(Directives(text)[i]) && Format(Directives(text)[i]) in Split(text, '\n')
  {
    var lines := Split(text, '\n');
    var ds := Directives(text);
    MatchAllFrom(lines);
    forall i | 0 <= i < |ds|
      ensures WellFormed(ds[i]) && Format(ds[i]) in lines
    {
      assert ds[i] in MatchAll(lines);
      var j :| 0 <= j < |lines| && MatchLine(lines[j]) == Some(ds[i]);
      MatchSplitLine(lines[j], ds[i]);
    }
  }

  /**
    The directive that gets dispatched (`actions[0]`): the head of the
    directive list, if there is one.
   */
  function FirstDirective(text: string): Option<Directive> {
    var ds := Directives(text);
    if ds == [] then None else Some(ds[0])
  }

  /**
    The first-match tie-break: there is no directive exactly when no line
    matches; otherwise the dispatched directive is well formed and is written,
    in wire format, on the first line that matches.
   */
  lemma FirstDirectiveSpec(text: string)
    ensures FirstDirective(text).None?
            <==> forall i :: 0 <= i < |Split(text, '\n')| ==> MatchLine(Split(text, '\n')[i]).None?
    ensures FirstDirective(text).Some? ==> WellFormed(FirstDirective(text).value)
    ensures FirstDirective(text).Some? ==>
              exists i :: FirstMatchAt(Split(text, '\n'), i, FirstDirective(text).value)
                          && Split(text, '\n')[i] == Format(FirstDirective(text).value)
  {
    if Directives(text) != [] {
      DirectiveHead(text);
    }
  }

  /** The head of the directive list sits, in wire format, on the first matching line. */
  lemma DirectiveHead(text: string)
    requires Directives(text) != []
    ensures exists i :: FirstMatchAt(Split(text, '\n'), i, Directives(text)[0])
                        && Split(text, '\n')[i] == Format(Directives(text)[0])
  {
    var lines := Split(text, '\n');
    var d := Directives(text)[0];
    MatchAllHead(lines);
    var i :| FirstMatchAt(lines, i, d);
    MatchSplitLine(lines[i], d);
    assert lines[i] == Format(d);
  }

  /** A directive on the first line wins; whatever follows is ignored. */
  lemma FirstLineWins(line: string, rest: string, d: Directive)
    requires '\n' !in line
    requires MatchLine(line) == Some(d)
    ensures FirstDirective(line + "\n" + rest) == Some(d)
  {
    SplitSegment(line, rest, '\n');
    MatchAllAppend([line], Split(rest, '\n'));
  }

  /** A first line that is not a directive is skipped. */
  lemma NonDirectiveLineSkipped(line: string, rest: string)
    requires '\n' !in line
    requires MatchLine(line).None?
    ensures FirstDirective(line + "\n" + rest) == FirstDirective(rest)
  {
    SplitSegment(line, rest, '\n');
    MatchAllAppend([line], Split(rest, '\n'));
  }

  /** A directive line carries no line break. */
  lemma FormatSingleLine(d: Directive)
    requires WellFormed(d)
    ensures '\n' !in Format(d)
  {
    assert !IsWordChar('\n');
    assert '\n' !in d.name;
    assert Format(d) == Prefix + d.name + Separator + d.arg;
  }

  /** A completion that is exactly one well-formed directive line yields that directive. */
  lemma DirectiveLineRoundTrip(d: Directive)
    requires WellFormed(d)
    ensures FirstDirective(Format(d)) == Some(d)
  {
    MatchFormat(d);
    FormatSingleLine(d);
    SingleLine(Format(d));
  }

  /**
    The usual shape of a completion: a thought line, then a directive line,
    then anything at all. The thought is skipped and whatever follows the
    directive is ignored, further directives included.
   */
  lemma ThoughtThenDirective(thought: string, d: Directive, rest: string)
    requires '\n' !in thought && MatchLine(thought).None?
    requires WellFormed(d)
    ensures FirstDirective(thought + "\n" + (Format(d) + "\n" + rest)) == Some(d)
  {
    MatchFormat(d);
    FormatSingleLine(d);
    FirstLineWins(Format(d), rest, d);
    NonDirectiveLineSkipped(thought, Format(d) + "\n" + rest);
  }

  /** A completion that is one directive line yields that directive. */
  lemma SingleLine(line: string)
    requires '\n' !in line
    ensures FirstDirective(line) == MatchLine(line)
  {
  }
}
