/**
 * The six counters of a scan (`ProjectOverview`) and the reading of one file:
 * `files` goes up by one for the file, and every line bumps `lines` and exactly
 * one of `blanks`, `comments` and `codeLines`.
 */
module Counters {
  import opened LineClass

  /** The counters `evaluate` accumulates; modelled as unbounded naturals. */
  datatype Overview = Overview(files: nat, folders: nat, lines: nat, codeLines: nat, comments: nat, blanks: nat)

  /** The names of the six counters, so that what a scan adds can be stated one counter at a time. */
  datatype Counter = Files | Folders | Lines | CodeLines | Comments | Blanks

  /** The value of counter `c` in `o`. */
  function Get(o: Overview, c: Counter): nat {
    match c
    case Files => o.files
    case Folders => o.folders
    case Lines => o.lines
    case CodeLines => o.codeLines
    case Comments => o.comments
    case Blanks => o.blanks
  }

  /** Two overviews that agree on every counter are the same. */
  lemma SameCounters(a: Overview, b: Overview)
    requires forall c :: Get(a, c) == Get(b, c)
    ensures a == b
  {
    assert Get(a, Files) == Get(b, Files) && Get(a, Folders) == Get(b, Folders);
    assert Get(a, Lines) == Get(b, Lines) && Get(a, CodeLines) == Get(b, CodeLines);
    assert Get(a, Comments) == Get(b, Comments) && Get(a, Blanks) == Get(b, Blanks);
  }

  /** Every counter of `a` is at most the same counter of `b`. */
  predicate AtMost(a: Overview, b: Overview) {
    a.files <= b.files && a.folders <= b.folders && a.lines <= b.lines &&
    a.codeLines <= b.codeLines && a.comments <= b.comments && a.blanks <= b.blanks
  }

  /** The accounting invariant: each line counted is counted as exactly one kind. */
  predicate Balanced(o: Overview) {
    o.lines == o.codeLines + o.comments + o.blanks
  }

  /** How many of `lines` are classified as `kind`. */
  function Occurrences(lines: seq<string>, kind: LineKind): (n: nat)
    ensures n <= |lines|
  {
    if lines == [] then 0
    else Occurrences(lines[..|lines| - 1], kind) + (if Classify(lines[|lines| - 1]) == kind then 1 else 0)
  }

  /** The three kinds split the lines of a file between them. */
  lemma {:induction false} OccurrencesPartition(lines: seq<string>)
    ensures Occurrences(lines, Code) + Occurrences(lines, Comment) + Occurrences(lines, Blank) == |lines|
  {
    if lines != [] {
      OccurrencesPartition(lines[..|lines| - 1]);
    }
  }

  /** A file's lines are all blank exactly when each of them is whitespace only. */
  lemma {:induction false} AllBlank(lines: seq<string>)
    ensures Occurrences(lines, Blank) == |lines| <==>
            forall i, j :: 0 <= i < |lines| && 0 <= j < |lines[i]| ==> IsWhitespace(lines[i][j])
  {
    if lines != [] {
      var init := lines[..|lines| - 1];
      AllBlank(init);
      ClassifyMeaning(lines[|lines| - 1]);
      assert forall i :: 0 <= i < |init| ==> init[i] == lines[i];
    }
  }

  /** What reading one file whose lines are `lines` adds to counter `c`: one file, and each line counted once by kind. */
  function FileCount(lines: seq<string>, c: Counter): nat {
    match c
    case Files => 1
    case Folders => 0
    case Lines => |lines|
    case CodeLines => Occurrences(lines, Code)
    case Comments => Occurrences(lines, Comment)
    case Blanks => Occurrences(lines, Blank)
  }

  /** What one line of kind `k` adds to counter `c`: one line, and one of its kind. */
  function LineCount(k: LineKind, c: Counter): nat {
    match c
    case Files => 0
    case Folders => 0
    case Lines => 1
    case CodeLines => if k == Code then 1 else 0
    case Comments => if k == Comment then 1 else 0
    case Blanks => if k == Blank then 1 else 0
  }

  /** Reading one more line of a file adds what that line adds. */
  lemma FileCountStep(lines: seq<string>, i: nat)
    requires i < |lines|
    ensures forall c :: FileCount(lines[..i + 1], c) == FileCount(lines[..i], c) + LineCount(Classify(lines[i]), c)
  {
    assert lines[..i + 1][..i] == lines[..i];
  }

  /** Each line of a file is counted as exactly one kind. */
  lemma FileCountBalanced(lines: seq<string>)
    ensures FileCount(lines, Lines) == FileCount(lines, CodeLines) + FileCount(lines, Comments) + FileCount(lines, Blanks)
  {
    OccurrencesPartition(lines);
  }

  /** An empty file still counts as one file and adds no line. */
  lemma EmptyFileCount(c: Counter)
    ensures FileCount([], c) == if c == Files then 1 else 0
  {
  }

  /**
   * Reading one file whose lines are `lines` into the counters `o`: `files`
   * goes up first, then every line bumps `lines` and the counter of its kind.
   * The accounting invariant holds after every line.
   */
  method ScanFile(o: Overview, lines: seq<string>) returns (r: Overview)
    ensures forall c :: Get(r, c) == Get(o, c) + FileCount(lines, c)
    ensures AtMost(o, r)
    ensures Balanced(o) ==> Balanced(r)
  {
    r := o.(files := o.files + 1);
    for i := 0 to |lines|
      invariant forall c :: Get(r, c) == Get(o, c) + FileCount(lines[..i], c)
      invariant AtMost(o, r)
      invariant Balanced(o) ==> Balanced(r)
    {
      FileCountStep(lines, i);
      ghost var before := r;
      var kind := Classify(lines[i]);
      r := r.(lines := r.lines + 1);
      match kind {
        case Blank => r := r.(blanks := r.blanks + 1);
        case Comment => r := r.(comments := r.comments + 1);
        case Code => r := r.(codeLines := r.codeLines + 1);
      }
      assert forall c :: Get(r, c) == Get(before, c) + LineCount(kind, c);
    }
    assert lines[..|lines|] == lines;
  }
}
