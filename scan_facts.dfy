/**
 * What a whole scan yields, stated on `Scan` (which `Evaluate` is proved to
 * compute): where the counters come from, which entries matter, and the
 * behaviour on small trees.
 */
module ScanFacts {
  import opened LineClass
  import opened Counters
  import opened FileTree
  import opened Evaluator

  /**
   * A successful scan counts every entry met below the root once: one file per
   * file, one folder per UTF-8 subdirectory, and every line of every file met.
   */
  lemma ScanCountsVisited(e: Entry)
    ensures Scan(Some(e)).Ok? ==> forall c :: Get(Scan(Some(e)).overview, c) == Tally(Visited(e.children), c)
    ensures Scan(Some(e)).Ok? ==> Scan(Some(e)).overview.files == CountFiles(Visited(e.children))
    ensures Scan(Some(e)).Ok? ==> Scan(Some(e)).overview.folders == CountFolders(Visited(e.children))
    ensures Scan(Some(e)).Ok? ==> Scan(Some(e)).overview.lines == CountLines(Visited(e.children))
  {
    if Scan(Some(e)).Ok? {
      forall c {
        ContentCountIsTally(e.children, c);
      }
      TallyCounts(Visited(e.children));
      assert Scan(Some(e)).overview.files == Get(Scan(Some(e)).overview, Files);
      assert Scan(Some(e)).overview.folders == Get(Scan(Some(e)).overview, Folders);
      assert Scan(Some(e)).overview.lines == Get(Scan(Some(e)).overview, Lines);
    }
  }

  /**
   * An existing root makes the scan abort exactly when it cannot be listed, or
   * some entry the scan meets below it, at any depth, fails when met: a file
   * that cannot be read or a UTF-8 subdirectory that cannot be listed.
   */
  lemma ScanAbortsExactly(e: Entry)
    ensures Scan(Some(e)) == Aborted <==>
            e.File? || !e.readable || exists x :: x in Visited(e.children) && FailsWhenMet(x)
  {
    if e.Dir? {
      AnyAbortsIsFlat(e.children);
    }
  }

  /** A listable root with no entries gives all-zero counters. */
  lemma EmptyRoot(utf8Path: bool)
    ensures Scan(Some(Dir(utf8Path, true, []))) == Ok(Overview(0, 0, 0, 0, 0, 0))
  {
  }

  /** A root that is a file, or a directory that cannot be listed, makes the scan abort. */
  lemma UnlistableRoot(e: Entry)
    requires e.File? || !e.readable
    ensures Scan(Some(e)) == Aborted
  {
  }

  /** The root itself is never counted: whether its own path converts to UTF-8 does not matter. */
  lemma RootNotCounted(readable: bool, children: seq<Entry>)
    ensures Scan(Some(Dir(true, readable, children))) == Scan(Some(Dir(false, readable, children)))
  {
  }

  /**
   * A subdirectory whose path does not convert to UTF-8 is skipped entirely:
   * whatever lies below it, the scan is as if it were not there.
   */
  lemma SkipsNonUtf8Dir(utf8Path: bool, readable: bool, a: seq<Entry>, b: seq<Entry>,
                        hiddenReadable: bool, hidden: seq<Entry>)
    ensures Scan(Some(Dir(utf8Path, readable, a + [Dir(false, hiddenReadable, hidden)] + b)))
         == Scan(Some(Dir(utf8Path, readable, a + b)))
  {
    var x := Dir(false, hiddenReadable, hidden);
    var e1, e2 := Dir(utf8Path, readable, a + [x] + b), Dir(utf8Path, readable, a + b);
    forall c
      ensures ListedCount(e1, c) == ListedCount(e2, c)
    {
      ContentCountAppend(a + [x], b, c);
      ContentCountAppend(a, [x], c);
      ContentCountAppend(a, b, c);
      assert [x][1..] == [];
    }
    SameCounters(Listed(e1), Listed(e2));
    AnyAbortsAppend(a + [x], b);
    AnyAbortsAppend(a, [x]);
    AnyAbortsAppend(a, b);
    assert [x][1..] == [];
  }

  /** The order in which the root lists its entries does not change the outcome. */
  lemma OrderIndependent(utf8Path: bool, readable: bool, a: seq<Entry>, b: seq<Entry>)
    requires multiset(a) == multiset(b)
    ensures Scan(Some(Dir(utf8Path, readable, a))) == Scan(Some(Dir(utf8Path, readable, b)))
  {
    var e1, e2 := Dir(utf8Path, readable, a), Dir(utf8Path, readable, b);
    forall c
      ensures ListedCount(e1, c) == ListedCount(e2, c)
    {
      ContentPermutation(a, b, c);
    }
    SameCounters(Listed(e1), Listed(e2));
    AbortsPermutation(a, b);
  }

  /**
   * Nor does the order in which a subdirectory among the root's entries lists
   * its own entries.  Deeper down, EntryPermutation and ReplaceEntry applied
   * level by level give the same.
   */
  lemma SubdirOrderIndependent(utf8Path: bool, readable: bool, pre: seq<Entry>, post: seq<Entry>,
                               subUtf8: bool, subReadable: bool, a: seq<Entry>, b: seq<Entry>)
    requires multiset(a) == multiset(b)
    ensures Scan(Some(Dir(utf8Path, readable, pre + [Dir(subUtf8, subReadable, a)] + post)))
         == Scan(Some(Dir(utf8Path, readable, pre + [Dir(subUtf8, subReadable, b)] + post)))
  {
    var x, y := Dir(subUtf8, subReadable, a), Dir(subUtf8, subReadable, b);
    EntryPermutation(subUtf8, subReadable, a, b);
    ReplaceEntry(pre, x, y, post);
    var e1, e2 := Dir(utf8Path, readable, pre + [x] + post), Dir(utf8Path, readable, pre + [y] + post);
    SameCounters(Listed(e1), Listed(e2));
  }

  /** A file that cannot be read, anywhere among the root's entries, makes the whole scan abort. */
  lemma UnreadableFileAborts(utf8Path: bool, a: seq<Entry>, lines: seq<string>, b: seq<Entry>)
    ensures Scan(Some(Dir(utf8Path, true, a + [File(false, lines)] + b))) == Aborted
  {
    AnyAbortsAppend(a + [File(false, lines)], b);
    AnyAbortsAppend(a, [File(false, lines)]);
  }

  /** A root holding a single readable file yields exactly what reading that file adds. */
  lemma SingleFileScan(lines: seq<string>, o: Overview)
    requires forall c :: FileCount(lines, c) == Get(o, c)
    ensures Scan(Some(Dir(true, true, [File(true, lines)]))) == Ok(o)
  {
    var es := [File(true, lines)];
    assert es[1..] == [];
    forall c
      ensures ListedCount(Dir(true, true, es), c) == Get(o, c)
    {
      assert ContentCount(es, c) == FileCount(lines, c) + ContentCount(es[1..], c);
    }
    SameCounters(Listed(Dir(true, true, es)), o);
    assert !AnyAborts(es);
    assert Scan(Some(Dir(true, true, es))) == Ok(Listed(Dir(true, true, es)));
  }

  /** An empty file counts as one file and adds no line. */
  lemma EmptyFileExample()
    ensures Scan(Some(Dir(true, true, [File(true, [])]))) == Ok(Overview(1, 0, 0, 0, 0, 0))
  {
    forall c
      ensures FileCount([], c) == Get(Overview(1, 0, 0, 0, 0, 0), c)
    {
      EmptyFileCount(c);
    }
    SingleFileScan([], Overview(1, 0, 0, 0, 0, 0));
  }

  /** A file of a blank line, a comment and a line of code, in that order, counts each kind once. */
  lemma ThreeKindsCount(x: string, y: string, z: string)
    requires Classify(x) == Blank && Classify(y) == Comment && Classify(z) == Code
    ensures forall c :: FileCount([x, y, z], c) == Get(Overview(1, 0, 3, 1, 1, 1), c)
  {
    var lines := [x, y, z];
    assert lines[..2] == [x, y] && lines[..2][..1] == [x] && [x][..0] == [];
    assert Occurrences([x], Blank) == 1 && Occurrences([x], Comment) == 0 && Occurrences([x], Code) == 0;
    assert Occurrences([x, y], Blank) == 1 && Occurrences([x, y], Comment) == 1 && Occurrences([x, y], Code) == 0;
    assert Occurrences(lines, Blank) == 1 && Occurrences(lines, Comment) == 1 && Occurrences(lines, Code) == 1;
  }

  /** One file holding a blank line, a comment and a line of code. */
  lemma OneFileExample()
    ensures Scan(Some(Dir(true, true, [File(true, ["", "// comment", "int x = 1;"])])))
         == Ok(Overview(1, 0, 3, 1, 1, 1))
  {
    CommentExample();
    CodeExample();
    assert Classify("") == Blank;
    ThreeKindsCount("", "// comment", "int x = 1;");
    SingleFileScan(["", "// comment", "int x = 1;"], Overview(1, 0, 3, 1, 1, 1));
  }

  /** An empty subdirectory counts as a folder; a file with one empty line adds one blank line. */
  lemma EmptySubdirExample()
    ensures Scan(Some(Dir(true, true, [Dir(true, true, []), File(true, [""])])))
         == Ok(Overview(1, 1, 1, 0, 0, 1))
  {
    var es := [Dir(true, true, []), File(true, [""])];
    assert Classify("") == Blank;
    assert [""][..0] == [];
    assert es[1..] == [File(true, [""])] && es[1..][1..] == [];
    forall c
      ensures ListedCount(Dir(true, true, es), c) == Get(Overview(1, 1, 1, 0, 0, 1), c)
    {
    }
    SameCounters(Listed(Dir(true, true, es)), Overview(1, 1, 1, 0, 0, 1));
  }
}
