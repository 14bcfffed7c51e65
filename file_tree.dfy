/**
 * The directory tree a scan walks, and what the scan makes of it, defined by
 * recursion over the tree, one counter at a time (the traversal itself keeps
 * an explicit stack, see the Evaluator module).
 *
 * Meeting an entry of a listed directory:
 *  - a directory whose path converts to UTF-8 adds one folder and is later
 *    listed itself; one whose path does not is skipped: not counted, not listed;
 *  - any other entry is a file: it adds one file and the count of its lines.
 * The scan aborts (the source panics on an `unwrap`) when it lists something
 * that is not a listable directory, or opens a file it cannot read to the end.
 */
module FileTree {
  import opened Counters

  /**
   * A directory entry.  A directory records whether its path converts to UTF-8
   * and whether it can be listed; a file (any entry that is not a directory)
   * records whether it can be opened and read to the end, and its lines as the
   * line reader splits them.
   */
  datatype Entry =
    | Dir(utf8Path: bool, readable: bool, children: seq<Entry>)
    | File(readable: bool, lines: seq<string>)

  /** What a discovered subdirectory adds to counter `c` by itself. */
  function FolderCount(c: Counter): nat {
    if c == Folders then 1 else 0
  }

  /** What meeting `e` as an entry of a listed directory adds to counter `c`, with everything below it. */
  function EntryCount(e: Entry, c: Counter): nat {
    match e
    case File(_, lines) => FileCount(lines, c)
    case Dir(utf8Path, _, children) => if utf8Path then FolderCount(c) + ContentCount(children, c) else 0
  }

  /** What listing a directory whose entries are `es` adds to counter `c`. */
  function ContentCount(es: seq<Entry>, c: Counter): nat {
    if es == [] then 0 else EntryCount(es[0], c) + ContentCount(es[1..], c)
  }

  /** Every line below a listed directory is counted as exactly one kind. */
  lemma {:induction false} ContentBalanced(es: seq<Entry>)
    ensures ContentCount(es, Lines) == ContentCount(es, CodeLines) + ContentCount(es, Comments) + ContentCount(es, Blanks)
  {
    if es != [] {
      EntryBalanced(es[0]);
      ContentBalanced(es[1..]);
    }
  }

  lemma {:induction false} EntryBalanced(e: Entry)
    ensures EntryCount(e, Lines) == EntryCount(e, CodeLines) + EntryCount(e, Comments) + EntryCount(e, Blanks)
  {
    match e
    case File(_, lines) => FileCountBalanced(lines);
    case Dir(utf8Path, _, children) =>
      if utf8Path {
        ContentBalanced(children);
      }
  }

  /** A file that cannot be opened or read to the end: meeting it makes the scan abort at once. */
  predicate UnreadableFile(e: Entry) {
    e.File? && !e.readable
  }

  /** Meeting `e` makes the scan abort: a file it cannot read, or a UTF-8 directory whose listing aborts. */
  predicate EntryAborts(e: Entry) {
    match e
    case File(readable, _) => !readable
    case Dir(utf8Path, readable, children) => utf8Path && (!readable || AnyAborts(children))
  }

  /** Meeting some entry of `es` makes the scan abort. */
  predicate AnyAborts(es: seq<Entry>) {
    es != [] && (EntryAborts(es[0]) || AnyAborts(es[1..]))
  }

  /** Listing `e` aborts: it is a file, or an unreadable directory, or one of its entries aborts. */
  predicate ListingAborts(e: Entry) {
    match e
    case File(_, _) => true
    case Dir(_, readable, children) => !readable || AnyAborts(children)
  }

  /** What listing `e` adds to counter `c` when it does not abort. */
  function ListedCount(e: Entry, c: Counter): nat {
    if e.Dir? then ContentCount(e.children, c) else 0
  }

  /** Number of nodes in the tree rooted at `e`; the traversal's termination measure. */
  function Size(e: Entry): nat {
    match e
    case File(_, _) => 1
    case Dir(_, _, children) => 1 + SizeAll(children)
  }

  function SizeAll(es: seq<Entry>): nat {
    if es == [] then 0 else Size(es[0]) + SizeAll(es[1..])
  }

  // The pending-directory stack: its last element is the top.

  /** What listing every directory on the stack still adds to counter `c`. */
  function StackCount(stack: seq<Entry>, c: Counter): nat {
    if stack == [] then 0 else StackCount(stack[..|stack| - 1], c) + ListedCount(stack[|stack| - 1], c)
  }

  /** Listing some directory on the stack aborts. */
  predicate StackAborts(stack: seq<Entry>) {
    stack != [] && (StackAborts(stack[..|stack| - 1]) || ListingAborts(stack[|stack| - 1]))
  }

  function StackSize(stack: seq<Entry>): nat {
    if stack == [] then 0 else StackSize(stack[..|stack| - 1]) + Size(stack[|stack| - 1])
  }

  /** Splitting the entries from `i` on into the entry at `i` and those after it. */
  lemma Uncons(es: seq<Entry>, i: nat)
    requires i < |es|
    ensures forall c :: ContentCount(es[i..], c) == EntryCount(es[i], c) + ContentCount(es[i + 1..], c)
    ensures AnyAborts(es[i..]) == (EntryAborts(es[i]) || AnyAborts(es[i + 1..]))
    ensures SizeAll(es[i..]) == Size(es[i]) + SizeAll(es[i + 1..])
  {
  }

  /** Pushing an entry onto the stack leaves its listing pending. */
  lemma Push(stack: seq<Entry>, p: Entry, s': seq<Entry>)
    requires s' == stack + [p]
    ensures forall c :: StackCount(s', c) == StackCount(stack, c) + ListedCount(p, c)
    ensures StackAborts(s') == (StackAborts(stack) || ListingAborts(p))
    ensures StackSize(s') == StackSize(stack) + Size(p)
  {
  }

  /** Entries listed one after the other add up. */
  lemma {:induction false} ContentCountAppend(a: seq<Entry>, b: seq<Entry>, c: Counter)
    ensures ContentCount(a + b, c) == ContentCount(a, c) + ContentCount(b, c)
  {
    if a == [] {
      assert a + b == b;
    } else {
      assert (a + b)[1..] == a[1..] + b;
      ContentCountAppend(a[1..], b, c);
    }
  }

  /** Entries listed one after the other abort exactly when one part does. */
  lemma {:induction false} AnyAbortsAppend(a: seq<Entry>, b: seq<Entry>)
    ensures AnyAborts(a + b) <==> AnyAborts(a) || AnyAborts(b)
  {
    if a == [] {
      assert a + b == b;
    } else {
      assert (a + b)[1..] == a[1..] + b;
      AnyAbortsAppend(a[1..], b);
    }
  }

  // The order in which a directory lists its entries does not matter.

  /** The first entry of `a` sits at some `j` in its permutation `b`; the rest of `a` is a permutation of `b` without it. */
  lemma PickFirst(a: seq<Entry>, b: seq<Entry>) returns (j: nat)
    requires a != [] && multiset(a) == multiset(b)
    ensures j < |b| && b[j] == a[0]
    ensures b == b[..j] + [a[0]] + b[j + 1..]
    ensures multiset(a[1..]) == multiset(b[..j] + b[j + 1..])
  {
    assert a == [a[0]] + a[1..];
    assert multiset(a) == multiset{a[0]} + multiset(a[1..]);
    assert a[0] in multiset(b);
    j :| 0 <= j < |b| && b[j] == a[0];
    assert b == b[..j] + [a[0]] + b[j + 1..];
    assert multiset(b) == multiset(b[..j]) + multiset{a[0]} + multiset(b[j + 1..]);
    assert multiset(b[..j] + b[j + 1..]) == multiset(b[..j]) + multiset(b[j + 1..]);
    assert multiset(a[1..]) == multiset(a) - multiset{a[0]};
    assert multiset(b) - multiset{a[0]} == multiset(b[..j]) + multiset(b[j + 1..]);
  }

  /** Listing the same entries in another order adds the same to every counter. */
  lemma {:induction false} ContentPermutation(a: seq<Entry>, b: seq<Entry>, c: Counter)
    requires multiset(a) == multiset(b)
    ensures ContentCount(a, c) == ContentCount(b, c)
  {
    if a == [] {
      assert |b| == |multiset(b)| == 0;
    } else {
      var j := PickFirst(a, b);
      var x := a[0];
      ContentPermutation(a[1..], b[..j] + b[j + 1..], c);
      ContentCountAppend(b[..j] + [x], b[j + 1..], c);
      ContentCountAppend(b[..j], [x], c);
      ContentCountAppend(b[..j], b[j + 1..], c);
      assert [x][1..] == [];
    }
  }

  /** Listing the same entries in another order aborts exactly when the original order does. */
  lemma {:induction false} AbortsPermutation(a: seq<Entry>, b: seq<Entry>)
    requires multiset(a) == multiset(b)
    ensures AnyAborts(a) == AnyAborts(b)
  {
    if a == [] {
      assert |b| == |multiset(b)| == 0;
    } else {
      var j := PickFirst(a, b);
      var x := a[0];
      AbortsPermutation(a[1..], b[..j] + b[j + 1..]);
      AnyAbortsAppend(b[..j] + [x], b[j + 1..]);
      AnyAbortsAppend(b[..j], [x]);
      AnyAbortsAppend(b[..j], b[j + 1..]);
      assert [x][1..] == [];
    }
  }

  /** A subdirectory whose entries are listed in another order is met with the same effect. */
  lemma EntryPermutation(utf8Path: bool, readable: bool, a: seq<Entry>, b: seq<Entry>)
    requires multiset(a) == multiset(b)
    ensures forall c :: EntryCount(Dir(utf8Path, readable, a), c) == EntryCount(Dir(utf8Path, readable, b), c)
    ensures EntryAborts(Dir(utf8Path, readable, a)) == EntryAborts(Dir(utf8Path, readable, b))
  {
    forall c
      ensures ContentCount(a, c) == ContentCount(b, c)
    {
      ContentPermutation(a, b, c);
    }
    AbortsPermutation(a, b);
  }

  /**
   * An entry can be replaced by one met with the same effect without changing
   * the listing around it; with EntryPermutation this carries a reordering to
   * any depth.
   */
  lemma ReplaceEntry(pre: seq<Entry>, x: Entry, y: Entry, post: seq<Entry>)
    requires forall c :: EntryCount(x, c) == EntryCount(y, c)
    requires EntryAborts(x) == EntryAborts(y)
    ensures forall c :: ContentCount(pre + [x] + post, c) == ContentCount(pre + [y] + post, c)
    ensures AnyAborts(pre + [x] + post) == AnyAborts(pre + [y] + post)
  {
    assert [x][1..] == [] && [y][1..] == [];
    forall c
      ensures ContentCount(pre + [x] + post, c) == ContentCount(pre + [y] + post, c)
    {
      ContentCountAppend(pre + [x], post, c);
      ContentCountAppend(pre, [x], c);
      ContentCountAppend(pre + [y], post, c);
      ContentCountAppend(pre, [y], c);
    }
    AnyAbortsAppend(pre + [x], post);
    AnyAbortsAppend(pre, [x]);
    AnyAbortsAppend(pre + [y], post);
    AnyAbortsAppend(pre, [y]);
  }

  // A flat reference: the list of entries a scan meets, and a per-entry count.

  /** Every entry met below a listed directory whose entries are `es`: each entry, then what lies below it. */
  function Visited(es: seq<Entry>): (v: seq<Entry>)
    ensures |v| >= |es|
    ensures forall i :: 0 <= i < |es| ==> es[i] in v
  {
    if es == [] then []
    else
      assert forall i :: 1 <= i < |es| ==> es[i] == es[1..][i - 1];
      [es[0]] + Below(es[0]) + Visited(es[1..])
  }

  /** The entries met below `e`: those of a UTF-8 directory, none for anything else. */
  function Below(e: Entry): seq<Entry> {
    if e.Dir? && e.utf8Path then Visited(e.children) else []
  }

  /** What one entry adds to counter `c` by itself when it is met, apart from what lies below it. */
  function Contribution(e: Entry, c: Counter): nat {
    match e
    case File(_, lines) => FileCount(lines, c)
    case Dir(utf8Path, _, _) => if utf8Path then FolderCount(c) else 0
  }

  /** Meeting `x` fails at once: a file that cannot be read, or a UTF-8 subdirectory that cannot be listed. */
  predicate FailsWhenMet(x: Entry) {
    UnreadableFile(x) || (x.Dir? && x.utf8Path && !x.readable)
  }

  /**
   * A listing aborts exactly when some entry it meets, at any depth, fails
   * when met; nothing else makes it abort.
   */
  lemma {:induction false} AnyAbortsIsFlat(es: seq<Entry>)
    ensures AnyAborts(es) <==> exists x :: x in Visited(es) && FailsWhenMet(x)
  {
    if es != [] {
      var e, rest := es[0], es[1..];
      EntryAbortsIsFlat(e);
      AnyAbortsIsFlat(rest);
      assert Visited(es) == [e] + Below(e) + Visited(rest);
      if AnyAborts(es) {
        if FailsWhenMet(e) {
          assert e in Visited(es);
        } else if EntryAborts(e) {
          var x :| x in Below(e) && FailsWhenMet(x);
          assert x in Visited(es);
        } else {
          var x :| x in Visited(rest) && FailsWhenMet(x);
          assert x in Visited(es);
        }
      }
    }
  }

  lemma {:induction false} EntryAbortsIsFlat(e: Entry)
    ensures EntryAborts(e) <==> FailsWhenMet(e) || exists x :: x in Below(e) && FailsWhenMet(x)
  {
    if e.Dir? && e.utf8Path {
      AnyAbortsIsFlat(e.children);
    }
  }

  /** The per-entry contributions of `s` to counter `c`, added up. */
  function Tally(s: seq<Entry>, c: Counter): nat {
    if s == [] then 0 else Contribution(s[0], c) + Tally(s[1..], c)
  }

  lemma {:induction false} TallyAppend(a: seq<Entry>, b: seq<Entry>, c: Counter)
    ensures Tally(a + b, c) == Tally(a, c) + Tally(b, c)
  {
    if a == [] {
      assert a + b == b;
    } else {
      assert (a + b)[1..] == a[1..] + b;
      TallyAppend(a[1..], b, c);
    }
  }

  /** Meeting the entries of `es` one after the other adds what each entry adds by itself, in turn. */
  lemma TallyStep(es: seq<Entry>, i: nat, c: Counter)
    requires i < |es|
    ensures Tally(es[..i + 1], c) == Tally(es[..i], c) + Contribution(es[i], c)
  {
    assert es[..i + 1] == es[..i] + [es[i]];
    TallyAppend(es[..i], [es[i]], c);
    assert [es[i]][1..] == [];
  }

  /** The entries of `es` that the scan pushes: the directories whose path converts to UTF-8, in order. */
  function Subdirs(es: seq<Entry>): seq<Entry> {
    if es == [] then [] else Pushed(es[0]) + Subdirs(es[1..])
  }

  /** What meeting `e` pushes: `e` itself when it is a UTF-8 directory, nothing otherwise. */
  function Pushed(e: Entry): seq<Entry> {
    if e.Dir? && e.utf8Path then [e] else []
  }

  /** Exactly the UTF-8 directories among the entries are pushed. */
  lemma {:induction false} SubdirsMembers(es: seq<Entry>)
    ensures forall x :: x in Subdirs(es) <==> x in es && x.Dir? && x.utf8Path
  {
    if es != [] {
      SubdirsMembers(es[1..]);
      assert forall x :: x in es <==> x == es[0] || x in es[1..];
    }
  }

  lemma {:induction false} SubdirsAppend(a: seq<Entry>, b: seq<Entry>)
    ensures Subdirs(a + b) == Subdirs(a) + Subdirs(b)
  {
    if a == [] {
      assert a + b == b;
    } else {
      assert (a + b)[1..] == a[1..] + b;
      SubdirsAppend(a[1..], b);
    }
  }

  /** Meeting one more entry pushes it exactly when it is a UTF-8 directory. */
  lemma SubdirsStep(es: seq<Entry>, i: nat)
    requires i < |es|
    ensures Subdirs(es[..i + 1]) == Subdirs(es[..i]) + Pushed(es[i])
  {
    assert es[..i + 1] == es[..i] + [es[i]];
    SubdirsAppend(es[..i], [es[i]]);
    assert [es[i]][1..] == [];
  }

  lemma {:induction false} StackAppend(a: seq<Entry>, b: seq<Entry>)
    ensures forall c :: StackCount(a + b, c) == StackCount(a, c) + StackCount(b, c)
    ensures StackAborts(a + b) == (StackAborts(a) || StackAborts(b))
    ensures StackSize(a + b) == StackSize(a) + StackSize(b)
  {
    if b == [] {
      assert a + b == a;
    } else {
      var init := b[..|b| - 1];
      assert (a + b)[..|a + b| - 1] == a + init;
      StackAppend(a, init);
    }
  }

  /**
   * Listing a directory's entries splits into what each entry adds by itself
   * and what listing the subdirectories pushed for them adds later.
   */
  lemma {:induction false} ContentSplit(es: seq<Entry>, c: Counter)
    ensures ContentCount(es, c) == Tally(es, c) + StackCount(Subdirs(es), c)
  {
    if es != [] {
      var e := es[0];
      ContentSplit(es[1..], c);
      StackAppend(Pushed(e), Subdirs(es[1..]));
      assert [e][..0] == [];
      assert StackCount(Pushed(e), c) == if e.Dir? && e.utf8Path then ListedCount(e, c) else 0;
      assert EntryCount(e, c) == Contribution(e, c) + StackCount(Pushed(e), c);
    }
  }

  /**
   * When no direct entry is an unreadable file, a listing aborts exactly when
   * listing one of the subdirectories pushed for it does.
   */
  lemma {:induction false} AbortsSplit(es: seq<Entry>)
    requires forall i :: 0 <= i < |es| ==> !UnreadableFile(es[i])
    ensures AnyAborts(es) == StackAborts(Subdirs(es))
  {
    if es != [] {
      var e := es[0];
      AbortsSplit(es[1..]);
      StackAppend(Pushed(e), Subdirs(es[1..]));
      assert [e][..0] == [];
    }
  }

  /** The subdirectories pushed for a listing are no larger than the listing, and one folder is counted per push. */
  lemma {:induction false} PushedSize(es: seq<Entry>)
    ensures StackSize(Subdirs(es)) <= SizeAll(es)
    ensures |Subdirs(es)| == Tally(es, Folders)
  {
    if es != [] {
      var e := es[0];
      PushedSize(es[1..]);
      StackAppend(Pushed(e), Subdirs(es[1..]));
      assert [e][..0] == [];
    }
  }

  /** How many of the entries in `s` are files. */
  function CountFiles(s: seq<Entry>): nat {
    if s == [] then 0 else (if s[0].File? then 1 else 0) + CountFiles(s[1..])
  }

  /** How many of the entries in `s` are directories whose path converts to UTF-8. */
  function CountFolders(s: seq<Entry>): nat {
    if s == [] then 0 else (if s[0].Dir? && s[0].utf8Path then 1 else 0) + CountFolders(s[1..])
  }

  /** How many lines the files among `s` hold together. */
  function CountLines(s: seq<Entry>): nat {
    if s == [] then 0 else (if s[0].File? then |s[0].lines| else 0) + CountLines(s[1..])
  }

  /** The per-entry count adds one file per file, one folder per UTF-8 directory, and every line of every file. */
  lemma {:induction false} TallyCounts(s: seq<Entry>)
    ensures Tally(s, Files) == CountFiles(s)
    ensures Tally(s, Folders) == CountFolders(s)
    ensures Tally(s, Lines) == CountLines(s)
  {
    if s != [] {
      TallyCounts(s[1..]);
    }
  }

  /**
   * The recursive counts equal the flat count over the entries met: each entry
   * met adds its own contribution exactly once.
   */
  lemma {:induction false} ContentCountIsTally(es: seq<Entry>, c: Counter)
    ensures ContentCount(es, c) == Tally(Visited(es), c)
  {
    if es != [] {
      var e := es[0];
      ContentCountIsTally(es[1..], c);
      EntryCountIsTally(e, c);
      TallyAppend([e] + Below(e), Visited(es[1..]), c);
      TallyAppend([e], Below(e), c);
    }
  }

  lemma {:induction false} EntryCountIsTally(e: Entry, c: Counter)
    ensures EntryCount(e, c) == Contribution(e, c) + Tally(Below(e), c)
  {
    if e.Dir? && e.utf8Path {
      ContentCountIsTally(e.children, c);
    }
  }
}
