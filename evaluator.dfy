/**
 * `evaluate`: the scan of a directory tree with an explicit stack of pending
 * directories, against its specification `Scan`.
 *
 * The file system is the input: `None` when the root path does not exist,
 * otherwise the entry found there.  The outcome is the counters, the error
 * message `evaluate` returns for a missing root, or `Aborted` when the source
 * panics on an `unwrap` (a listing, an open or a line read that fails); the
 * source salvages nothing from an aborted scan, and neither does the model.
 */
module Evaluator {
  import opened Counters
  import opened FileTree

  datatype Option<T> = None | Some(value: T)

  datatype Outcome = Ok(overview: Overview) | Err(message: string) | Aborted

  /** The message `evaluate` returns when the root path does not exist. */
  const NotFoundMessage := "Could not find the path specified"

  /** The counters that listing `e` produces, counter by counter. */
  function Listed(e: Entry): (r: Overview)
    ensures forall c :: Get(r, c) == ListedCount(e, c)
  {
    Overview(ListedCount(e, Files), ListedCount(e, Folders), ListedCount(e, Lines),
             ListedCount(e, CodeLines), ListedCount(e, Comments), ListedCount(e, Blanks))
  }

  /**
   * What a scan of `root` yields: the error for a missing root; an abort when
   * listing the root, or anything the scan reaches from it, fails; otherwise
   * the counts of everything below the root.  The root itself is never counted.
   */
  function Scan(root: Option<Entry>): (r: Outcome)
    ensures r.Err? <==> root.None?
    ensures r.Err? ==> r.message == NotFoundMessage
    ensures r.Ok? ==> Balanced(r.overview)
  {
    match root
    case None => Err(NotFoundMessage)
    case Some(e) =>
      if ListingAborts(e) then Aborted
      else
        ContentBalanced(e.children);
        Ok(Listed(e))
  }

  /**
   * The traversal: a stack seeded with the root; each popped directory is
   * listed (see ListEntries).  `visits` counts the directories popped: each
   * pushed directory is popped exactly once, so on success it is one more than
   * the folders counted.
   */
  method Evaluate(root: Option<Entry>) returns (result: Outcome, ghost visits: nat)
    ensures result == Scan(root)
    ensures result.Ok? ==> visits == 1 + result.overview.folders
  {
    var overview := Overview(0, 0, 0, 0, 0, 0);
    visits := 0;
    if root.None? {
      return Err(NotFoundMessage), visits;
    }
    ghost var top := root.value;
    var stack := [root.value];
    Push([], top, stack);
    while stack != []
      invariant Balanced(overview)
      invariant forall c :: Get(overview, c) + StackCount(stack, c) == ListedCount(top, c)
      invariant StackAborts(stack) == ListingAborts(top)
      invariant visits + |stack| == 1 + overview.folders
      decreases StackSize(stack)
    {
      var current := stack[|stack| - 1];
      stack := stack[..|stack| - 1];
      Push(stack, current, stack + [current]);
      visits := visits + 1;
      if current.File? || !current.readable {
        return Aborted, visits;
      }
      var aborted;
      ghost var before, below := overview, stack;
      overview, stack, aborted := ListEntries(overview, stack, current.children);
      if aborted {
        return Aborted, visits;
      }
      Settle(before, overview, below, current.children);
    }
    SameCounters(overview, Listed(top));
    return Ok(overview), visits;
  }

  /**
   * Meeting the entries `children` of one listed directory in order, with the
   * counters at `overview` and the pending directories `stack`.  Stops with
   * `aborted` at the first entry that is a file it cannot read; otherwise each
   * entry has added what it adds by itself, and exactly the UTF-8
   * subdirectories among them have been pushed, in order.
   */
  method ListEntries(overview: Overview, stack: seq<Entry>, children: seq<Entry>)
    returns (overview': Overview, stack': seq<Entry>, aborted: bool)
    ensures aborted <==> exists i :: 0 <= i < |children| && UnreadableFile(children[i])
    ensures aborted ==> AnyAborts(children)
    ensures !aborted ==> forall c :: Get(overview', c) == Get(overview, c) + Tally(children, c)
    ensures !aborted ==> stack' == stack + Subdirs(children)
    ensures AtMost(overview, overview')
    ensures Balanced(overview) ==> Balanced(overview')
  {
    overview', stack', aborted := overview, stack, false;
    assert children[..0] == [];
    for i := 0 to |children|
      invariant forall c :: Get(overview', c) == Get(overview, c) + Tally(children[..i], c)
      invariant stack' == stack + Subdirs(children[..i])
      invariant forall k :: 0 <= k < i ==> !UnreadableFile(children[k])
      invariant AtMost(overview, overview')
      invariant Balanced(overview) ==> Balanced(overview')
    {
      var p := children[i];
      SubdirsStep(children, i);
      ghost var met := overview';
      var failed;
      overview', stack', failed := MeetEntry(overview', stack', p);
      if failed {
        assert children == children[..i] + children[i..];
        AnyAbortsAppend(children[..i], children[i..]);
        return overview', stack', true;
      }
      forall c
        ensures Get(overview', c) == Get(overview, c) + Tally(children[..i + 1], c)
      {
        TallyStep(children, i, c);
        assert Get(overview', c) == Get(met, c) + Contribution(p, c);
      }
    }
    assert children[..|children|] == children;
  }

  /** The pending-side view of a completed listing, from what it added and what it pushed. */
  lemma Settle(overview: Overview, overview': Overview, stack: seq<Entry>, children: seq<Entry>)
    requires forall c :: Get(overview', c) == Get(overview, c) + Tally(children, c)
    requires forall k :: 0 <= k < |children| ==> !UnreadableFile(children[k])
    ensures forall c :: Get(overview', c) + StackCount(stack + Subdirs(children), c) ==
                        Get(overview, c) + StackCount(stack, c) + ContentCount(children, c)
    ensures StackAborts(stack + Subdirs(children)) == (StackAborts(stack) || AnyAborts(children))
    ensures StackSize(stack + Subdirs(children)) <= StackSize(stack) + SizeAll(children)
    ensures |stack + Subdirs(children)| - |stack| == overview'.folders - overview.folders
  {
    StackAppend(stack, Subdirs(children));
    forall c
      ensures Get(overview', c) + StackCount(stack + Subdirs(children), c) ==
              Get(overview, c) + StackCount(stack, c) + ContentCount(children, c)
    {
      ContentSplit(children, c);
    }
    AbortsSplit(children);
    PushedSize(children);
    assert overview'.folders == Get(overview', Folders) && overview.folders == Get(overview, Folders);
  }

  /**
   * Meeting one entry `p` of a listed directory.  A subdirectory whose path
   * converts to UTF-8 adds a folder and is pushed; one whose path does not is
   * skipped: not counted, not pushed.  Any other entry is read as a file, and
   * `aborted` tells that reading it failed.
   */
  method MeetEntry(overview: Overview, stack: seq<Entry>, p: Entry)
    returns (overview': Overview, stack': seq<Entry>, aborted: bool)
    ensures aborted <==> UnreadableFile(p)
    ensures !aborted ==> forall c :: Get(overview', c) == Get(overview, c) + Contribution(p, c)
    ensures stack' == stack + Pushed(p)
    ensures AtMost(overview, overview')
    ensures Balanced(overview) ==> Balanced(overview')
  {
    overview', stack', aborted := overview, stack, false;
    match p
    case Dir(utf8Path, _, _) =>
      if utf8Path {
        overview' := overview.(folders := overview.folders + 1);
        stack' := stack + [p];
      }
    case File(readable, lines) =>
      if !readable {
        return overview, stack, true;
      }
      overview' := ScanFile(overview, lines);
  }
}
