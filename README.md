# source-code-analyzer: a verified model of `evaluate`

`sce <path>` walks a directory tree and reports six counters in a
`ProjectOverview`. The counters are files, folders, lines, code lines, comment
lines and blank lines. This project models `evaluate` in `src/main.rs` in
Dafny and proves what it computes.

`evaluate` works in three steps:

- A root that does not exist gives the error `Could not find the path specified`.
- Otherwise a stack of pending directories is seeded with the root. Each popped directory is listed.
- Each entry of a listed directory is one of two things:
  - A subdirectory whose path converts to UTF-8 adds a folder and is pushed. One whose path does not convert is skipped.
  - Anything else is read as a file. It adds one file, and each of its lines adds one line plus one of blank, comment or code.

A line is blank when its trimmed form is empty. It is a comment when the trimmed
form starts with `/` or `*`. Every other line is code.

The modules follow that structure:

- `LineClass`: `str::trim` (as `TrimStart`/`TrimEnd`) and the classification of one line.
- `Counters`:
  - the `Overview` counters, as a value;
  - `FileCount`, the per-counter specification of reading one file;
  - `ScanFile`, the line loop, proved against that specification.
- `FileTree`:
  - the file system as a finite tree of `Entry` values;
  - what listing a directory adds to each counter, by recursion over the tree;
  - when a scan aborts;
  - a flat reference count over the list of entries met (`Visited`/`Tally`).
- `Evaluator`:
  - `Scan`, the specification of a whole scan;
  - `Evaluate`, the stack traversal, as a `while` loop over a `seq<Entry>` stack;
  - `ListEntries` (the loop over one directory's entries) and `MeetEntry` (one entry).
  
  `Evaluate` is proved to return exactly `Scan(root)`.
- `ScanFacts`: properties of whole scans, stated on `Scan`.

Failures of the `unwrap` calls end the scan, and nothing is salvaged. The model
turns them into the outcome `Aborted`:

- listing something that is not a listable directory;
- opening a file that cannot be opened;
- reading a line that cannot be decoded.

The input is `Option<Entry>`: `None` when the root path does not exist.

Only subdirectories whose path converts to UTF-8 are counted and descended into
(`src/main.rs` lines 69-74). Any other subdirectory is skipped with everything
below it.

`evaluate`'s counters are a local struct that is updated field by field. The
model keeps them as a datatype value that the methods thread through and
reassign.

## Model

| member | source | states |
|---|---|---|
| LineClass.TrimStart | src/main.rs:86-88 | definition of trimming the start; never longer than the line; meaning stated by TrimStartSuffix |
| LineClass.TrimStartSuffix | src/main.rs:86-88 | trimming the start drops a prefix made only of whitespace, keeps the rest of the line unchanged, and stops at the first visible character |
| LineClass.TrimEnd | src/main.rs:86-88 | definition of trimming the end; never longer than the line; meaning stated by TrimEndPrefix |
| LineClass.TrimEndPrefix | src/main.rs:86-88 | trimming the end drops a suffix made only of whitespace, keeps the rest unchanged, and stops at the last visible character |
| LineClass.Trim | src/main.rs:86-88 | definition of `str::trim`; meaning stated by TrimMeaning |
| LineClass.TrimMeaning | src/main.rs:86-88 | the trimmed line is empty exactly when the line is all whitespace; otherwise it starts with the line's first visible character and ends with a visible character |
| LineClass.FirstVisibleUnique | src/main.rs:86-88 | a line has at most one first visible character, and has one exactly when it is not all whitespace |
| LineClass.Classify | src/main.rs:86-92 | definition of the blank / comment / code test; meaning stated by ClassifyMeaning |
| LineClass.ClassifyMeaning | src/main.rs:86-92 | blank iff every character is whitespace; comment iff the first visible character is `/` or `*`; code iff there is a first visible character and it is neither; blank is tested before comment |
| LineClass.BlankExample | src/main.rs:86-87 | a whitespace-only line is blank, not code |
| LineClass.CommentExample | src/main.rs:88-89 | `// comment` and an indented `* continued` are comments |
| LineClass.CodeExample | src/main.rs:90-91 | `int x = 1;` is code |
| LineClass.DereferenceIsComment | src/main.rs:88-89 | the heuristic's known limitation: the statement `*p = 1;` is counted as a comment |
| Counters.Occurrences | src/main.rs:82-92 | a file holds at most as many lines of one kind as it has lines |
| Counters.OccurrencesPartition | src/main.rs:82-92 | every line of a file is exactly one of code, comment or blank |
| Counters.AllBlank | src/main.rs:86-87 | all lines of a file are blank exactly when each is whitespace only |
| Counters.FileCount | src/main.rs:80-92 | definition of what reading one file adds to each counter; meaning stated by FileCountStep, EmptyFileCount and FileCountBalanced, and ScanFile is proved to add exactly it |
| Counters.FileCountStep | src/main.rs:82-93 | reading one more line adds one line and one to the counter of its kind, and nothing to files or folders |
| Counters.FileCountBalanced | src/main.rs:82-93 | what a file adds keeps `lines == code_lines + comments + blanks` |
| Counters.EmptyFileCount | src/main.rs:80-82 | an empty file adds one file and nothing else |
| Counters.ScanFile | src/main.rs:77-93 | reading a file adds to each counter exactly what the file contributes: one file, every line once, and one per line to its kind's counter; counters only grow; the accounting invariant is preserved after every line |
| FileTree.EntryCount | src/main.rs:67-93 | definition of what meeting one entry adds, everything below it included; meaning stated by EntryCountIsTally and EntryBalanced |
| FileTree.ContentCount | src/main.rs:64-95 | definition of what listing a directory's entries adds; meaning stated by ContentCountIsTally, ContentBalanced, ContentCountAppend and ContentPermutation |
| FileTree.EntryBalanced | src/main.rs:67-93 | whatever one entry adds keeps the accounting invariant |
| FileTree.ContentBalanced | src/main.rs:64-95 | whatever a listing adds, everything below included, keeps the accounting invariant |
| FileTree.UnreadableFile | src/main.rs:76-84 | definition of a file whose open or line read fails; ListEntries and MeetEntry abort exactly on these |
| FileTree.EntryAborts | src/main.rs:63-84 | definition of meeting an entry making the scan abort; meaning stated by EntryAbortsIsFlat |
| FileTree.AnyAborts | src/main.rs:63-84 | definition of a listing making the scan abort; meaning stated by AnyAbortsIsFlat |
| FileTree.ListingAborts | src/main.rs:62-65 | definition of listing an entry aborting; meaning stated by ScanAbortsExactly |
| FileTree.Uncons | src/main.rs:64-65 | what a directory's entries add from position i on is what entry i adds plus what those after it add; the same holds for aborting and for size |
| FileTree.Push | src/main.rs:72 | pushing a directory leaves exactly its listing pending: the stack's pending counts, its aborting and its size grow by that directory's |
| FileTree.ContentCountAppend | src/main.rs:64-95 | entries met one after the other add up |
| FileTree.AnyAbortsAppend | src/main.rs:64-95 | a run of entries aborts exactly when one of its parts does |
| FileTree.ContentPermutation | src/main.rs:64-95 | listing the same entries in any order adds the same to every counter |
| FileTree.AbortsPermutation | src/main.rs:64-95 | listing the same entries in any order aborts exactly when the original order does |
| FileTree.EntryPermutation | src/main.rs:67-75 | a subdirectory that lists the same entries in another order is met with the same counts and the same aborting |
| FileTree.ReplaceEntry | src/main.rs:64-95 | an entry can be swapped for one met with the same effect without changing what the listing around it adds or whether it aborts |
| FileTree.Visited | src/main.rs:61-96 | the entries a listing meets include each of its direct entries |
| FileTree.FailsWhenMet | src/main.rs:63-84 | definition of an entry whose meeting fails at once: an unreadable file or an unlistable UTF-8 subdirectory |
| FileTree.AnyAbortsIsFlat | src/main.rs:61-96 | a listing aborts exactly when some entry it meets, at any depth, is an unreadable file or an unlistable UTF-8 subdirectory |
| FileTree.EntryAbortsIsFlat | src/main.rs:67-84 | meeting an entry aborts exactly when it, or something met below it, fails when met |
| FileTree.Contribution | src/main.rs:67-92 | definition of what one entry adds by itself; meaning stated by TallyCounts and EntryCountIsTally |
| FileTree.TallyAppend | src/main.rs:61-96 | the flat per-entry count is additive over concatenation |
| FileTree.TallyStep | src/main.rs:64-95 | meeting one more entry of a listing adds what that entry adds by itself |
| FileTree.Subdirs | src/main.rs:64-75 | definition of the entries a listing pushes, in order; meaning stated by SubdirsMembers |
| FileTree.Pushed | src/main.rs:67-75 | definition of what meeting one entry pushes: itself when it is a UTF-8 directory, nothing otherwise |
| FileTree.SubdirsMembers | src/main.rs:67-75 | exactly the UTF-8 directories among a listing's entries are pushed |
| FileTree.SubdirsAppend | src/main.rs:64-75 | what entries met one after the other push is what each part pushes, in order |
| FileTree.SubdirsStep | src/main.rs:64-75 | meeting one more entry pushes it exactly when it is a UTF-8 directory |
| FileTree.StackAppend | src/main.rs:59-72 | pending counts, aborting and size of a stack add up over concatenation |
| FileTree.ContentSplit | src/main.rs:61-96 | what listing a directory adds, everything below included, is what each entry adds by itself plus what listing the subdirectories pushed for it adds later |
| FileTree.AbortsSplit | src/main.rs:61-96 | when no entry is an unreadable file, a listing aborts exactly when listing one of the subdirectories pushed for it does |
| FileTree.PushedSize | src/main.rs:67-75 | the pushed subdirectories are no larger than the listing, and one folder is counted per push |
| FileTree.TallyCounts | src/main.rs:67-83 | the flat count adds one file per file, one folder per UTF-8 directory, and every line of every file |
| FileTree.ContentCountIsTally | src/main.rs:61-96 | the recursive count of a listing equals the flat count over every entry it meets: each entry contributes exactly once |
| FileTree.EntryCountIsTally | src/main.rs:67-93 | one entry's recursive count is its own contribution plus the flat count of what lies below it |
| Evaluator.Scan | src/main.rs:55-98 | a scan fails with `Could not find the path specified` exactly when the root does not exist; a successful scan satisfies `lines == code_lines + comments + blanks` |
| Evaluator.Evaluate | src/main.rs:45-99 | the stack traversal returns exactly `Scan(root)`; the accounting invariant holds after every directory; on success it has popped one directory more than it counted folders, so every pushed directory is popped exactly once and the root is not counted |
| Evaluator.ListEntries | src/main.rs:63-95 | meeting a directory's entries in order adds to each counter exactly what each entry adds by itself (one file and its lines per file, one folder per UTF-8 subdirectory) and pushes exactly the UTF-8 subdirectories, in order, onto the stack; it aborts exactly when one of the entries is an unreadable file; counters only grow and the accounting invariant holds after every entry |
| Evaluator.Settle | src/main.rs:61-96 | after a completed listing, the counters plus what the stack still holds have grown by exactly what listing the directory adds; the stack aborts later exactly when the old stack or one of the entries would; one folder was counted per push |
| Evaluator.MeetEntry | src/main.rs:65-94 | a UTF-8 subdirectory adds one folder and is pushed; a non-UTF-8 one changes nothing; any other entry is read as a file and aborts exactly when it cannot be read, otherwise adds that file's counts; nothing else is pushed; counters only grow and the accounting invariant is kept |
| ScanFacts.ScanCountsVisited | src/main.rs:61-96 | a successful scan counts one file per file met, one folder per UTF-8 subdirectory met, and every line of every file met |
| ScanFacts.ScanAbortsExactly | src/main.rs:61-96 | an existing root aborts the scan exactly when it cannot be listed or some entry met below it, at any depth, is an unreadable file or an unlistable UTF-8 subdirectory |
| ScanFacts.EmptyRoot | src/main.rs:46-98 | an empty listable root gives all-zero counters |
| ScanFacts.UnlistableRoot | src/main.rs:62-63 | a root that is a file or cannot be listed aborts the scan |
| ScanFacts.RootNotCounted | src/main.rs:59-63 | the root is never counted as a folder: its own UTF-8 flag does not change the outcome |
| ScanFacts.SkipsNonUtf8Dir | src/main.rs:69-74 | a subdirectory whose path does not convert to UTF-8 is skipped with everything below it, even entries that would abort |
| ScanFacts.OrderIndependent | src/main.rs:64-95 | listing the root's entries in any order (any permutation) gives the same outcome |
| ScanFacts.SubdirOrderIndependent | src/main.rs:64-75 | a subdirectory among the root's entries listing its own entries in any order gives the same outcome |
| ScanFacts.UnreadableFileAborts | src/main.rs:76-84 | an unreadable file among the root's entries aborts the whole scan |
| ScanFacts.SingleFileScan | src/main.rs:76-93 | a root holding one readable file yields exactly what reading that file adds |
| ScanFacts.EmptyFileExample | src/main.rs:76-82 | a root holding one empty file gives files=1 and every other counter 0 |
| ScanFacts.ThreeKindsCount | src/main.rs:82-92 | a file of a blank line, a comment and a code line adds files=1, lines=3 and one of each kind |
| ScanFacts.OneFileExample | src/main.rs:80-92 | a root holding one file with `""`, `// comment` and `int x = 1;` gives files=1, folders=0, lines=3, code=1, comments=1, blanks=1 |
| ScanFacts.EmptySubdirExample | src/main.rs:67-92 | a root holding an empty subdirectory and a file with one empty line gives files=1, folders=1, lines=1, blanks=1, the rest 0 |

## Left out

- `main` and its command-line parsing (`src/main.rs` lines 14-33) and `print_result`: a wrapper around an external argument parser, and output formatting.
- The file-system calls (`Path::exists`, `read_dir`, `is_dir`, `File::open`) are replaced by the finite `Entry` tree given as input.
- `BufReader::lines`, with its `\n` and `\r\n` splitting, is replaced by each file's lines, already split.
- `u32` overflow: the counters are unbounded naturals, so the model does not capture the wrap-around in release builds or the panic in debug builds on `+= 1`.
- Symlink cycles and the non-termination they cause: the tree is finite and acyclic by construction.
- Which `unwrap` panicked: every panic becomes the single outcome `Aborted`, which carries no partial counters.
- A failure that happens partway through listing a directory is not modelled separately. A directory is either listable or not.
- A file that fails partway through its lines is not modelled separately either. A file is either readable to the end or not. Either way the scan aborts, as in the source.
- The root's own `utf8Path` flag is ignored: the root arrives as a UTF-8 string, and the model takes no account of it (see RootNotCounted).
- The visit order of directories: `Evaluate` pops from the end of the stack as the source does. The specification `Scan` is stated independently of order. Order independence is proved for the root's listing and for one level of subdirectory by name (OrderIndependent, SubdirOrderIndependent); deeper levels follow by applying EntryPermutation and ReplaceEntry level by level, which no single lemma states.
- Evaluator.Evaluate: `visits` is a ghost counter of pops. That each directory is popped exactly once is stated through it, not through a record of which directories were popped.
