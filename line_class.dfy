/**
 * Classifying one line of a scanned file as blank, comment or code.
 *
 * `evaluate` trims each line with `str::trim` and then asks two questions in
 * order: is what is left empty (a blank line), and does it start with `/` or
 * `*` (a comment line)?  Everything else is a code line.  The comment test is a
 * prefix heuristic: it knows nothing about the syntax of any language.
 */
module LineClass {

  /** The characters `char::is_whitespace` accepts (Unicode's White_Space property). */
  predicate IsWhitespace(c: char) {
    ('\t' <= c <= '\r') || c == ' ' || c == '\U{85}' || c == '\U{A0}' || c == '\U{1680}'
    || ('\U{2000}' <= c <= '\U{200A}') || c == '\U{2028}' || c == '\U{2029}'
    || c == '\U{202F}' || c == '\U{205F}' || c == '\U{3000}'
  }

  /** The two characters whose presence at the start of a trimmed line makes it a comment. */
  predicate IsCommentMark(c: char) {
    c == '/' || c == '*'
  }

  /** `i` is the position of the first character of `s` that is not whitespace. */
  predicate FirstVisibleAt(s: string, i: int) {
    0 <= i < |s| && !IsWhitespace(s[i]) && forall j :: 0 <= j < i ==> IsWhitespace(s[j])
  }

  /** `s` without its leading whitespace (see TrimStartSuffix). */
  function TrimStart(s: string): (r: string)
    ensures |r| <= |s|
  {
    if s != [] && IsWhitespace(s[0]) then TrimStart(s[1..]) else s
  }

  /** TrimStart drops a prefix of whitespace and stops at the first visible character. */
  lemma {:induction false} TrimStartSuffix(s: string)
    ensures TrimStart(s) == s[|s| - |TrimStart(s)|..]
    ensures forall i :: 0 <= i < |s| - |TrimStart(s)| ==> IsWhitespace(s[i])
    ensures TrimStart(s) != [] ==> !IsWhitespace(TrimStart(s)[0])
  {
    if s != [] && IsWhitespace(s[0]) {
      TrimStartSuffix(s[1..]);
    }
  }

  /** `s` without its trailing whitespace (see TrimEndPrefix). */
  function TrimEnd(s: string): (r: string)
    ensures |r| <= |s|
  {
    if s != [] && IsWhitespace(s[|s| - 1]) then TrimEnd(s[..|s| - 1]) else s
  }

  /** TrimEnd drops a suffix of whitespace and stops at the last visible character. */
  lemma {:induction false} TrimEndPrefix(s: string)
    ensures TrimEnd(s) == s[..|TrimEnd(s)|]
    ensures forall i :: |TrimEnd(s)| <= i < |s| ==> IsWhitespace(s[i])
    ensures TrimEnd(s) != [] ==> !IsWhitespace(TrimEnd(s)[|TrimEnd(s)| - 1])
  {
    if s != [] && IsWhitespace(s[|s| - 1]) {
      var init := s[..|s| - 1];
      TrimEndPrefix(init);
      assert forall i :: 0 <= i < |init| ==> init[i] == s[i];
    }
  }

  /** `str::trim`: whitespace removed from both ends. */
  function Trim(s: string): string {
    TrimEnd(TrimStart(s))
  }

  /**
   * Trim's result is empty exactly when `s` holds nothing but whitespace;
   * otherwise it starts at the first visible character of `s` and ends with a
   * visible character.
   */
  lemma TrimMeaning(s: string)
    ensures Trim(s) == [] <==> forall i :: 0 <= i < |s| ==> IsWhitespace(s[i])
    ensures Trim(s) != [] ==> FirstVisibleAt(s, |s| - |TrimStart(s)|) && Trim(s)[0] == s[|s| - |TrimStart(s)|]
    ensures Trim(s) != [] ==> !IsWhitespace(Trim(s)[|Trim(s)| - 1])
  {
    var t := TrimStart(s);
    TrimStartSuffix(s);
    TrimEndPrefix(t);
  }

  /** The three kinds a line can be counted as. */
  datatype LineKind = Blank | Comment | Code

  /** The kind of one line: blank is tested first, then the comment marks; everything else is code. */
  function Classify(line: string): LineKind {
    var t := Trim(line);
    if |t| == 0 then Blank
    else if t[0] == '/' || t[0] == '*' then Comment
    else Code
  }

  /**
   * What the kinds mean.  A whitespace-only line is blank (blank is tested
   * first); a line whose first visible character is `/` or `*` is a comment,
   * even when it is code such as `*p = 1;`; every other line is code.
   */
  lemma ClassifyMeaning(line: string)
    ensures Classify(line) == Blank <==> forall i :: 0 <= i < |line| ==> IsWhitespace(line[i])
    ensures Classify(line) == Comment <==> exists i :: FirstVisibleAt(line, i) && IsCommentMark(line[i])
    ensures Classify(line) == Code <==> exists i :: FirstVisibleAt(line, i) && !IsCommentMark(line[i])
  {
    TrimMeaning(line);
    FirstVisibleUnique(line);
    if Trim(line) != [] {
      var k := |line| - |TrimStart(line)|;
      assert FirstVisibleAt(line, k) && Trim(line)[0] == line[k];
      assert Classify(line) == Comment <==> IsCommentMark(line[k]);
    }
  }

  /** A string has at most one first visible character, and one exactly when it is not all whitespace. */
  lemma FirstVisibleUnique(s: string)
    ensures forall i, j :: FirstVisibleAt(s, i) && FirstVisibleAt(s, j) ==> i == j
    ensures (exists i :: FirstVisibleAt(s, i)) <==> !(forall i :: 0 <= i < |s| ==> IsWhitespace(s[i]))
  {
    if !(forall i :: 0 <= i < |s| ==> IsWhitespace(s[i])) {
      var t := TrimStart(s);
      TrimStartSuffix(s);
      assert FirstVisibleAt(s, |s| - |t|) by {
        assert s[|s| - |t|] == t[0];
      }
    }
  }

  /** A whitespace-only line is blank. */
  lemma BlankExample()
    ensures Classify(" \t ") == Blank
  {
  }

  /** The usual comment openers and continuation lines are comments. */
  lemma CommentExample()
    ensures Classify("// comment") == Comment
    ensures Classify("  * continued") == Comment
  {
    assert FirstVisibleAt("// comment", 0);
    assert FirstVisibleAt("  * continued", 2);
  }

  /** An ordinary statement is code. */
  lemma CodeExample()
    ensures Classify("int x = 1;") == Code
  {
  }

  /** The heuristic's known limitation: a pointer dereference is counted as a comment. */
  lemma DereferenceIsComment()
    ensures Classify("*p = 1;") == Comment
  {
  }
}
