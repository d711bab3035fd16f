/**
 * Picking a random comment from the manual-comment text box: one comment per
 * line, surrounding white space removed, blank lines ignored. The random
 * choice is the only nondeterminism, so it is modelled as `:|`.
 */
module Comments {
  import opened Wrappers
  import opened PyText

  /** The candidate comments of a comment text box, in the order they were typed. */
  function CommentLines(text: string): (r: seq<string>)
    ensures forall t | t in r :: Framed(t)
  {
    CleanListFramed(Split(text, '\n'));
    CleanList(Split(text, '\n'))
  }

  /** A text box yields no comment exactly when it holds only white space. */
  lemma NoCommentsIffBlank(text: string)
    ensures CommentLines(text) == [] <==> AllSpace(text)
  {
    var lines := Split(text, '\n');
    AllSpaceJoin(lines, '\n');
    CleanListEmpty(lines);
  }

  /**
   * The scheduler's `get_random_comment`: "" when the text is empty or has no
   * non-blank line, otherwise one of the stripped lines.
   */
  method GetRandomComment(text: string) returns (comment: string)
    ensures comment == "" <==> AllSpace(text)
    ensures comment != "" ==> comment in CommentLines(text)
  {
    if text == "" {
      return "";
    }
    var lines := CommentLines(text);
    NoCommentsIffBlank(text);
    if lines == [] {
      return "";
    }
    assert lines[0] in lines;
    comment :| comment in lines;
    assert Framed(comment);
  }

  /**
   * The multi-account window's `get_random_comment`: `None` when the text is
   * blank, otherwise one of the stripped lines.
   */
  method PickComment(text: string) returns (comment: Option<string>)
    ensures comment.None? <==> AllSpace(text)
    ensures comment.Some? ==> comment.value in CommentLines(text)
  {
    StripBlank(text);
    if Strip(text) == "" {
      return None;
    }
    var lines := CommentLines(text);
    NoCommentsIffBlank(text);
    if lines == [] {
      return None;
    }
    assert lines[0] in lines;
    var c :| c in lines;
    return Some(c);
  }
}
