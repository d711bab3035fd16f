/**
 * File and folder names derived from user text: the profile-folder name of an
 * account and the name of the spreadsheet that receives a post's results.
 */
module FileNames {
  import opened Wrappers
  import opened PyText

  /** The nine characters Windows refuses in file names: `<>:"/\|?*`. */
  predicate Forbidden(c: char) {
    c == '<' || c == '>' || c == ':' || c == '"' || c == '/' || c == '\\' || c == '|' || c == '?' || c == '*'
  }

  predicate Clean(s: string) {
    forall i | 0 <= i < |s| :: !Forbidden(s[i])
  }

  /**
   * `sanitize_folder_name`: every forbidden character becomes `_`, every other
   * character and the length stay as they are.
   */
  function SanitizeFolderName(name: string): (r: string)
    ensures |r| == |name|
    ensures forall i | 0 <= i < |name| :: Forbidden(name[i]) ==> r[i] == '_'
    ensures forall i | 0 <= i < |name| :: !Forbidden(name[i]) ==> r[i] == name[i]
  {
    if name == [] then []
    else
      var rest := SanitizeFolderName(name[1..]);
      assert forall i | 1 <= i < |name| :: name[i] == name[1..][i - 1];
      [if Forbidden(name[0]) then '_' else name[0]] + rest
  }

  /** A sanitized name holds no forbidden character. */
  lemma SanitizedIsClean(name: string)
    ensures Clean(SanitizeFolderName(name))
  {
    var r := SanitizeFolderName(name);
    forall i | 0 <= i < |r|
      ensures !Forbidden(r[i])
    {
      if Forbidden(name[i]) {
        assert r[i] == '_';
      }
    }
  }

  /** Sanitizing is idempotent, and a clean name is left alone. */
  lemma SanitizeIdempotent(name: string)
    ensures SanitizeFolderName(SanitizeFolderName(name)) == SanitizeFolderName(name)
    ensures Clean(name) ==> SanitizeFolderName(name) == name
  {
    SanitizedIsClean(name);
    var r := SanitizeFolderName(name);
    assert SanitizeFolderName(r) == r;
  }

  const MaxTitle := 50

  /**
   * The file-name stem of a post's spreadsheet: the title with forbidden
   * characters replaced, stripped and cut to 50 characters, or "게시물_<index>"
   * when nothing is left.
   */
  function ExportTitle(title: string, postIndex: int): (r: string)
    ensures r != []
    ensures Clean(r)
    ensures AllSpace(title) ==> r == Fallback(postIndex)
    ensures !AllSpace(title) ==> |r| <= MaxTitle && !IsSpace(r[0])
  {
    var cleaned := SanitizeFolderName(title);
    var t := Strip(cleaned);
    var cut := if |t| > MaxTitle then t[..MaxTitle] else t;
    SanitizeKeepsBlank(title);
    StripBlank(cleaned);
    if cut == [] then
      FallbackClean(postIndex);
      Fallback(postIndex)
    else
      SanitizedIsClean(title);
      StripClean(cleaned);
      assert forall i | 0 <= i < |cut| :: cut[i] == t[i];
      cut
  }

  /** The stem used for a post whose title leaves nothing: "게시물_<index>". */
  function Fallback(postIndex: int): string
  {
    "게시물_" + ShowInt(postIndex)
  }

  lemma FallbackClean(postIndex: int)
    ensures Clean(Fallback(postIndex))
  {
    var digits := ShowInt(postIndex);
    var d := Show(if postIndex < 0 then -postIndex else postIndex);
    assert forall i | 0 <= i < |d| :: IsDigit(d[i]);
    assert digits == d || digits == "-" + d;
    assert forall i | 0 <= i < |digits| :: !Forbidden(digits[i]);
    var f := Fallback(postIndex);
    assert forall i | 4 <= i < |f| :: f[i] == digits[i - 4];
  }

  /** Replacing forbidden characters neither creates nor removes white space. */
  lemma SanitizeKeepsBlank(name: string)
    ensures AllSpace(SanitizeFolderName(name)) <==> AllSpace(name)
  {
    var r := SanitizeFolderName(name);
    assert forall i | 0 <= i < |name| :: IsSpace(r[i]) == IsSpace(name[i]);
  }

  lemma StripClean(s: string)
    requires Clean(s)
    ensures Clean(Strip(s))
  {
    var t := Strip(s);
    StripWithin(s);
    forall i | 0 <= i < |t|
      ensures !Forbidden(t[i])
    {
      assert t[i] in t;
    }
  }

  /** The `k`-th name tried for a stem: "<stem>.xlsx", then "<stem>_<k>.xlsx". */
  function Candidate(stem: string, k: nat): string
  {
    if k == 0 then stem + ".xlsx" else stem + "_" + Show(k) + ".xlsx"
  }

  const MaxAttempts := 100

  /** The first of the candidates `k`, `k + 1`, ..., 99 that does not exist yet. */
  function FreeName(stem: string, existing: set<string>, k: nat): Option<string>
    decreases MaxAttempts - k
  {
    if k >= MaxAttempts then None
    else if Candidate(stem, k) !in existing then Some(Candidate(stem, k))
    else FreeName(stem, existing, k + 1)
  }

  /**
   * The duplicate-avoiding name loop of `save_post_results_to_excel`: the first
   * of "<stem>.xlsx", "<stem>_1.xlsx", ..., "<stem>_99.xlsx" that does not exist
   * yet, or nothing when all one hundred exist.
   */
  method ChooseExportFile(stem: string, existing: set<string>) returns (name: Option<string>)
    ensures name == FreeName(stem, existing, 0)
    ensures name.None? <==> forall k | 0 <= k < MaxAttempts :: Candidate(stem, k) in existing
    ensures name.Some? ==> name.value !in existing
    ensures name.Some? ==> exists k | 0 <= k < MaxAttempts ::
      name.value == Candidate(stem, k) && forall j | 0 <= j < k :: Candidate(stem, j) in existing
  {
    var filename := Candidate(stem, 0);
    var counter := 1;
    while counter <= MaxAttempts
      invariant 1 <= counter <= MaxAttempts + 1
      invariant filename == Candidate(stem, counter - 1)
      invariant forall j | 0 <= j < counter - 1 :: Candidate(stem, j) in existing
      invariant FreeName(stem, existing, counter - 1) == FreeName(stem, existing, 0)
    {
      if filename !in existing {
        break;
      }
      filename := Candidate(stem, counter);
      counter := counter + 1;
    }
    if counter > MaxAttempts {
      return None;
    }
    return Some(filename);
  }
}
