/** The extension allow-list that app.py applies to an uploaded file's name (`allowed_file`). */
module Uploads {

  /** `ALLOWED_EXTENSIONS`. */
  const ALLOWED_EXTENSIONS: set<string> := {"txt", "pdf", "png", "jpg", "jpeg", "gif"}

  /** ASCII lowercasing of one character; other characters are left alone. */
  function ToLowerAscii(c: char): char
  {
    if 'A' <= c <= 'Z' then (c as int + 32) as char else c
  }

  /** `str.lower()`, restricted to ASCII letters. */
  function LowerAscii(s: string): string
  {
    seq(|s|, i requires 0 <= i < |s| => ToLowerAscii(s[i]))
  }

  /** The index of the last '.' in `s`, or -1 when there is none. */
  function LastDot(s: string): (i: int)
    ensures -1 <= i < |s|
    ensures i == -1 <==> '.' !in s
    ensures 0 <= i ==> s[i] == '.' && '.' !in s[i + 1..]
    decreases |s|
  {
    if s == [] then -1
    else if s[|s| - 1] == '.' then |s| - 1
    else
      var i := LastDot(s[..|s| - 1]);
      assert s == s[..|s| - 1] + [s[|s| - 1]];
      assert 0 <= i ==> s[i + 1..] == s[..|s| - 1][i + 1..] + [s[|s| - 1]];
      i
  }

  /** `s[i]` is a '.' and no '.' follows it. */
  predicate LastDotAt(s: string, i: int)
  {
    0 <= i < |s| && s[i] == '.' && '.' !in s[i + 1..]
  }

  /** `LastDot` finds the one '.' that has no '.' after it, whenever there is a '.'. */
  lemma LastDotIsOnly(s: string)
    ensures forall j :: LastDotAt(s, j) <==> 0 <= j == LastDot(s)
  {
  }

  /**
   * `allowed_file`: the name holds a '.', and the text after the last '.',
   * lowercased, is one of the allowed extensions.
   */
  function AllowedFile(filename: string): (ok: bool)
    ensures ok <==> exists i :: LastDotAt(filename, i) && LowerAscii(filename[i + 1..]) in ALLOWED_EXTENSIONS
  {
    var i := LastDot(filename);
    LastDotIsOnly(filename);
    assert 0 <= i ==> LastDotAt(filename, i);
    '.' in filename && LowerAscii(filename[i + 1..]) in ALLOWED_EXTENSIONS
  }

  /** The extension test ignores ASCII case, and a name that is only a '.' and an extension passes. */
  lemma AllowedFileAccepts()
    ensures AllowedFile("a.PNG")
    ensures AllowedFile(".png")
  {
    LastDotIsOnly("a.PNG");
    assert LastDotAt("a.PNG", 1) && LowerAscii("PNG") == "png";
    LastDotIsOnly(".png");
    assert LastDotAt(".png", 0) && LowerAscii("png") == "png";
  }

  /** Only the text after the last '.' counts, and a name without a '.' never passes. */
  lemma AllowedFileRejects()
    ensures !AllowedFile("x.tar.gz")
    ensures !AllowedFile("png")
  {
  }
}
