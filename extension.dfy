/**
 * The file-format test of the new-bill form: a file name is accepted when the
 * regular expression /\.(jpg|jpeg|png)$/i matches it.
 *
 * Without the `m` flag `$` matches only at the very end of the name, and with
 * the `i` flag (and no `u` flag) a letter of the pattern matches exactly its
 * two ASCII cases, since JavaScript never folds a non-ASCII character onto an
 * ASCII one there. ASCII case folding is therefore the whole story.
 */
module ImageExtension {

  /** The accepted extensions, lower-case and without the dot. */
  const ImageExtensions: seq<string> := ["jpg", "jpeg", "png"]

  function FoldChar(c: char): char {
    if 'A' <= c <= 'Z' then (c as int + 32) as char else c
  }

  /** `s` with every ASCII upper-case letter lowered. */
  function Fold(s: string): (r: string)
    ensures |r| == |s|
    ensures forall i :: 0 <= i < |s| ==> r[i] == FoldChar(s[i])
  {
    seq(|s|, i requires 0 <= i < |s| => FoldChar(s[i]))
  }

  /**
   * What the pattern means: some '.' of the name is followed, up to the end
   * of the name, by one of the extensions written in either case.
   */
  ghost predicate MatchesImagePattern(name: string) {
    exists k :: 0 <= k < |name| && name[k] == '.' && Fold(name[k + 1..]) in ImageExtensions
  }

  predicate EndsWithIgnoringCase(s: string, suffix: string) {
    |suffix| <= |s| && Fold(s[|s| - |suffix|..]) == suffix
  }


  /** The name ends, after a dot, with `ext` written in either case. */
  ghost predicate DotExtensionAt(name: string, ext: string) {
    |ext| < |name| && name[|name| - |ext| - 1] == '.' && Fold(name[|name| - |ext|..]) == ext
  }

  /**
   * The test the handler runs on the selected file's name: the name ends with
   * a dot followed by one of the extensions, in either case.
   */
  function IsImageName(name: string): (r: bool)
    ensures r <==> exists ext :: ext in ImageExtensions && DotExtensionAt(name, ext)
  {
    EndsWithDotExtension(name, ".jpg", "jpg");
    EndsWithDotExtension(name, ".jpeg", "jpeg");
    EndsWithDotExtension(name, ".png", "png");
    EndsWithIgnoringCase(name, ".jpg") || EndsWithIgnoringCase(name, ".jpeg") || EndsWithIgnoringCase(name, ".png")
  }

  /** Ending in "." + ext, ignoring case, is the same as having a dot at the matching place. */
  lemma EndsWithDotExtension(name: string, dotted: string, ext: string)
    requires dotted == "." + ext
    ensures EndsWithIgnoringCase(name, dotted) <==> DotExtensionAt(name, ext)
  {
  }

  lemma PatternByExtension(name: string)
    ensures MatchesImagePattern(name) <==>
              DotExtensionAt(name, "jpg") || DotExtensionAt(name, "jpeg") || DotExtensionAt(name, "png")
  {
  }

  /** The handler's test accepts exactly the names the pattern matches. */
  lemma IsImageNameMatchesPattern(name: string)
    ensures IsImageName(name) <==> MatchesImagePattern(name)
  {
    PatternByExtension(name);
  }

  lemma NotEndingWith(s: string, suffix: string, i: nat)
    requires i < |suffix| <= |s| && FoldChar(s[|s| - |suffix| + i]) != suffix[i]
    ensures !EndsWithIgnoringCase(s, suffix)
  {
  }

  /** Acceptance does not depend on the case of the name. */
  lemma AcceptanceIgnoresCase(a: string, b: string)
    requires Fold(a) == Fold(b)
    ensures IsImageName(a) == IsImageName(b)
  {
  }

  /** Every stem followed by a dot and an accepted extension, in any case, is accepted. */
  lemma AcceptsEveryStem(stem: string, ext: string)
    requires Fold(ext) in ImageExtensions
    ensures IsImageName(stem + "." + ext)
  {
    var name := stem + "." + ext;
    assert name[|stem|] == '.' && name[|stem| + 1..] == ext;
    IsImageNameMatchesPattern(name);
  }

  /** Names the handler accepts. */
  lemma AcceptedExamples()
    ensures IsImageName("file.png") && IsImageName("file.PNG") && IsImageName(".png") && IsImageName("scan.JpEg")
  {
    assert DotExtensionAt("file.png", "png") by {
      assert "file.png"[5..] == "png";
    }
    assert DotExtensionAt("file.PNG", "png") by {
      assert "file.PNG"[5..] == "PNG";
      assert Fold("PNG") == "png";
    }
    assert DotExtensionAt(".png", "png") by {
      assert ".png"[1..] == "png";
    }
    assert DotExtensionAt("scan.JpEg", "jpeg") by {
      assert "scan.JpEg"[5..] == "JpEg";
      assert Fold("JpEg") == "jpeg";
    }
  }

  /** Names the handler rejects, among them a name with an accepted extension in the middle. */
  lemma RejectedExamples()
    ensures !IsImageName("file.xml") && !IsImageName("file.png.xml") && !IsImageName("filepng")
  {
    NotEndingWith("file.xml", ".jpg", 3);
    NotEndingWith("file.xml", ".jpeg", 4);
    NotEndingWith("file.xml", ".png", 3);
    NotEndingWith("file.png.xml", ".jpg", 3);
    NotEndingWith("file.png.xml", ".jpeg", 4);
    NotEndingWith("file.png.xml", ".png", 3);
    NotEndingWith("filepng", ".jpg", 0);
    NotEndingWith("filepng", ".jpeg", 0);
    NotEndingWith("filepng", ".png", 0);
  }
}
