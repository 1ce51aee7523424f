/**
  `sanitizeFilename`: `title.replace(/[/\\?%*:|"<>]/g, '-').trim()`.
 */
module Filename {
  import opened Text

  /** The characters of the regex's class (ten of them, the backslash included). */
  predicate IsForbidden(c: char) {
    c == '/' || c == '\\' || c == '?' || c == '%' || c == '*'
    || c == ':' || c == '|' || c == '"' || c == '<' || c == '>'
  }

  /** The global replace: each forbidden character becomes `-`, every other one stays. */
  function ReplaceForbidden(s: string): (r: string)
    ensures |r| == |s|
    ensures forall i :: 0 <= i < |s| ==> !IsForbidden(r[i])
    ensures forall i :: 0 <= i < |s| && !IsForbidden(s[i]) ==> r[i] == s[i]
    ensures forall i :: 0 <= i < |s| && IsForbidden(s[i]) ==> r[i] == '-'
  {
    seq(|s|, i requires 0 <= i < |s| => if IsForbidden(s[i]) then '-' else s[i])
  }

  /** `sanitizeFilename(title)`. */
  function Sanitize(title: string): (r: string)
  {
    Trim(ReplaceForbidden(title))
  }

  /** The result holds no forbidden character and no whitespace at either end. */
  lemma SanitizeIsSafe(title: string)
    ensures var r := Sanitize(title);
            && (forall i :: 0 <= i < |r| ==> !IsForbidden(r[i]))
            && (r != [] ==> !IsWhitespace(r[0]) && !IsWhitespace(r[|r| - 1]))
  {
    var replaced := ReplaceForbidden(title);
    var r := Sanitize(title);
    var a := LeadingSpace(replaced);
    TrimIsSlice(replaced);
    forall i | 0 <= i < |r| ensures !IsForbidden(r[i]) {
      assert r[i] == replaced[a + i];
    }
  }

  /** The replace leaves whitespace where it was. */
  lemma ReplaceKeepsWhitespace(s: string)
    ensures forall i :: 0 <= i < |s| && IsWhitespace(ReplaceForbidden(s)[i]) ==>
              s[i] == ReplaceForbidden(s)[i]
  {
  }

  /** Every other character is kept, in order: the result is a slice of the title,
      with forbidden characters read as `-`, that only whitespace surrounds. */
  lemma SanitizeKeepsOthers(title: string)
    ensures var r := Sanitize(title);
            var a := LeadingSpace(ReplaceForbidden(title));
            && a + |r| <= |title|
            && (forall i :: 0 <= i < a ==> IsWhitespace(title[i]))
            && (forall i :: a + |r| <= i < |title| ==> IsWhitespace(title[i]))
            && (forall i :: 0 <= i < |r| ==>
                  r[i] == if IsForbidden(title[a + i]) then '-' else title[a + i])
  {
    var replaced := ReplaceForbidden(title);
    var r := Trim(replaced);
    var a := LeadingSpace(replaced);
    TrimIsSlice(replaced);
    ReplaceKeepsWhitespace(title);
    assert forall i :: 0 <= i < |r| ==> r[i] == replaced[a + i];
  }

  /** A string without forbidden characters is left alone by the replace. */
  lemma ReplaceOfSafe(s: string)
    requires forall i :: 0 <= i < |s| ==> !IsForbidden(s[i])
    ensures ReplaceForbidden(s) == s
  {
  }

  /** Sanitising is idempotent (`-` is not whitespace). */
  lemma SanitizeIdempotent(title: string)
    ensures Sanitize(Sanitize(title)) == Sanitize(title)
  {
    var r := Sanitize(title);
    SanitizeIsSafe(title);
    ReplaceOfSafe(r);
    TrimOfTrimmed(r);
  }

  lemma ReplaceColon()
    ensures ReplaceForbidden("Intro: Setup") == "Intro- Setup"
  {
    var title := "Intro: Setup";
    var replaced := ReplaceForbidden(title);
    forall i | 0 <= i < |title| ensures replaced[i] == "Intro- Setup"[i] {
      assert IsForbidden(title[i]) <==> i == 5;
    }
  }

  /** The title of the end-to-end scenario: the colon becomes a hyphen. */
  lemma ExampleColon()
    ensures Sanitize("Intro: Setup") == "Intro- Setup"
  {
    ReplaceColon();
    TrimOfTrimmed("Intro- Setup");
  }
}
