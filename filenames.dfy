/**
 * The per-name string rules of the dataset utilities (backend/utils.py):
 * the all-ASCII test, space-to-underscore replacement, the ASCII rename
 * target, the image-extension filter and POSIX `os.path.join`.
 */
module Filenames {

  /** Code points below this bound are ASCII. */
  const AsciiLimit: int := 128

  /** `all(ord(char) < 128 for char in s)`, checked from the first character on. */
  predicate IsAscii(s: string) {
    s == [] || (s[0] as int < AsciiLimit && IsAscii(s[1..]))
  }

  /** The test is the one the source states: every code point is below 128. */
  lemma {:induction false} IsAsciiAllBelowLimit(s: string)
    ensures IsAscii(s) <==> forall i :: 0 <= i < |s| ==> s[i] as int < AsciiLimit
  {
    if s != [] {
      IsAsciiAllBelowLimit(s[1..]);
      assert forall i :: 1 <= i < |s| ==> s[i] == s[1..][i - 1];
    }
  }

  /** `" " in s`, checked from the first character on. */
  predicate HasSpace(s: string) {
    s != [] && (s[0] == ' ' || HasSpace(s[1..]))
  }

  /** The test is the one the source states: some character is a space. */
  lemma {:induction false} HasSpaceSomeSpace(s: string)
    ensures HasSpace(s) <==> exists i :: 0 <= i < |s| && s[i] == ' '
  {
    if s != [] {
      HasSpaceSomeSpace(s[1..]);
      assert forall i :: 1 <= i < |s| ==> s[i] == s[1..][i - 1];
      if HasSpace(s[1..]) && s[0] != ' ' {
        var i :| 0 <= i < |s[1..]| && s[1..][i] == ' ';
        assert s[i + 1] == ' ';
      }
    }
  }

  /** `s.replace(" ", "_")`. */
  function ReplaceSpaces(s: string): (r: string)
    ensures |r| == |s|
    ensures forall i :: 0 <= i < |s| ==> r[i] == (if s[i] == ' ' then '_' else s[i])
    ensures !HasSpace(r)
    ensures !HasSpace(s) ==> r == s
    ensures IsAscii(s) ==> IsAscii(r)
  {
    if s == [] then [] else [if s[0] == ' ' then '_' else s[0]] + ReplaceSpaces(s[1..])
  }

  /** Replacing spaces twice is replacing them once. */
  lemma ReplaceSpacesIdempotent(s: string)
    ensures ReplaceSpaces(ReplaceSpaces(s)) == ReplaceSpaces(s)
  {
  }

  /**
   * The name an entry is renamed to by the ASCII normalisation:
   * `unidecode(name).replace(" ", "_")`, where the transliteration is a
   * parameter of the model.
   */
  function AsciiTarget(name: string, transliterate: string -> string): (r: string)
    ensures !HasSpace(r)
    ensures |r| == |transliterate(name)|
    ensures IsAscii(transliterate(name)) ==> IsAscii(r)
  {
    ReplaceSpaces(transliterate(name))
  }

  /** ASCII lower-casing of one character. */
  function LowerChar(c: char): (d: char)
    ensures 'A' <= c <= 'Z' ==> d as int == c as int + 32
    ensures !('A' <= c <= 'Z') ==> d == c
  {
    if 'A' <= c <= 'Z' then (c as int + 32) as char else c
  }

  /** `s.lower()`, for the letters that matter to the extension test. */
  function Lower(s: string): (r: string)
    ensures |r| == |s|
    ensures forall i :: 0 <= i < |s| ==> r[i] == LowerChar(s[i])
  {
    seq(|s|, i requires 0 <= i < |s| => LowerChar(s[i]))
  }

  predicate EndsWith(s: string, suffix: string) {
    |suffix| <= |s| && s[|s| - |suffix|..] == suffix
  }

  /** `name.lower().endswith((".png", ".jpg", ".jpeg"))`. */
  predicate HasImageExtension(name: string)
    ensures EndsWith(name, ".png") || EndsWith(name, ".jpg") || EndsWith(name, ".jpeg") ==> HasImageExtension(name)
  {
    LowerKeepsSuffix(name, ".png");
    LowerKeepsSuffix(name, ".jpg");
    LowerKeepsSuffix(name, ".jpeg");
    var l := Lower(name);
    EndsWith(l, ".png") || EndsWith(l, ".jpg") || EndsWith(l, ".jpeg")
  }

  /** Lower-casing keeps a suffix that has no upper-case letter. */
  lemma LowerKeepsSuffix(name: string, suffix: string)
    requires forall j :: 0 <= j < |suffix| ==> !('A' <= suffix[j] <= 'Z')
    ensures EndsWith(name, suffix) ==> EndsWith(Lower(name), suffix)
  {
    if EndsWith(name, suffix) {
      var l, d := Lower(name), |name| - |suffix|;
      forall j | 0 <= j < |suffix| ensures l[d + j] == suffix[j] {
        assert name[d + j] == suffix[j];
      }
    }
  }

  lemma LowerAppend(a: string, b: string)
    ensures Lower(a + b) == Lower(a) + Lower(b)
  {
    var l, r := Lower(a + b), Lower(a) + Lower(b);
    forall i | 0 <= i < |l| ensures l[i] == r[i] {
      if i < |a| {
        assert (a + b)[i] == a[i];
      } else {
        assert (a + b)[i] == b[i - |a|];
      }
    }
  }

  /** Upper-case image extensions qualify, whatever the stem. */
  lemma UpperCaseExtensionQualifies(stem: string)
    ensures HasImageExtension(stem + ".JPG")
  {
    LowerAppend(stem, ".JPG");
    var e := Lower(".JPG");
    assert e[0] == '.' && e[1] == 'j' && e[2] == 'p' && e[3] == 'g';
    assert e == ".jpg";
  }

  /** A name ending in another extension does not qualify, whatever the stem. */
  lemma OtherExtensionExcluded(stem: string)
    ensures !HasImageExtension(stem + ".txt")
  {
    LowerAppend(stem, ".txt");
    var t := Lower(stem + ".txt");
    assert t[|t| - 1] == LowerChar('t');
  }

  predicate IsAbsolute(p: string) {
    |p| > 0 && p[0] == '/'
  }

  /** POSIX `os.path.join(a, b)` for two components. */
  function PathJoin(a: string, b: string): (r: string)
    ensures EndsWith(r, b)
    ensures IsAbsolute(b) ==> r == b
    ensures !IsAbsolute(b) ==> |a| <= |r| && r[..|a|] == a
    ensures !IsAbsolute(b) && a != "" ==> |r| == |a| + |b| || |r| == |a| + 1 + |b|
    ensures !IsAbsolute(b) && a != "" ==> r[|r| - |b| - 1] == '/'
  {
    if IsAbsolute(b) then b
    else if a == "" || a[|a| - 1] == '/' then a + b
    else a + "/" + b
  }
}
