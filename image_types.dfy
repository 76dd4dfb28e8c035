/** Inferring the image type of an object key: the capture of the regular
    expression `/\.([^.]*)$/` (the text after the last dot) and the
    case-insensitive allow-list `png`, `jpg`, `jpeg`, `gif`. */
module ImageTypes {

  datatype Option<+T> = None | Some(value: T)

  /** The allow-list, in the order the handler declares it. */
  const ValidImageTypes: seq<string> := ["png", "jpg", "jpeg", "gif"]

  /** What `key.match(/\.([^.]*)$/)` yields: no match when the key holds no
      dot, otherwise group 1, the (possibly empty) text after the last dot.
      `[^.]` also matches line terminators, so only dots matter. */
  function Extension(key: string): (r: Option<string>)
    ensures r.None? <==> '.' !in key
    ensures r.Some? ==>
      && |r.value| < |key|
      && key[|key| - |r.value| - 1] == '.'
      && key[|key| - |r.value|..] == r.value
      && '.' !in r.value
  {
    if key == [] then None
    else if key[|key| - 1] == '.' then Some([])
    else
      match Extension(key[..|key| - 1])
      case None => None
      case Some(e) => Some(e + [key[|key| - 1]])
  }

  /** The regular expression's own reading: some dot is followed, up to the
      end of the key, by non-dot characters only, and those are the capture. */
  ghost predicate RegexCaptures(key: string, ext: string) {
    exists i :: 0 <= i < |key| && key[i] == '.' && key[i + 1..] == ext && '.' !in ext
  }

  /** `Extension` is exactly the regular expression's capture group. */
  lemma ExtensionIsRegexCapture(key: string, ext: string)
    ensures Extension(key) == Some(ext) <==> RegexCaptures(key, ext)
  {
  }

  /** Lower-casing of one character; only ASCII letters change. */
  function LowerChar(c: char): char {
    if 'A' <= c <= 'Z' then (c as int + 32) as char else c
  }

  /** Upper-casing of one character; only ASCII letters change. */
  function UpperChar(c: char): char {
    if 'a' <= c <= 'z' then (c as int - 32) as char else c
  }

  /** `String.prototype.toLowerCase`, on ASCII letters. */
  function ToLower(s: string): string {
    seq(|s|, i requires 0 <= i < |s| => LowerChar(s[i]))
  }

  /** `validImageTypes.indexOf(ext.toLowerCase()) >= 0`: lower-case the
      extension, then look it up in the four-element list. Whatever passes
      has three or four characters and no dot. */
  predicate IsValidImageType(ext: string): (b: bool)
    ensures b ==> |ext| == 3 || |ext| == 4
    ensures b ==> '.' !in ext
  {
    DotSurvivesToLower(ext);
    ToLower(ext) in ValidImageTypes
  }

  /** Lower-casing leaves every dot where it was. */
  lemma DotSurvivesToLower(s: string)
    ensures '.' in s ==> '.' in ToLower(s)
  {
    if '.' in s {
      var i :| 0 <= i < |s| && s[i] == '.';
      assert ToLower(s)[i] == '.';
    }
  }

  /** `s` spells `t` with any of its letters in either case. */
  ghost predicate CaseVariant(s: string, t: string) {
    |s| == |t| && forall i :: 0 <= i < |s| ==> s[i] == t[i] || s[i] == UpperChar(t[i])
  }

  /** Every character of `t` is a lower-case ASCII letter. */
  ghost predicate LowerLetters(t: string) {
    forall k :: 0 <= k < |t| ==> 'a' <= t[k] <= 'z'
  }

  /** Any string is a case variant of its own lower-casing. */
  lemma CaseVariantOfToLower(s: string)
    ensures CaseVariant(s, ToLower(s))
  {
    var t := ToLower(s);
    forall i | 0 <= i < |s| ensures s[i] == t[i] || s[i] == UpperChar(t[i]) {
      assert t[i] == LowerChar(s[i]);
    }
  }

  /** Lower-casing a case variant of a lower-case word gives that word. */
  lemma ToLowerOfCaseVariant(s: string, t: string)
    requires LowerLetters(t) && CaseVariant(s, t)
    ensures ToLower(s) == t
  {
    var l := ToLower(s);
    forall i | 0 <= i < |s| ensures l[i] == t[i] {
      assert 'a' <= t[i] <= 'z';
    }
  }

  /** An extension is accepted exactly when it is one of the four types
      written in any mix of upper and lower case: `JPG` and `JpEg` pass,
      `tiff` and the empty extension do not. */
  lemma ValidImageTypeIsCaseInsensitive(ext: string)
    ensures IsValidImageType(ext) <==> exists t :: t in ValidImageTypes && CaseVariant(ext, t)
  {
    if IsValidImageType(ext) {
      CaseVariantOfToLower(ext);
    }
    if t :| t in ValidImageTypes && CaseVariant(ext, t) {
      assert LowerLetters(t);
      ToLowerOfCaseVariant(ext, t);
    }
  }
}
