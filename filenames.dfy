/**
 * The download name offered when the upstream answer has no Content-Disposition of its own
 * (main.py:118-133): the last path segment of the target URL, cut at `?` and `#`, given the
 * extension guessed from the content type unless it already ends with it, reduced to letters,
 * digits and `._-`, and `downloaded_file` whenever that leaves nothing or anything raises.
 */
module Filenames {
  import opened Wrappers
  import opened Strings
  import opened Library

  const Fallback := "downloaded_file"

  /** What the extension is guessed from when the upstream answer has no content type. */
  const DefaultContentType := "application/octet-stream"

  predicate AsciiAlnum(c: char) {
    'a' <= c <= 'z' || 'A' <= c <= 'Z' || '0' <= c <= '9'
  }

  /** `c.isalnum()`: fixed for ASCII, the Unicode database's answer otherwise. */
  predicate IsAlnum(c: char, nonAsciiAlnum: char -> bool) {
    if c <= '\U{7F}' then AsciiAlnum(c) else nonAsciiAlnum(c)
  }

  /** The characters the sanitiser keeps. */
  predicate Kept(c: char, nonAsciiAlnum: char -> bool) {
    IsAlnum(c, nonAsciiAlnum) || c == '.' || c == '_' || c == '-'
  }

  /** The character class `[A-Za-z0-9._-]`. */
  predicate PortableChar(c: char) {
    AsciiAlnum(c) || c == '.' || c == '_' || c == '-'
  }

  /** `os.path.basename(path)` (POSIX): what follows the last `/`. */
  function Basename(path: string): (b: string)
    ensures '/' !in b
    ensures |b| <= |path| && b == path[|path| - |b|..]
    ensures |b| < |path| ==> path[|path| - |b| - 1] == '/'
  {
    if path == [] || path[|path| - 1] == '/' then []
    else Basename(path[..|path| - 1]) + [path[|path| - 1]]
  }

  /** `s.split(sep)[0]`: everything before the first `sep`. */
  function CutAt(s: string, sep: char): (r: string)
    ensures sep !in r
    ensures IsPrefix(r, s)
    ensures |r| < |s| ==> s[|r|] == sep
  {
    if s == [] || s[0] == sep then [] else [s[0]] + CutAt(s[1..], sep)
  }

  /** `base.split("?")[0].split("#")[0]`: the prefix of `base` before its first `?` or `#`. */
  function Stem(base: string): (stem: string)
    ensures '?' !in stem && '#' !in stem
    ensures IsPrefix(stem, base)
    ensures |stem| < |base| ==> base[|stem|] == '?' || base[|stem|] == '#'
  {
    CutAt(CutAt(base, '?'), '#')
  }

  /** The extension is appended when one was guessed and the stem does not end with it, ignoring case. */
  predicate AppendsExtension(stem: string, ext: Option<string>) {
    ext.Some? && ext.value != "" && !EndsWith(Lower(stem), Lower(ext.value))
  }

  /** The name before sanitising (main.py:121-128), from the path's last segment and the guessed extension. */
  function Candidate(base: string, ext: Option<string>): (c: string)
    ensures base == "" ==> c == Fallback
    ensures base != "" ==> IsPrefix(Stem(base), c)
  {
    if base == "" then Fallback
    else
      var stem := Stem(base);
      if AppendsExtension(stem, ext) then stem + ext.value else stem
  }

  /** The generator-expression join of main.py:129: the characters of `s` that are kept, in order. */
  function Sanitize(s: string, nonAsciiAlnum: char -> bool): (r: string)
    ensures |r| <= |s|
    ensures forall i :: 0 <= i < |r| ==> Kept(r[i], nonAsciiAlnum)
  {
    if s == [] then []
    else (if Kept(s[0], nonAsciiAlnum) then [s[0]] else []) + Sanitize(s[1..], nonAsciiAlnum)
  }

  /**
   * main.py:129-130: sanitise, strip, and fall back when nothing is left. A name that is already
   * clean comes through unchanged.
   */
  function Finish(raw: string, nonAsciiAlnum: char -> bool): (name: string)
    ensures name != []
    ensures forall i :: 0 <= i < |name| ==> Kept(name[i], nonAsciiAlnum)
    ensures Sanitize(raw, nonAsciiAlnum) == [] ==> name == Fallback
    ensures (raw != [] && (forall i :: 0 <= i < |raw| ==> Kept(raw[i], nonAsciiAlnum))
             && !IsSpace(raw[0]) && !IsSpace(raw[|raw| - 1])) ==> name == raw
    ensures raw != [] && (forall i :: 0 <= i < |raw| ==> PortableChar(raw[i])) ==> name == raw
    ensures var s := Sanitize(raw, nonAsciiAlnum);
      s != [] && !IsSpace(s[0]) && !IsSpace(s[|s| - 1]) ==> name == s
  {
    var clean := Sanitize(raw, nonAsciiAlnum);
    CleanNameSurvives(raw, nonAsciiAlnum);
    var stripped := Strip(clean);
    if stripped == [] then
      FallbackKept(nonAsciiAlnum);
      Fallback
    else stripped
  }

  /**
   * A clean name (only kept characters, no whitespace at either end) survives sanitising and
   * stripping, and so does any sanitised name with no whitespace at either end.
   */
  lemma CleanNameSurvives(raw: string, nonAsciiAlnum: char -> bool)
    ensures raw != [] && (forall i :: 0 <= i < |raw| ==> PortableChar(raw[i])) ==>
      (forall i :: 0 <= i < |raw| ==> Kept(raw[i], nonAsciiAlnum)) && !IsSpace(raw[0]) && !IsSpace(raw[|raw| - 1])
    ensures (raw != [] && (forall i :: 0 <= i < |raw| ==> Kept(raw[i], nonAsciiAlnum))
             && !IsSpace(raw[0]) && !IsSpace(raw[|raw| - 1])) ==> Strip(Sanitize(raw, nonAsciiAlnum)) == raw
    ensures var s := Sanitize(raw, nonAsciiAlnum);
      s != [] && !IsSpace(s[0]) && !IsSpace(s[|s| - 1]) ==> Strip(s) == s
    ensures var t := Strip(Sanitize(raw, nonAsciiAlnum));
      forall i :: 0 <= i < |t| ==> Kept(t[i], nonAsciiAlnum)
  {
    var s := Sanitize(raw, nonAsciiAlnum);
    StripKeeps(s, c => Kept(c, nonAsciiAlnum));
    SanitizedUnstripped(raw, nonAsciiAlnum);
    if raw != [] && (forall i :: 0 <= i < |raw| ==> PortableChar(raw[i])) {
      PortableIsClean(raw, nonAsciiAlnum);
    }
    if forall i :: 0 <= i < |raw| ==> Kept(raw[i], nonAsciiAlnum) {
      SanitizeIdentity(raw, nonAsciiAlnum);
    }
  }

  /** A non-empty `[A-Za-z0-9._-]` name has only kept characters and no whitespace at either end. */
  lemma PortableIsClean(raw: string, nonAsciiAlnum: char -> bool)
    requires raw != [] && forall i :: 0 <= i < |raw| ==> PortableChar(raw[i])
    ensures forall i :: 0 <= i < |raw| ==> Kept(raw[i], nonAsciiAlnum)
    ensures !IsSpace(raw[0]) && !IsSpace(raw[|raw| - 1])
  {
    PortableNotSpace(raw[0]);
    PortableNotSpace(raw[|raw| - 1]);
  }

  /** Stripping leaves a sanitised name with no whitespace at either end as it is. */
  lemma SanitizedUnstripped(raw: string, nonAsciiAlnum: char -> bool)
    ensures var s := Sanitize(raw, nonAsciiAlnum);
      s != [] && !IsSpace(s[0]) && !IsSpace(s[|s| - 1]) ==> Strip(s) == s
  {
    var s := Sanitize(raw, nonAsciiAlnum);
    if s != [] && !IsSpace(s[0]) && !IsSpace(s[|s| - 1]) {
      StripUnchanged(s);
    }
  }

  /** `downloaded_file` is a non-empty name of kept characters. */
  lemma FallbackKept(nonAsciiAlnum: char -> bool)
    ensures Fallback != [] && forall i :: 0 <= i < |Fallback| ==> Kept(Fallback[i], nonAsciiAlnum)
  {
    FallbackPortable();
  }

  /** `downloaded_file` is plain ASCII from the class `[A-Za-z0-9._-]`. */
  lemma FallbackPortable()
    ensures forall i :: 0 <= i < |Fallback| ==> PortableChar(Fallback[i]) && Fallback[i] <= '\U{7F}'
  {
  }

  /** The name a synthesised Content-Disposition offers, for a target URL and the upstream content type. */
  function SynthesizedFilename(url: string, contentType: Option<string>, rt: Runtime): (name: string)
    ensures name != []
    ensures forall i :: 0 <= i < |name| ==> Kept(name[i], rt.nonAsciiAlnum)
  {
    match rt.urlPath(url)
    case None => FallbackPortable(); Fallback
    case Some(path) =>
      Finish(Candidate(Basename(path), rt.guessExtension(contentType.GetOr(DefaultContentType))), rt.nonAsciiAlnum)
  }

  function Attachment(name: string): string {
    "attachment; filename=\"" + name + "\""
  }

  /** main.py:118-133, assigning `filename` step by step as the source does. */
  method SynthesizeDisposition(url: string, contentType: Option<string>, rt: Runtime) returns (value: string)
    ensures value == Attachment(SynthesizedFilename(url, contentType, rt))
  {
    var parsed := rt.urlPath(url);
    if parsed.None? {
      // the `except Exception` clause
      value := Attachment(Fallback);
      return;
    }
    var pathBasename := Basename(parsed.value);
    var filename := Fallback;
    if pathBasename != "" {
      var filenameStem := Stem(pathBasename);
      var guessedExtension := rt.guessExtension(contentType.GetOr(DefaultContentType));
      if AppendsExtension(filenameStem, guessedExtension) {
        filename := filenameStem + guessedExtension.value;
      } else {
        filename := filenameStem;
      }
    }
    filename := Strip(Sanitize(filename, rt.nonAsciiAlnum));
    if filename == "" {
      filename := Fallback;
    }
    value := Attachment(filename);
  }

  /** The sanitiser keeps every kept character as often as it occurs, and nothing else. */
  lemma {:induction false} SanitizeCounts(s: string, nonAsciiAlnum: char -> bool, c: char)
    ensures multiset(Sanitize(s, nonAsciiAlnum))[c] == if Kept(c, nonAsciiAlnum) then multiset(s)[c] else 0
  {
    if s != [] {
      SanitizeCounts(s[1..], nonAsciiAlnum, c);
      assert s == [s[0]] + s[1..];
      assert multiset(s) == multiset([s[0]]) + multiset(s[1..]);
    }
  }

  /**
   * The sanitiser works character by character and keeps the order: a single character is kept
   * or dropped, and sanitising a concatenation concatenates the sanitised parts.
   */
  lemma {:induction false} SanitizeAppend(a: string, b: string, nonAsciiAlnum: char -> bool)
    ensures Sanitize(a + b, nonAsciiAlnum) == Sanitize(a, nonAsciiAlnum) + Sanitize(b, nonAsciiAlnum)
    ensures |a| == 1 ==> Sanitize(a, nonAsciiAlnum) == if Kept(a[0], nonAsciiAlnum) then a else []
  {
    if a == [] {
      assert a + b == b;
    } else {
      var head := if Kept(a[0], nonAsciiAlnum) then [a[0]] else [];
      assert (a + b)[0] == a[0];
      assert (a + b)[1..] == a[1..] + b;
      SanitizeAppend(a[1..], b, nonAsciiAlnum);
      var rest, tail := Sanitize(a[1..], nonAsciiAlnum), Sanitize(b, nonAsciiAlnum);
      assert Sanitize(a + b, nonAsciiAlnum) == head + (rest + tail);
      assert Sanitize(a, nonAsciiAlnum) == head + rest;
      assert head + (rest + tail) == (head + rest) + tail;
      if |a| == 1 {
        assert a[1..] == [];
      }
    }
  }

  /** A name made only of kept characters comes through the sanitiser unchanged. */
  lemma {:induction false} SanitizeIdentity(s: string, nonAsciiAlnum: char -> bool)
    requires forall i :: 0 <= i < |s| ==> Kept(s[i], nonAsciiAlnum)
    ensures Sanitize(s, nonAsciiAlnum) == s
  {
    if s != [] {
      SanitizeIdentity(s[1..], nonAsciiAlnum);
      assert s == [s[0]] + s[1..];
    }
  }

  /** Sanitising twice is sanitising once. */
  lemma SanitizeIdempotent(s: string, nonAsciiAlnum: char -> bool)
    ensures Sanitize(Sanitize(s, nonAsciiAlnum), nonAsciiAlnum) == Sanitize(s, nonAsciiAlnum)
  {
    SanitizeIdentity(Sanitize(s, nonAsciiAlnum), nonAsciiAlnum);
  }

  /**
   * The name before sanitising is the stem, or the stem with the guessed extension; the extension
   * is appended exactly when the stem does not already end with it (ignoring case), so afterwards
   * the name always ends with it and never carries it twice over.
   */
  lemma CandidateShape(base: string, ext: Option<string>)
    requires base != ""
    ensures var c := Candidate(base, ext);
      && (c == Stem(base) || (ext.Some? && c == Stem(base) + ext.value))
      && (ext.Some? && ext.value != "" ==> EndsWith(Lower(c), Lower(ext.value)))
      && (ext.Some? && ext.value != "" && EndsWith(Lower(Stem(base)), Lower(ext.value)) ==> c == Stem(base))
  {
    var stem := Stem(base);
    if AppendsExtension(stem, ext) {
      LowerAppend(stem, ext.value);
      assert Lower(stem + ext.value)[|Lower(stem + ext.value)| - |Lower(ext.value)|..] == Lower(ext.value);
    }
  }

  /**
   * The synthesised name is never empty and holds only characters `isalnum` accepts and `._-`;
   * its ASCII characters are exactly the class `[A-Za-z0-9._-]`; a URL that cannot be parsed,
   * or whose path has no last segment, gives `downloaded_file`.
   */
  lemma FilenameWellFormed(url: string, contentType: Option<string>, rt: Runtime)
    ensures var name := SynthesizedFilename(url, contentType, rt);
      && name != []
      && (forall i :: 0 <= i < |name| ==> Kept(name[i], rt.nonAsciiAlnum))
      && (forall i :: 0 <= i < |name| && name[i] <= '\U{7F}' ==> PortableChar(name[i]))
      && (rt.urlPath(url).None? ==> name == Fallback)
      && (rt.urlPath(url).Some? && Basename(rt.urlPath(url).value) == "" ==> name == Fallback)
  {
    var name := SynthesizedFilename(url, contentType, rt);
    if rt.urlPath(url).None? {
      FallbackPortable();
    } else if Basename(rt.urlPath(url).value) == "" {
      FinishFallback(rt.nonAsciiAlnum);
    }
    forall i | 0 <= i < |name| && name[i] <= '\U{7F}' ensures PortableChar(name[i]) {
      assert Kept(name[i], rt.nonAsciiAlnum);
    }
  }

  /** No character of `[A-Za-z0-9._-]` is whitespace, so stripping never touches one. */
  lemma PortableNotSpace(c: char)
    requires PortableChar(c)
    ensures !IsSpace(c)
  {
  }

  /** `downloaded_file` passes through sanitising and stripping unchanged. */
  lemma FinishFallback(nonAsciiAlnum: char -> bool)
    ensures Finish(Fallback, nonAsciiAlnum) == Fallback
  {
    FallbackPortable();
    assert forall i :: 0 <= i < |Fallback| ==> Kept(Fallback[i], nonAsciiAlnum);
    SanitizeIdentity(Fallback, nonAsciiAlnum);
    var f := Fallback;
    PortableNotSpace(f[0]);
    PortableNotSpace(f[|f| - 1]);
    assert StripLeading(f) == f;
    assert StripTrailing(f) == f;
  }

  /**
   * Whenever sanitising leaves a name with no whitespace at either end, that name is offered: the
   * filtered stem plus the filtered extension when the extension is appended, the filtered stem
   * otherwise. A non-empty candidate made of `[A-Za-z0-9._-]` is offered as it is.
   */
  lemma CleanCandidateOffered(url: string, contentType: Option<string>, rt: Runtime)
    requires rt.urlPath(url).Some? && Basename(rt.urlPath(url).value) != ""
    requires var s := Sanitize(Candidate(Basename(rt.urlPath(url).value), rt.guessExtension(contentType.GetOr(DefaultContentType))), rt.nonAsciiAlnum);
      s != [] && !IsSpace(s[0]) && !IsSpace(s[|s| - 1])
    ensures var base := Basename(rt.urlPath(url).value);
      var ext := rt.guessExtension(contentType.GetOr(DefaultContentType));
      var name := SynthesizedFilename(url, contentType, rt);
      var f := rt.nonAsciiAlnum;
      && name == Sanitize(Candidate(base, ext), f)
      && (AppendsExtension(Stem(base), ext) ==> name == Sanitize(Stem(base), f) + Sanitize(ext.value, f))
      && (!AppendsExtension(Stem(base), ext) ==> name == Sanitize(Stem(base), f))
      && ((forall i :: 0 <= i < |Candidate(base, ext)| ==> PortableChar(Candidate(base, ext)[i])) ==> name == Candidate(base, ext))
  {
    var base := Basename(rt.urlPath(url).value);
    var ext := rt.guessExtension(contentType.GetOr(DefaultContentType));
    var f := rt.nonAsciiAlnum;
    var c := Candidate(base, ext);
    assert SynthesizedFilename(url, contentType, rt) == Finish(c, f);
    if AppendsExtension(Stem(base), ext) {
      SanitizeAppend(Stem(base), ext.value, f);
    }
    if forall i :: 0 <= i < |c| ==> PortableChar(c[i]) {
      SanitizeIdentity(c, f);
    }
  }
}
