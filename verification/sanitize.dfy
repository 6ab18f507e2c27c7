/** Filename sanitisation (utils.py, `sanitize_filename`). */
module Sanitize {
  import PyStr

  /** The characters a saved transcript's file name may not contain. */
  const INVALID_CHARS: string := "<>:\"/\\|?*"

  /** The character written in place of an invalid one. */
  const REPLACEMENT: char := '_'

  predicate IsInvalid(c: char) {
    c in INVALID_CHARS
  }

  /** The sanitised form of one character. */
  function SanitizedChar(c: char): (d: char)
    ensures !IsInvalid(d)
    ensures d == c || d == REPLACEMENT
  {
    if IsInvalid(c) then REPLACEMENT else c
  }

  /** The sanitised name, character by character. */
  function Sanitized(name: string): (r: string)
    ensures |r| == |name|
    ensures forall i :: 0 <= i < |name| ==> r[i] == SanitizedChar(name[i])
  {
    if name == [] then [] else [SanitizedChar(name[0])] + Sanitized(name[1..])
  }

  /** `sanitize_filename`: one `replace` pass per invalid character. */
  method SanitizeFilename(filename: string) returns (r: string)
    ensures r == Sanitized(filename)
  {
    r := filename;
    for k := 0 to |INVALID_CHARS|
      invariant |r| == |filename|
      invariant forall i :: 0 <= i < |r| ==>
        r[i] == (if filename[i] in INVALID_CHARS[..k] then REPLACEMENT else filename[i])
    {
      r := PyStr.Replace(r, INVALID_CHARS[k], REPLACEMENT);
    }
    assert INVALID_CHARS[..|INVALID_CHARS|] == INVALID_CHARS;
  }

  /** The result keeps the length, holds no invalid character, and leaves
      every valid character where it was. */
  lemma SanitizedProperties(name: string)
    ensures |Sanitized(name)| == |name|
    ensures forall i :: 0 <= i < |name| ==> !IsInvalid(Sanitized(name)[i])
    ensures forall i :: 0 <= i < |name| && !IsInvalid(name[i]) ==> Sanitized(name)[i] == name[i]
    ensures forall i :: 0 <= i < |name| && IsInvalid(name[i]) ==> Sanitized(name)[i] == REPLACEMENT
  {
  }

  /** A name without invalid characters is left as it is. */
  lemma SanitizedFixesValidNames(name: string)
    requires forall i :: 0 <= i < |name| ==> !IsInvalid(name[i])
    ensures Sanitized(name) == name
  {
  }

  /** Sanitising twice is sanitising once. */
  lemma SanitizedIdempotent(name: string)
    ensures Sanitized(Sanitized(name)) == Sanitized(name)
  {
    SanitizedFixesValidNames(Sanitized(name));
  }
}
