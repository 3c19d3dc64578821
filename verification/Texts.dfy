/** White space and letters of names, as the source's `trim` and its case-blind patterns see them. */
module Texts {

  /** The white space that `String.prototype.trim` removes. */
  predicate IsSpace(c: char) {
    || '\t' <= c <= '\r'
    || c in {' ', '\U{A0}', '\U{1680}', '\U{2028}', '\U{2029}', '\U{202F}', '\U{205F}', '\U{3000}', '\U{FEFF}'}
    || '\U{2000}' <= c <= '\U{200A}'
  }

  function TrimLeft(text: string): (t: string)
    ensures t == [] || !IsSpace(t[0])
    ensures text == [] || !IsSpace(text[0]) ==> t == text
  {
    if text == [] || !IsSpace(text[0]) then text else TrimLeft(text[1..])
  }

  function TrimRight(text: string): (t: string)
    ensures t <= text
    ensures t == [] || !IsSpace(t[|t| - 1])
    ensures text == [] || !IsSpace(text[|text| - 1]) ==> t == text
  {
    if text == [] || !IsSpace(text[|text| - 1]) then text else TrimRight(text[..|text| - 1])
  }

  function Trim(text: string): string {
    TrimRight(TrimLeft(text))
  }

  /** Nothing to trim at either end. */
  predicate Trimmed(text: string) {
    text == [] || (!IsSpace(text[0]) && !IsSpace(text[|text| - 1]))
  }

  /** Trimming leaves nothing to trim, and a trimmed text as it is. */
  lemma TrimTrims(text: string)
    ensures Trimmed(Trim(text))
    ensures Trimmed(text) ==> Trim(text) == text
  {
  }

  function Upper(c: char): char {
    if 'a' <= c <= 'z' then c - 'a' + 'A' else c
  }

  /** `text` starts with the capital letters of `start`, in either case. */
  predicate StartsWith(text: string, start: string) {
    |start| <= |text| && forall i :: 0 <= i < |start| ==> Upper(text[i]) == start[i]
  }
}
