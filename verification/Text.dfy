/** Small helpers on text that several modules share. */
module Text {

  datatype Option<+T> = None | Some(value: T)

  /** The characters that Rust's `str::trim` removes (Unicode White_Space). */
  const WHITE_SPACE: set<char> := {
    '\t', '\n', '\U{0B}', '\U{0C}', '\r', ' ', '\U{85}', '\U{A0}', '\U{1680}',
    '\U{2000}', '\U{2001}', '\U{2002}', '\U{2003}', '\U{2004}', '\U{2005}', '\U{2006}',
    '\U{2007}', '\U{2008}', '\U{2009}', '\U{200A}', '\U{2028}', '\U{2029}', '\U{202F}',
    '\U{205F}', '\U{3000}' }

  /** `text.trim().is_empty()` in Rust. */
  predicate Blank(text: string) {
    forall i :: 0 <= i < |text| ==> text[i] in WHITE_SPACE
  }

  /** `trim(text) = ''` in SQLite, which removes spaces only. */
  predicate SqlBlank(text: string) {
    forall i :: 0 <= i < |text| ==> text[i] == ' '
  }
}
