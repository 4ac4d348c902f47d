/** The white space of JavaScript: what `\s` matches and `trim` removes. */
module WhiteSpace {
  predicate IsSpace(c: char) {
    '\t' <= c <= '\r' || c == ' ' || c == '\U{A0}' || c == '\U{1680}' || '\U{2000}' <= c <= '\U{200A}'
    || c == '\U{2028}' || c == '\U{2029}' || c == '\U{202F}' || c == '\U{205F}' || c == '\U{3000}' || c == '\U{FEFF}'
  }

  /** Nothing but white space: what `trim` empties. */
  predicate Blank(text: string) {
    forall i :: 0 <= i < |text| ==> IsSpace(text[i])
  }

  /** In ASCII: tab, line feed, vertical tab, form feed, carriage return and the space. */
  lemma SpacesOfAscii(c: char)
    requires c < '\U{80}'
    ensures IsSpace(c) <==> c in ['\t', '\n', '\U{B}', '\U{C}', '\r', ' ']
  {
  }
}
