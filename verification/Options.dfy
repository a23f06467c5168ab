/** The absent-or-present value shared by every module. */
module Options {
  datatype Option<+T> = None | Some(value: T)
}

/** Text as `String.prototype.trim` sees it. */
module Text {
  predicate WhiteSpace(c: char) {
    || '\t' <= c <= '\r' || c == ' ' || c == '\U{00A0}' || c == '\U{1680}' || '\U{2000}' <= c <= '\U{200A}'
    || c == '\U{2028}' || c == '\U{2029}' || c == '\U{202F}' || c == '\U{205F}' || c == '\U{3000}' || c == '\U{FEFF}'
  }

  /** `!text.trim()`. */
  predicate Blank(text: string) {
    forall i :: 0 <= i < |text| ==> WhiteSpace(text[i])
  }
}
