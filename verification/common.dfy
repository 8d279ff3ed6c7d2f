/** Definitions shared by the page models. */
module Common {

  /** A value that may be absent: `null` in the source's React state. */
  datatype Option<+T> = None | Some(value: T)

  /** The class `\d` of a JavaScript regular expression: the ASCII digits only. */
  predicate IsAsciiDigit(c: char) {
    '0' <= c <= '9'
  }

  /** Every character of `s` is an ASCII digit. */
  predicate AllDigits(s: string) {
    forall i :: 0 <= i < |s| ==> IsAsciiDigit(s[i])
  }

  const Placeholder := "/placeholder.svg"

  /** `image || "/placeholder.svg"`: the image shown for a card; the empty string is falsy. */
  function ImageSrc(image: string): (src: string)
    ensures src != ""
    ensures src == image <==> image != ""
    ensures image == "" ==> src == Placeholder
  {
    if image != "" then image else Placeholder
  }

  /** No value occurs twice in `xs`. */
  predicate Distinct<T(==)>(xs: seq<T>) {
    forall i, j :: 0 <= i < j < |xs| ==> xs[i] != xs[j]
  }
}
