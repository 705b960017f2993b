/** Text-direction helpers for SVG labels (src/utils/TextUtils.js). */
module TextUtils {

  /** A character of the Arabic block U+0600..U+06FF, which the source calls "Persian". */
  predicate IsPersianChar(c: char) {
    '\U{0600}' <= c <= '\U{06FF}'
  }

  /** `containsPersian`: the regular expression /[؀-ۿ]/ finds a match somewhere in the text. */
  predicate ContainsPersian(value: string) {
    exists i :: 0 <= i < |value| && IsPersianChar(value[i])
  }

  datatype Direction = Ltr | Rtl

  /** `getSvgTextDirection`: right-to-left exactly when the text holds an Arabic-block character. */
  function SvgTextDirection(value: string): (d: Direction)
    ensures d == Rtl <==> exists i :: 0 <= i < |value| && IsPersianChar(value[i])
  {
    if ContainsPersian(value) then Rtl else Ltr
  }

  /** `getSvgTextAnchor`: Arabic-block text mirrors a `start` anchor to `end`; anything else is kept. */
  function SvgTextAnchor(value: string, fallback: string := "start"): (anchor: string)
    ensures !ContainsPersian(value) ==> anchor == fallback
    ensures ContainsPersian(value) && fallback == "start" ==> anchor == "end"
    ensures ContainsPersian(value) && fallback != "start" ==> anchor == fallback
  {
    if ContainsPersian(value) then (if fallback == "start" then "end" else fallback) else fallback
  }

  /** The default argument '' contains no Arabic-block character, so it reads left to right. */
  lemma EmptyTextIsLtr()
    ensures !ContainsPersian("") && SvgTextDirection("") == Ltr && SvgTextAnchor("") == "start"
  {
  }

  /** Appending text never turns a right-to-left string back into a left-to-right one. */
  lemma {:induction false} PersianSurvivesConcat(a: string, b: string)
    requires ContainsPersian(a) || ContainsPersian(b)
    ensures ContainsPersian(a + b)
  {
    if ContainsPersian(a) {
      var i :| 0 <= i < |a| && IsPersianChar(a[i]);
      assert (a + b)[i] == a[i];
    } else {
      var i :| 0 <= i < |b| && IsPersianChar(b[i]);
      assert (a + b)[|a| + i] == b[i];
    }
  }
}
