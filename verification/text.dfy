/**
 * The two predicates of the .NET base library on which the request's argument
 * checks rest: `char.IsWhiteSpace` and `string.IsNullOrWhiteSpace`.
 */
module Text {
  import opened Wrappers

  /** A .NET `string` reference, which may be `null` (`None`). */
  type NullableString = Option<string>

  /**
   * `char.IsWhiteSpace`: the Unicode space, line and paragraph separators
   * (categories Zs, Zl, Zp) together with U+0009..U+000D and U+0085.
   */
  predicate IsWhiteSpace(c: char) {
    var n := c as int;
    || (0x09 <= n <= 0x0D)
    || n == 0x20
    || n == 0x85
    || n == 0xA0
    || n == 0x1680
    || (0x2000 <= n <= 0x200A)
    || n == 0x2028
    || n == 0x2029
    || n == 0x202F
    || n == 0x205F
    || n == 0x3000
  }

  /** `string.IsNullOrWhiteSpace`: null, empty, or made only of white-space characters. */
  predicate IsNullOrWhiteSpace(s: NullableString) {
    || s.None?
    || forall i | 0 <= i < |s.value| :: IsWhiteSpace(s.value[i])
  }
}
