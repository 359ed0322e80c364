/**
 * The parts of the .NET base library whose behaviour the bot relies on but
 * whose tables and algorithms are not modelled: case-insensitive ordinal
 * comparison, the white-space test on a `char`, `double.TryParse`, `double`
 * addition and the rendering of a `double` into text. They are fields of a
 * `Library` value that the bot's functions take as a parameter, so every
 * result holds for any behaviour of these operations; `Valid` lists the few
 * facts about them that some results need.
 */
module DotNet {
  import opened Utf16

  datatype Option<+T> = None | Some(value: T)

  /** The library operations the bot calls; `N` stands for `double`. */
  datatype Library<!N> = Library(
    /** `a.Equals(b, StringComparison.OrdinalIgnoreCase)` */
    equalsIgnoreCase: (Text, Text) -> bool,
    /** `char.IsWhiteSpace(c)` */
    isWhiteSpace: CodeUnit -> bool,
    /** `double.TryParse(s, out var num)`: `Some(num)` when it returns true */
    tryParse: Text -> Option<N>,
    /** the `double` value 0 */
    zero: N,
    /** `double` addition */
    add: (N, N) -> N,
    /** the text `$"{sum}"` gives for a `double` */
    format: N -> Text)
  {
    /** `string.IsNullOrWhiteSpace(t)` for a text that is not null: every
        code unit is white space (so the empty text is blank). */
    predicate IsNullOrWhiteSpace(t: Text) {
      forall i :: 0 <= i < |t| ==> isWhiteSpace(t[i])
    }

    /** Facts the .NET library guarantees and some results rely on:
        - equality ignoring case is reflexive and symmetric;
        - texts equal ignoring case have the same length, and where one
          holds white space the other holds the same character (white space
          has no case, and no character changes case into white space);
        - the space U+0020 is white space;
        - no printable ASCII character other than the space (U+0021 to
          U+007E) and no character of the Cyrillic block (U+0400 to
          U+04FF) is white space. */
    ghost predicate Valid() {
      && (forall t :: equalsIgnoreCase(t, t))
      && (forall a, b :: equalsIgnoreCase(a, b) ==> equalsIgnoreCase(b, a))
      && (forall a, b :: equalsIgnoreCase(a, b) ==> |a| == |b|)
      && (forall a, b, i :: equalsIgnoreCase(a, b) && 0 <= i < |a| && i < |b| && isWhiteSpace(a[i]) ==>
            b[i] == a[i])
      && isWhiteSpace(Space)
      && (forall c: CodeUnit :: (0x21 <= c <= 0x7E || 0x400 <= c <= 0x4FF) ==> !isWhiteSpace(c))
    }
  }
}
