/**
 * Text as .NET holds it: a sequence of UTF-16 code units. `string.Length`
 * counts code units, and `string.Split(char)`, `string.Contains(string)` and
 * `string.StartsWith(string)` are modelled here on that representation.
 */
module Utf16 {

  /** One UTF-16 code unit (a .NET `char`): an unsigned 16-bit value. */
  newtype CodeUnit = x: int | 0 <= x < 0x1_0000

  /** A .NET `string`. */
  type Text = seq<CodeUnit>

  /** The space character U+0020, the separator of `Split(' ')`. */
  const Space: CodeUnit := 0x20

  /** True if every character of `s` lies in the Basic Multilingual Plane,
      so that each one is a single UTF-16 code unit. */
  predicate InBmp(s: string) {
    forall i :: 0 <= i < |s| ==> s[i] as int < 0x1_0000
  }

  /** The UTF-16 form of a string of BMP characters, as a .NET string
      literal holds it: one code unit per character, holding the
      character's value. Used to write the bot's fixed texts. */
  function Units(s: string): (r: Text)
    requires InBmp(s)
    ensures |r| == |s|
    ensures forall i :: 0 <= i < |s| ==> r[i] as int == s[i] as int
  {
    seq(|s|, i requires 0 <= i < |s| => s[i] as int as CodeUnit)
  }

  /** `s.StartsWith(p)`, taken as plain code-unit prefix matching. */
  predicate StartsWith(s: Text, p: Text) {
    |p| <= |s| && s[..|p|] == p
  }

  /** `s.Contains(c)` for a single code unit. */
  predicate Contains(s: Text, c: CodeUnit) {
    c in s
  }

  /** Number of occurrences of `c` in `s`. */
  function Occurrences(s: Text, c: CodeUnit): (n: nat)
    ensures n <= |s|
    ensures n == 0 <==> !Contains(s, c)
  {
    if s == [] then 0
    else (if s[0] == c then 1 else 0) + Occurrences(s[1..], c)
  }

  lemma {:induction false} OccurrencesAppend(a: Text, b: Text, c: CodeUnit)
    ensures Occurrences(a + b, c) == Occurrences(a, c) + Occurrences(b, c)
  {
    if a != [] {
      assert (a + b)[0] == a[0] && (a + b)[1..] == a[1..] + b;
      OccurrencesAppend(a[1..], b, c);
    } else {
      assert a + b == b;
    }
  }

  /** `s.IndexOf(c)` for a text that holds `c`: the position of its first
      occurrence. */
  function IndexOf(s: Text, c: CodeUnit): (i: nat)
    requires Contains(s, c)
    ensures i < |s| && s[i] == c && !Contains(s[..i], c)
  {
    if s[0] == c then 0
    else
      assert Contains(s[1..], c) by { assert s == [s[0]] + s[1..]; }
      var j := IndexOf(s[1..], c);
      assert s[..j + 1] == [s[0]] + s[1..][..j];
      j + 1
  }

  /** A separator after a separator-free piece is the first one. */
  lemma IndexAfterPiece(t: Text, v: Text, c: CodeUnit)
    requires !Contains(t, c)
    ensures IndexOf(t + [c] + v, c) == |t|
  {
    var s := t + [c] + v;
    assert s[|t|] == c;
    assert forall j :: 0 <= j < |t| ==> s[j] == t[j];
    var i := IndexOf(s, c);
    assert i <= |t| ==> s[..i] == t[..i];
  }

  /** `s.Split(sep)` with no options: the pieces of `s` between occurrences of
      `sep`, empty pieces included. There is always one piece more than there
      are separators, and no piece holds a separator. */
  function Split(s: Text, sep: CodeUnit): (r: seq<Text>)
    ensures |r| == Occurrences(s, sep) + 1
    ensures forall k :: 0 <= k < |r| ==> !Contains(r[k], sep)
    decreases |s|
  {
    if !Contains(s, sep) then [s]
    else
      var i := IndexOf(s, sep);
      assert s == s[..i] + [sep] + s[i + 1..];
      OccurrencesAppend(s[..i] + [sep], s[i + 1..], sep);
      OccurrencesAppend(s[..i], [sep], sep);
      [s[..i]] + Split(s[i + 1..], sep)
  }

  /** `string.Join(sep, pieces)`: the pieces with one `sep` between
      neighbours. */
  function Join(pieces: seq<Text>, sep: CodeUnit): Text
  {
    if pieces == [] then []
    else if |pieces| == 1 then pieces[0]
    else pieces[0] + [sep] + Join(pieces[1..], sep)
  }

  /** Joining the pieces of a split gives back the text. */
  lemma {:induction false} JoinSplit(s: Text, sep: CodeUnit)
    ensures Join(Split(s, sep), sep) == s
    decreases |s|
  {
    if Contains(s, sep) {
      var i := IndexOf(s, sep);
      var rest := Split(s[i + 1..], sep);
      JoinSplit(s[i + 1..], sep);
      assert ([s[..i]] + rest)[1..] == rest;
      assert s == s[..i] + [sep] + s[i + 1..];
    }
  }

  /** Splitting the join of separator-free pieces gives back the pieces. */
  lemma {:induction false} SplitJoin(pieces: seq<Text>, sep: CodeUnit)
    requires pieces != []
    requires forall k :: 0 <= k < |pieces| ==> !Contains(pieces[k], sep)
    ensures Split(Join(pieces, sep), sep) == pieces
  {
    if |pieces| > 1 {
      var t, v := pieces[0], Join(pieces[1..], sep);
      var s := t + [sep] + v;
      assert Join(pieces, sep) == s;
      SplitJoin(pieces[1..], sep);
      IndexAfterPiece(t, v, sep);
      assert s[..|t|] == t && s[|t| + 1..] == v;
      assert Split(s, sep) == [t] + Split(v, sep);
      assert pieces == [t] + pieces[1..];
    }
  }
}
