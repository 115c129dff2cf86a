/**
 * The fragment of JavaScript regular expressions the project uses: an
 * anchored sequence of character classes, each repeated a fixed number of
 * times, such as `^[A-Z]{2}\d{3}$`. Without the `u` flag, `\d` is the ten
 * ASCII digits and `[A-Z]` the 26 ASCII capital letters.
 */
module Pattern {

  datatype CharClass =
    | AsciiUpper   // [A-Z]
    | AsciiDigit   // \d

  /** `cls{count}`: exactly `count` characters of the class. */
  datatype Atom = Repeat(cls: CharClass, count: nat)

  predicate InClass(cls: CharClass, c: char)
  {
    match cls
    case AsciiUpper => 'A' <= c <= 'Z'
    case AsciiDigit => '0' <= c <= '9'
  }

  /** `s` matches `^atoms$` as a whole. */
  predicate FullMatch(atoms: seq<Atom>, s: string)
    decreases |atoms|
  {
    if atoms == [] then s == []
    else
      var n := atoms[0].count;
      && n <= |s|
      && (forall i :: 0 <= i < n ==> InClass(atoms[0].cls, s[i]))
      && FullMatch(atoms[1..], s[n..])
  }

  /** The length of every string that `atoms` matches. */
  function MatchLength(atoms: seq<Atom>): nat
  {
    if atoms == [] then 0 else atoms[0].count + MatchLength(atoms[1..])
  }

  /** A full match has exactly the length the pattern fixes. */
  lemma {:induction false} FullMatchLength(atoms: seq<Atom>, s: string)
    requires FullMatch(atoms, s)
    ensures |s| == MatchLength(atoms)
  {
    if atoms != [] {
      FullMatchLength(atoms[1..], s[atoms[0].count..]);
    }
  }
}
