/** One slot of the masked word, or one missed guess: either empty (a placeholder
    whose letter is null) or holding one letter. */
module LetterStates {
  import opened Wrappers

  /** A Unicode code point, as `String.codePointAt` yields it. */
  type CodePoint = c: int | 0 <= c <= 0x10FFFF

  /** A string, as the sequence of its code points (one code point per position). */
  type Text = seq<CodePoint>

  /** Converts a Dafny string literal to the code points it spells. */
  function Str(s: string): (t: Text)
    ensures |t| == |s|
    ensures forall i :: 0 <= i < |s| ==> t[i] == s[i] as int
  {
    if s == [] then [] else [s[0] as int] + Str(s[1..])
  }

  /** The letter is `None` for a placeholder; `letter` is also the getter `getLetter`,
      which returns the constructor argument unchanged. */
  datatype LetterState = LetterState(letter: Option<CodePoint>)
  {
    /** `isForLetter`: both letters are absent, or both are the same letter. */
    predicate IsForLetter(other: Option<CodePoint>)
      ensures IsForLetter(other) <==>
                (letter.None? && other.None?) ||
                (letter.Some? && other.Some? && letter.value == other.value)
      ensures other.Some? && IsForLetter(other) ==> letter.Some?
    {
      letter == other
    }

    /** `isFilled`: the slot holds a letter; equivalently it does not match the absent letter. */
    predicate IsFilled()
      ensures IsFilled() <==> !IsForLetter(None)
    {
      letter.Some?
    }
  }

  /** `EMPTY_STATE`, and what the no-argument constructor builds. */
  const EmptyState: LetterState := LetterState(None)

  /** `fromCodePoint`: the filled state for the one-code-point string of `c`. */
  function FromCodePoint(c: CodePoint): (r: LetterState)
    ensures r.IsFilled() && r.letter == Some(c)
    ensures r.IsForLetter(Some(c))
    ensures forall d: CodePoint :: d != c ==> !r.IsForLetter(Some(d))
  {
    LetterState(Some(c))
  }

  /** The placeholder is not filled and matches no real letter. */
  lemma EmptyStateMatchesNoLetter(c: CodePoint)
    ensures !EmptyState.IsFilled()
    ensures !EmptyState.IsForLetter(Some(c))
    ensures EmptyState.IsForLetter(None)
  {
  }
}
