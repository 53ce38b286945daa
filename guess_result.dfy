/** The outcome of one guess, paired with the play state it leads to. */
module GuessResults {

  /** The four outcomes; there is no "won" outcome. */
  datatype GuessResultState = Match | Miss | TooManyWrongGuesses | Repeat

  /** An immutable (outcome, play state) pair; the destructors are the getters
      `getResultState` and `getPlayState`. The play-state type is a parameter so
      that this module does not depend on the play-state module. */
  datatype GuessResult<S> = GuessResult(resultState: GuessResultState, playState: S)
}
