/** The visible state of a hangman game: the masked word, the missed guesses and the
    number of wrong guesses left. A play state is an immutable value: `Build` derives
    one from the guesses and the word, and `RecordGuess` produces a successor without
    touching the state it starts from. */
module PlayStates {
  import opened Wrappers
  import opened LetterStates
  import opened GuessResults

  /** The fields of the Java class; `codePointToWordLocations` is kept so that a guess
      can be applied without the word. The destructors are the getters. */
  datatype PlayState = PlayState(
    remainingWrongGuesses: int,
    missedGuesses: seq<LetterState>,
    maskedWord: seq<LetterState>,
    codePointToWordLocations: map<CodePoint, seq<nat>>)

  // ----- specification functions for `build` -----

  /** The positions at which `c` occurs in `word`, in ascending order (see `IndicesOfSpec`). */
  function IndicesOf(word: Text, c: CodePoint): seq<nat>
    decreases |word|
  {
    if word == [] then []
    else IndicesOf(word[..|word| - 1], c) + (if word[|word| - 1] == c then [|word| - 1] else [])
  }

  /** `IndicesOf` lists exactly the positions of `c`, each once, in ascending order. */
  lemma {:induction false} IndicesOfSpec(word: Text, c: CodePoint)
    ensures forall k :: 0 <= k < |IndicesOf(word, c)| ==>
              IndicesOf(word, c)[k] < |word| && word[IndicesOf(word, c)[k]] == c
    ensures forall i :: 0 <= i < |word| && word[i] == c ==> i in IndicesOf(word, c)
    ensures forall k, m :: 0 <= k < m < |IndicesOf(word, c)| ==> IndicesOf(word, c)[k] < IndicesOf(word, c)[m]
    decreases |word|
  {
    if word != [] {
      var front := word[..|word| - 1];
      IndicesOfSpec(front, c);
      var r := IndicesOf(word, c);
      var rf := IndicesOf(front, c);
      assert r == rf + (if word[|word| - 1] == c then [|word| - 1] else []);
      forall i | 0 <= i < |word| && word[i] == c
        ensures i in r
      {
        if i < |word| - 1 {
          assert front[i] == c;
        }
      }
    }
  }

  /** The code point to positions map: one entry per letter of the word. */
  function WordIndex(word: Text): map<CodePoint, seq<nat>>
  {
    map c | c in word :: IndicesOf(word, c)
  }

  /** The masked word: a position shows its letter exactly when that letter was guessed. */
  function Mask(guessed: set<CodePoint>, word: Text): seq<LetterState>
  {
    seq(|word|, i requires 0 <= i < |word| => if word[i] in guessed then FromCodePoint(word[i]) else EmptyState)
  }

  /** The filled letter states for a sequence of code points, in the same order. */
  function Letters(cs: seq<CodePoint>): seq<LetterState>
  {
    seq(|cs|, k requires 0 <= k < |cs| => FromCodePoint(cs[k]))
  }

  /** The least element of a non-empty set of code points. */
  ghost function Least(s: set<CodePoint>): (m: CodePoint)
    requires s != {}
    ensures m in s && forall x :: x in s ==> m <= x
  {
    var x :| x in s;
    if s == {x} then
      assert forall z :: z in s ==> z == x;
      x
    else
      var rest := s - {x};
      var y := Least(rest);
      assert forall z :: z in s ==> z == x || z in rest;
      if x < y then x else y
  }

  /** The elements of `s` in ascending order: the iteration order of a `TreeSet`. */
  ghost function Ascending(s: set<CodePoint>): seq<CodePoint>
    decreases |s|
  {
    if s == {} then []
    else
      var m := Least(s);
      [m] + Ascending(s - {m})
  }

  /** `Ascending` lists exactly the elements of the set, as many as the set has. */
  lemma {:induction false} AscendingElements(s: set<CodePoint>)
    ensures |Ascending(s)| == |s|
    ensures forall k :: 0 <= k < |Ascending(s)| ==> Ascending(s)[k] in s
    ensures forall x :: x in s ==> x in Ascending(s)
    decreases |s|
  {
    if s != {} {
      var m := Least(s);
      var rest := s - {m};
      AscendingElements(rest);
      var r := Ascending(s);
      var rr := Ascending(rest);
      assert r == [m] + rr;
      forall k | 0 <= k < |r|
        ensures r[k] in s
      {
        if k > 0 { assert r[k] == rr[k - 1]; }
      }
      forall x | x in s
        ensures x in r
      {
        if x != m { assert x in rest; assert x in rr; }
      }
    }
  }

  /** `Ascending` is strictly increasing, so it holds no element twice. */
  lemma {:induction false} AscendingSorted(s: set<CodePoint>)
    ensures forall k, m :: 0 <= k < m < |Ascending(s)| ==> Ascending(s)[k] < Ascending(s)[m]
    decreases |s|
  {
    if s != {} {
      var m := Least(s);
      var rest := s - {m};
      AscendingSorted(rest);
      AscendingElements(rest);
      var r := Ascending(s);
      var rr := Ascending(rest);
      assert r == [m] + rr;
      forall k, j | 0 <= k < j < |r|
        ensures r[k] < r[j]
      {
        assert r[j] == rr[j - 1] && rr[j - 1] in rest;
        if k > 0 { assert r[k] == rr[k - 1]; }
      }
    }
  }

  /** The distinct guessed code points that do not occur in the word. */
  ghost function MissedSet(guesses: seq<CodePoint>, word: Text): set<CodePoint>
  {
    set g | g in guesses && g !in word
  }

  /** The state `build` derives, stated without its loop. */
  ghost function Derive(maxWrongGuesses: int, guesses: seq<CodePoint>, word: Text): PlayState
  {
    var missed := MissedSet(guesses, word);
    PlayState(maxWrongGuesses - |missed|,
              Letters(Ascending(missed)),
              Mask((set g | g in guesses), word),
              WordIndex(word))
  }

  // ----- build -----

  /** Appending one letter to the word appends its position to that letter's list. */
  lemma WordIndexExtend(word: Text, c: CodePoint)
    ensures WordIndex(word + [c]) ==
            WordIndex(word)[c := (if c in WordIndex(word) then WordIndex(word)[c] else []) + [|word|]]
  {
    var w' := word + [c];
    var before := WordIndex(word);
    var after := WordIndex(w');
    var expected := before[c := (if c in before then before[c] else []) + [|word|]];
    assert w'[..|w'| - 1] == word;
    assert forall d :: d in w' <==> d in word || d == c;
    assert after.Keys == expected.Keys;
    forall d | d in after
      ensures after[d] == expected[d]
    {
      assert after[d] == IndicesOf(word, d) + (if c == d then [|word|] else []);
      if d == c && c !in word {
        IndicesOfAbsent(word, c);
      }
    }
  }

  /** A code point the word does not hold has no positions. */
  lemma {:induction false} IndicesOfAbsent(word: Text, c: CodePoint)
    requires c !in word
    ensures IndicesOf(word, c) == []
    decreases |word|
  {
    if word != [] {
      var prefix := word[..|word| - 1];
      assert forall d :: d in prefix ==> d in word;
      IndicesOfAbsent(prefix, c);
    }
  }

  /** `build`'s walk over the word: the TreeSet of guessed code points, the masked word,
      the location map and the TreeSet of misses, then the misses in ascending order. */
  method Build(maxWrongGuesses: int, guesses: seq<CodePoint>, wordBeingGuessed: Text) returns (s: PlayState)
    ensures s == Derive(maxWrongGuesses, guesses, wordBeingGuessed)
  {
    var guessLetterCodePoints := set g | g in guesses;
    var missedGuesses := guessLetterCodePoints;
    var maskedWord: seq<LetterState> := [];
    var codePointToWordLocations: map<CodePoint, seq<nat>> := map[];
    var i := 0;
    while i < |wordBeingGuessed|
      invariant 0 <= i <= |wordBeingGuessed|
      invariant maskedWord == Mask(guessLetterCodePoints, wordBeingGuessed[..i])
      invariant codePointToWordLocations == WordIndex(wordBeingGuessed[..i])
      invariant missedGuesses == set g | g in guessLetterCodePoints && g !in wordBeingGuessed[..i]
    {
      var codePoint := wordBeingGuessed[i];
      var locations := if codePoint in codePointToWordLocations then codePointToWordLocations[codePoint] else [];
      WordIndexExtend(wordBeingGuessed[..i], codePoint);
      assert wordBeingGuessed[..i + 1] == wordBeingGuessed[..i] + [codePoint];
      codePointToWordLocations := codePointToWordLocations[codePoint := locations + [i]];
      if codePoint in guessLetterCodePoints {
        maskedWord := maskedWord + [FromCodePoint(codePoint)];
        missedGuesses := missedGuesses - {codePoint};
      } else {
        maskedWord := maskedWord + [EmptyState];
      }
      i := i + 1;
    }
    assert wordBeingGuessed[..i] == wordBeingGuessed;
    assert missedGuesses == MissedSet(guesses, wordBeingGuessed);
    var remainingWrongGuesses := maxWrongGuesses - |missedGuesses|;
    var missedGuessLetterStates := AscendingLetters(missedGuesses);
    s := PlayState(remainingWrongGuesses, missedGuessLetterStates, maskedWord, codePointToWordLocations);
  }

  lemma LettersAppend(a: seq<CodePoint>, b: seq<CodePoint>)
    ensures Letters(a + b) == Letters(a) + Letters(b)
  {
  }

  /** Streams a `TreeSet` of code points into letter states, least code point first. */
  method AscendingLetters(s: set<CodePoint>) returns (r: seq<LetterState>)
    ensures r == Letters(Ascending(s))
  {
    r := [];
    var rest := s;
    assert r + Letters(Ascending(rest)) == Letters(Ascending(s)) by {
      assert r == [];
    }
    while rest != {}
      invariant rest <= s
      invariant r + Letters(Ascending(rest)) == Letters(Ascending(s))
      decreases |rest|
    {
      ghost var least := Least(rest);
      var m :| m in rest && forall x :: x in rest ==> m <= x;
      assert m == least;
      assert Ascending(rest) == [m] + Ascending(rest - {m});
      var tail := Letters(Ascending(rest - {m}));
      LettersAppend([m], Ascending(rest - {m}));
      assert Letters([m]) == [FromCodePoint(m)];
      assert Letters(Ascending(rest)) == [FromCodePoint(m)] + tail;
      assert (r + [FromCodePoint(m)]) + tail == r + ([FromCodePoint(m)] + tail);
      r := r + [FromCodePoint(m)];
      rest := rest - {m};
    }
  }

  // ----- recordGuess -----

  /** `includesLetter`: some entry of `letters` is for `letter`. */
  function IncludesLetter(letters: seq<LetterState>, letter: Option<CodePoint>): (b: bool)
    ensures b <==> exists k :: 0 <= k < |letters| && letters[k].IsForLetter(letter)
  {
    if letters == [] then false
    else letters[0].IsForLetter(letter) || IncludesLetter(letters[1..], letter)
  }

  /** The guessed letter is already shown in the masked word or listed as a miss. */
  predicate AlreadyGuessed(s: PlayState, letter: CodePoint)
  {
    (exists i :: 0 <= i < |s.maskedWord| && s.maskedWord[i] == FromCodePoint(letter)) ||
    (exists k :: 0 <= k < |s.missedGuesses| && s.missedGuesses[k] == FromCodePoint(letter))
  }

  /** Every position the location map gives for `letter` is a position of the masked
      word, as overwriting it in a list of that length requires. */
  predicate LocationsFit(s: PlayState, letter: CodePoint)
  {
    letter in s.codePointToWordLocations ==>
      forall k :: 0 <= k < |s.codePointToWordLocations[letter]| ==>
        s.codePointToWordLocations[letter][k] < |s.maskedWord|
  }

  /** `cloneWithExtraMiss`: one more miss at the end, one fewer wrong guess left. */
  function CloneWithExtraMiss(s: PlayState, newMiss: CodePoint): (r: PlayState)
    ensures r.remainingWrongGuesses + |r.missedGuesses| == s.remainingWrongGuesses + |s.missedGuesses|
    ensures |r.missedGuesses| == |s.missedGuesses| + 1
    ensures r.missedGuesses[..|s.missedGuesses|] == s.missedGuesses
    ensures r.missedGuesses[|s.missedGuesses|].IsForLetter(Some(newMiss))
    ensures r.maskedWord == s.maskedWord && r.codePointToWordLocations == s.codePointToWordLocations
  {
    s.(remainingWrongGuesses := s.remainingWrongGuesses - 1,
       missedGuesses := s.missedGuesses + [FromCodePoint(newMiss)])
  }

  /** The masked word with every position in `locations` overwritten by `letter`. */
  function FilledIn(maskedWord: seq<LetterState>, letter: CodePoint, locations: seq<nat>): seq<LetterState>
  {
    seq(|maskedWord|, i requires 0 <= i < |maskedWord| =>
      if i in locations then FromCodePoint(letter) else maskedWord[i])
  }

  /** `cloneWithHitFilledIn`: copies the masked word and overwrites the given positions. */
  method CloneWithHitFilledIn(s: PlayState, letter: CodePoint, codePointLocations: seq<nat>) returns (r: PlayState)
    requires forall k :: 0 <= k < |codePointLocations| ==> codePointLocations[k] < |s.maskedWord|
    ensures r == s.(maskedWord := FilledIn(s.maskedWord, letter, codePointLocations))
  {
    var newMaskedWord := s.maskedWord;
    for k := 0 to |codePointLocations|
      invariant newMaskedWord == FilledIn(s.maskedWord, letter, codePointLocations[..k])
    {
      assert codePointLocations[..k + 1] == codePointLocations[..k] + [codePointLocations[k]];
      newMaskedWord := newMaskedWord[codePointLocations[k] := FromCodePoint(letter)];
    }
    assert codePointLocations[..|codePointLocations|] == codePointLocations;
    r := s.(maskedWord := newMaskedWord);
  }

  /** What `recordGuess` returns: the guards in source order, then a miss or a match.
      Stated for every state; the method below also needs the letter's positions to lie
      inside the masked word, as writing into that list does. */
  function Guess(s: PlayState, guessedLetter: CodePoint): (r: GuessResult<PlayState>)
    ensures r.resultState == Repeat <==> AlreadyGuessed(s, guessedLetter)
    ensures r.resultState == TooManyWrongGuesses <==>
              !AlreadyGuessed(s, guessedLetter) && s.remainingWrongGuesses < 1
    ensures r.resultState == Miss <==>
              !AlreadyGuessed(s, guessedLetter) && s.remainingWrongGuesses >= 1 &&
              guessedLetter !in s.codePointToWordLocations
    ensures (r.resultState == Repeat || r.resultState == TooManyWrongGuesses) ==> r.playState == s
    ensures r.resultState == Miss ==>
              r.playState.missedGuesses == s.missedGuesses + [FromCodePoint(guessedLetter)] &&
              r.playState.remainingWrongGuesses == s.remainingWrongGuesses - 1 &&
              r.playState.maskedWord == s.maskedWord
    ensures r.resultState == Match ==>
              r.playState.missedGuesses == s.missedGuesses &&
              r.playState.remainingWrongGuesses == s.remainingWrongGuesses &&
              |r.playState.maskedWord| == |s.maskedWord| &&
              forall i :: 0 <= i < |s.maskedWord| ==>
                r.playState.maskedWord[i] ==
                  if i in s.codePointToWordLocations[guessedLetter] then FromCodePoint(guessedLetter)
                  else s.maskedWord[i]
    ensures r.playState.codePointToWordLocations == s.codePointToWordLocations
    ensures s.remainingWrongGuesses >= 0 ==> r.playState.remainingWrongGuesses >= 0
  {
    if IncludesLetter(s.maskedWord, Some(guessedLetter)) || IncludesLetter(s.missedGuesses, Some(guessedLetter)) then
      GuessResult(Repeat, s)
    else if s.remainingWrongGuesses < 1 then
      GuessResult(TooManyWrongGuesses, s)
    else if guessedLetter !in s.codePointToWordLocations then
      GuessResult(Miss, CloneWithExtraMiss(s, guessedLetter))
    else
      GuessResult(Match, s.(maskedWord := FilledIn(s.maskedWord, guessedLetter, s.codePointToWordLocations[guessedLetter])))
  }

  /** `recordGuess`: classifies the guess and builds the successor state. */
  method RecordGuess(s: PlayState, guessedLetter: CodePoint) returns (r: GuessResult<PlayState>)
    requires LocationsFit(s, guessedLetter)
    ensures r == Guess(s, guessedLetter)
  {
    var alreadyGuessed := IncludesLetter(s.maskedWord, Some(guessedLetter)) ||
                          IncludesLetter(s.missedGuesses, Some(guessedLetter));
    if alreadyGuessed {
      return GuessResult(Repeat, s);
    } else if s.remainingWrongGuesses < 1 {
      return GuessResult(TooManyWrongGuesses, s);
    }
    if guessedLetter !in s.codePointToWordLocations {
      return GuessResult(Miss, CloneWithExtraMiss(s, guessedLetter));
    } else {
      var next := CloneWithHitFilledIn(s, guessedLetter, s.codePointToWordLocations[guessedLetter]);
      return GuessResult(Match, next);
    }
  }
}
