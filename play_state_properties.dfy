/** What the play-state model promises: the shape of the state `build` derives, the
    invariant every reachable state keeps, and the agreement between applying one
    guess to a derived state and deriving again with that guess added. */
module PlayStateProperties {
  import opened Wrappers
  import opened LetterStates
  import opened GuessResults
  import opened PlayStates

  // ----- the state build derives -----

  /** A letter state is in `Letters(cs)` exactly when it holds a code point of `cs`. */
  lemma LettersMembership(cs: seq<CodePoint>, e: LetterState)
    ensures e in Letters(cs) <==> e.letter.Some? && e.letter.value in cs
  {
    if e.letter.Some? && e.letter.value in cs {
      var k :| 0 <= k < |cs| && cs[k] == e.letter.value;
      assert Letters(cs)[k] == e;
    }
  }

  /** The masked word has the word's length, and position i shows word[i] exactly when
      that code point was guessed; otherwise it is the empty placeholder. */
  lemma BuildMaskedWord(maxWrongGuesses: int, guesses: seq<CodePoint>, word: Text)
    ensures |Derive(maxWrongGuesses, guesses, word).maskedWord| == |word|
    ensures forall i :: 0 <= i < |word| ==>
              var slot := Derive(maxWrongGuesses, guesses, word).maskedWord[i];
              (slot.IsFilled() <==> word[i] in guesses) &&
              (slot.IsFilled() ==> slot == FromCodePoint(word[i])) &&
              (!slot.IsFilled() ==> slot == EmptyState)
  {
  }

  /** The missed guesses are exactly the distinct guessed code points that do not occur
      in the word, each once, in ascending code-point order; the remaining count is the
      limit less their number, and may be negative. */
  lemma BuildMissedGuesses(maxWrongGuesses: int, guesses: seq<CodePoint>, word: Text)
    ensures var missed := Derive(maxWrongGuesses, guesses, word).missedGuesses;
      && (forall k :: 0 <= k < |missed| ==>
            missed[k].letter.Some? && missed[k].letter.value in guesses && missed[k].letter.value !in word)
      && (forall g :: g in guesses && g !in word ==> FromCodePoint(g) in missed)
      && (forall k, m :: 0 <= k < m < |missed| ==> missed[k].letter.value < missed[m].letter.value)
    ensures Derive(maxWrongGuesses, guesses, word).remainingWrongGuesses ==
            maxWrongGuesses - |Derive(maxWrongGuesses, guesses, word).missedGuesses|
  {
    var missedSet := MissedSet(guesses, word);
    var missed := Derive(maxWrongGuesses, guesses, word).missedGuesses;
    AscendingElements(missedSet);
    AscendingSorted(missedSet);
    forall g | g in guesses && g !in word
      ensures FromCodePoint(g) in missed
    {
      LettersMembership(Ascending(missedSet), FromCodePoint(g));
    }
  }

  /** With no guesses: every slot is empty, nothing is missed, the full limit remains. */
  lemma BuildWithNoGuesses(maxWrongGuesses: int, word: Text)
    ensures var s := Derive(maxWrongGuesses, [], word);
      && |s.maskedWord| == |word|
      && (forall i :: 0 <= i < |word| ==> s.maskedWord[i] == EmptyState)
      && s.missedGuesses == []
      && s.remainingWrongGuesses == maxWrongGuesses
  {
    assert MissedSet([], word) == {};
  }

  /** `build` sees only the set of guessed code points. */
  lemma BuildDependsOnlyOnGuessSet(maxWrongGuesses: int, guesses1: seq<CodePoint>, guesses2: seq<CodePoint>, word: Text)
    requires forall g :: g in guesses1 <==> g in guesses2
    ensures Derive(maxWrongGuesses, guesses1, word) == Derive(maxWrongGuesses, guesses2, word)
  {
    assert MissedSet(guesses1, word) == MissedSet(guesses2, word);
    assert (set g | g in guesses1) == (set g | g in guesses2);
  }

  /** Reordering the guesses does not change the derived state. */
  lemma BuildIgnoresGuessOrder(maxWrongGuesses: int, guesses1: seq<CodePoint>, guesses2: seq<CodePoint>, word: Text)
    requires multiset(guesses1) == multiset(guesses2)
    ensures Derive(maxWrongGuesses, guesses1, word) == Derive(maxWrongGuesses, guesses2, word)
  {
    forall g ensures g in guesses1 <==> g in guesses2 {
      assert g in guesses1 <==> g in multiset(guesses1);
      assert g in guesses2 <==> g in multiset(guesses2);
    }
    BuildDependsOnlyOnGuessSet(maxWrongGuesses, guesses1, guesses2, word);
  }

  /** Repeating a guess does not change the derived state. */
  lemma BuildIgnoresRepeatedGuess(maxWrongGuesses: int, guesses: seq<CodePoint>, g: CodePoint, word: Text)
    requires g in guesses
    ensures Derive(maxWrongGuesses, guesses + [g], word) == Derive(maxWrongGuesses, guesses, word)
  {
    BuildDependsOnlyOnGuessSet(maxWrongGuesses, guesses + [g], guesses, word);
  }

  /** Adding guesses never raises the number of wrong guesses left. */
  lemma MoreGuessesNeverRaiseRemaining(maxWrongGuesses: int, guesses: seq<CodePoint>, more: seq<CodePoint>, word: Text)
    ensures Derive(maxWrongGuesses, guesses + more, word).remainingWrongGuesses <=
            Derive(maxWrongGuesses, guesses, word).remainingWrongGuesses
  {
    var small := MissedSet(guesses, word);
    var large := MissedSet(guesses + more, word);
    assert small <= large;
    assert large == small + (large - small);
  }

  // ----- the invariant of reachable states -----

  /** What holds of every state of a game with this limit and word: the masked word
      has the word's length and shows, at each position, nothing or that position's
      letter, and all positions of one letter alike; the misses are distinct letters
      absent from the word; the remaining count is the limit less the misses; the
      location map is that of the word. */
  ghost predicate Consistent(s: PlayState, maxWrongGuesses: int, word: Text)
  {
    && |s.maskedWord| == |word|
    && (forall i :: 0 <= i < |word| ==>
          s.maskedWord[i] == EmptyState || s.maskedWord[i] == FromCodePoint(word[i]))
    && (forall i, j :: 0 <= i < |word| && 0 <= j < |word| && word[i] == word[j] ==>
          s.maskedWord[i] == s.maskedWord[j])
    && (forall k :: 0 <= k < |s.missedGuesses| ==>
          s.missedGuesses[k].letter.Some? && s.missedGuesses[k].letter.value !in word)
    && (forall k, m :: 0 <= k < m < |s.missedGuesses| ==> s.missedGuesses[k] != s.missedGuesses[m])
    && s.remainingWrongGuesses == maxWrongGuesses - |s.missedGuesses|
    && s.codePointToWordLocations == WordIndex(word)
  }

  /** A consistent state never lists a letter both as shown and as missed. */
  lemma ConsistentMissesDisjointFromMask(s: PlayState, maxWrongGuesses: int, word: Text, c: CodePoint)
    requires Consistent(s, maxWrongGuesses, word)
    ensures !(FromCodePoint(c) in s.maskedWord && FromCodePoint(c) in s.missedGuesses)
  {
    if FromCodePoint(c) in s.maskedWord {
      var i :| 0 <= i < |s.maskedWord| && s.maskedWord[i] == FromCodePoint(c);
      assert word[i] == c;
    }
  }

  /** In a consistent state the location map only gives positions of the masked word,
      so `RecordGuess` can be called with any letter. */
  lemma ConsistentLocationsFit(s: PlayState, maxWrongGuesses: int, word: Text, g: CodePoint)
    requires Consistent(s, maxWrongGuesses, word)
    ensures LocationsFit(s, g)
  {
    IndicesOfSpec(word, g);
  }

  /** Every state `build` derives is consistent. */
  lemma BuildConsistent(maxWrongGuesses: int, guesses: seq<CodePoint>, word: Text)
    ensures Consistent(Derive(maxWrongGuesses, guesses, word), maxWrongGuesses, word)
  {
    var missedSet := MissedSet(guesses, word);
    AscendingElements(missedSet);
    AscendingSorted(missedSet);
    var missed := Derive(maxWrongGuesses, guesses, word).missedGuesses;
    forall k, m | 0 <= k < m < |missed|
      ensures missed[k] != missed[m]
    {
      assert missed[k].letter.value < missed[m].letter.value;
    }
  }

  /** `recordGuess` keeps a state consistent, whatever the outcome. */
  lemma GuessPreservesConsistent(s: PlayState, maxWrongGuesses: int, word: Text, g: CodePoint)
    requires Consistent(s, maxWrongGuesses, word)
    ensures Consistent(Guess(s, g).playState, maxWrongGuesses, word)
  {
    var r := Guess(s, g);
    if r.resultState == Miss {
      assert g !in WordIndex(word);
      assert g !in word;
      var missed := r.playState.missedGuesses;
      forall k, m | 0 <= k < m < |missed|
        ensures missed[k] != missed[m]
      {
        if m == |s.missedGuesses| {
          assert missed[k] == s.missedGuesses[k];
          assert s.missedGuesses[k] != FromCodePoint(g);
        }
      }
    } else if r.resultState == Match {
      IndicesOfSpec(word, g);
      assert s.codePointToWordLocations[g] == IndicesOf(word, g);
      forall i | 0 <= i < |word|
        ensures r.playState.maskedWord[i] == if word[i] == g then FromCodePoint(g) else s.maskedWord[i]
      {
      }
    }
  }

  // ----- one guess against a rebuild -----

  /** On a derived state, a guess is a repeat exactly when that code point was guessed
      before. */
  lemma RepeatIffGuessed(maxWrongGuesses: int, guesses: seq<CodePoint>, word: Text, g: CodePoint)
    ensures Guess(Derive(maxWrongGuesses, guesses, word), g).resultState == Repeat <==> g in guesses
  {
    var s := Derive(maxWrongGuesses, guesses, word);
    var missedSet := MissedSet(guesses, word);
    AscendingElements(missedSet);
    if g in guesses {
      if g in word {
        var i :| 0 <= i < |word| && word[i] == g;
        assert s.maskedWord[i] == FromCodePoint(g);
      } else {
        assert g in Ascending(missedSet);
        var k :| 0 <= k < |Ascending(missedSet)| && Ascending(missedSet)[k] == g;
        assert s.missedGuesses[k] == FromCodePoint(g);
      }
    } else {
      forall k | 0 <= k < |s.missedGuesses|
        ensures s.missedGuesses[k] != FromCodePoint(g)
      {
        assert Ascending(missedSet)[k] in missedSet;
      }
    }
  }

  /** A new code point of the word: the guess is a match and yields exactly the
      rebuilt state. */
  lemma MatchAgreesWithRebuild(maxWrongGuesses: int, guesses: seq<CodePoint>, word: Text, g: CodePoint)
    requires g !in guesses && g in word
    requires Derive(maxWrongGuesses, guesses, word).remainingWrongGuesses >= 1
    ensures var r := Guess(Derive(maxWrongGuesses, guesses, word), g);
      r.resultState == Match && r.playState == Derive(maxWrongGuesses, guesses + [g], word)
  {
    var s := Derive(maxWrongGuesses, guesses, word);
    var r := Guess(s, g);
    var rebuilt := Derive(maxWrongGuesses, guesses + [g], word);
    RepeatIffGuessed(maxWrongGuesses, guesses, word, g);
    assert (set x | x in guesses + [g]) == (set x | x in guesses) + {g};
    assert MissedSet(guesses + [g], word) == MissedSet(guesses, word);
    IndicesOfSpec(word, g);
    assert g in WordIndex(word);
    forall i | 0 <= i < |word|
      ensures r.playState.maskedWord[i] == rebuilt.maskedWord[i]
    {
      assert i in IndicesOf(word, g) <==> word[i] == g;
    }
  }

  /** A new code point absent from the word: the guess is a miss whose masked word and
      remaining count are those of the rebuilt state, and whose misses are the rebuilt
      misses in another order. */
  lemma MissAgreesWithRebuild(maxWrongGuesses: int, guesses: seq<CodePoint>, word: Text, g: CodePoint)
    requires g !in guesses && g !in word
    requires Derive(maxWrongGuesses, guesses, word).remainingWrongGuesses >= 1
    ensures var r := Guess(Derive(maxWrongGuesses, guesses, word), g);
            var rebuilt := Derive(maxWrongGuesses, guesses + [g], word);
      && r.resultState == Miss
      && r.playState.maskedWord == rebuilt.maskedWord
      && r.playState.remainingWrongGuesses == rebuilt.remainingWrongGuesses
      && |r.playState.missedGuesses| == |rebuilt.missedGuesses|
      && (forall e :: e in r.playState.missedGuesses <==> e in rebuilt.missedGuesses)
  {
    var s := Derive(maxWrongGuesses, guesses, word);
    var r := Guess(s, g);
    var rebuilt := Derive(maxWrongGuesses, guesses + [g], word);
    RepeatIffGuessed(maxWrongGuesses, guesses, word, g);
    MissAddsToMissedSet(guesses, word, g);
    assert g !in WordIndex(word);
    assert r.resultState == Miss;
    AppendedMissMatchesAscending(MissedSet(guesses, word), g);
  }

  /** A new code point absent from the word joins the misses and reveals nothing. */
  lemma MissAddsToMissedSet(guesses: seq<CodePoint>, word: Text, g: CodePoint)
    requires g !in guesses && g !in word
    ensures MissedSet(guesses + [g], word) == MissedSet(guesses, word) + {g}
    ensures |MissedSet(guesses + [g], word)| == |MissedSet(guesses, word)| + 1
    ensures Mask((set x | x in guesses + [g]), word) == Mask((set x | x in guesses), word)
  {
    var guessed := set x | x in guesses;
    assert (set x | x in guesses + [g]) == guessed + {g};
  }

  /** Appending a new miss to the ascending list of the others lists the same letters
      as the ascending list of all of them. */
  lemma AppendedMissMatchesAscending(missedSet: set<CodePoint>, g: CodePoint)
    requires g !in missedSet
    ensures |Letters(Ascending(missedSet)) + [FromCodePoint(g)]| == |Letters(Ascending(missedSet + {g}))|
    ensures forall e :: e in Letters(Ascending(missedSet)) + [FromCodePoint(g)] <==>
                        e in Letters(Ascending(missedSet + {g}))
  {
    AscendingElements(missedSet);
    AscendingElements(missedSet + {g});
    forall e
      ensures e in Letters(Ascending(missedSet)) + [FromCodePoint(g)] <==>
              e in Letters(Ascending(missedSet + {g}))
    {
      LettersMembership(Ascending(missedSet), e);
      LettersMembership(Ascending(missedSet + {g}), e);
    }
  }

  /** A new code point guessed while wrong guesses remain: applying it to the derived
      state gives the masked word and remaining count of deriving again with it added,
      and the same misses as a set (the rebuild lists them in ascending order, the
      guess appends at the end). It is a miss exactly when the code point is not in the
      word, and on a match the two states are identical. */
  lemma GuessAgreesWithRebuild(maxWrongGuesses: int, guesses: seq<CodePoint>, word: Text, g: CodePoint)
    requires g !in guesses
    requires Derive(maxWrongGuesses, guesses, word).remainingWrongGuesses >= 1
    ensures var r := Guess(Derive(maxWrongGuesses, guesses, word), g);
            var rebuilt := Derive(maxWrongGuesses, guesses + [g], word);
      && (r.resultState == Miss <==> g !in word)
      && (r.resultState == Match <==> g in word)
      && r.playState.maskedWord == rebuilt.maskedWord
      && r.playState.remainingWrongGuesses == rebuilt.remainingWrongGuesses
      && |r.playState.missedGuesses| == |rebuilt.missedGuesses|
      && (forall e :: e in r.playState.missedGuesses <==> e in rebuilt.missedGuesses)
      && (g in word ==> r.playState == rebuilt)
  {
    if g in word {
      MatchAgreesWithRebuild(maxWrongGuesses, guesses, word, g);
    } else {
      MissAgreesWithRebuild(maxWrongGuesses, guesses, word, g);
    }
  }

  // ----- the cases of the unit tests -----

  /** The code points of the tests' word "mywordmy". */
  lemma TestWord()
    ensures Str("mywordmy") == ['m' as int, 'y' as int, 'w' as int, 'o' as int,
                                'r' as int, 'd' as int, 'm' as int, 'y' as int]
  {
  }

  /** Guesses "m" and "z" on "mywordmy" with limit 10: "z" is the one miss, 9 remain. */
  lemma CountsWrongGuesses()
    ensures var s := Derive(10, Str("mz"), Str("mywordmy"));
      && s.missedGuesses == [FromCodePoint('z' as int)]
      && s.remainingWrongGuesses == 9
  {
    TestWord();
    assert Str("mz") == ['m' as int, 'z' as int];
    var missedSet := MissedSet(Str("mz"), Str("mywordmy"));
    assert 'm' as int in Str("mywordmy");
    assert missedSet == {'z' as int};
    assert Ascending(missedSet) == ['z' as int];
  }

  /** Guesses "m" and "o" on "mywordmy": no misses, 10 left, and both letters shown at
      all their positions. */
  lemma MasksAllHits()
    ensures Derive(10, Str("mo"), Str("mywordmy")).maskedWord ==
            [FromCodePoint('m' as int), EmptyState, EmptyState, FromCodePoint('o' as int),
             EmptyState, EmptyState, FromCodePoint('m' as int), EmptyState]
    ensures Derive(10, Str("mo"), Str("mywordmy")).missedGuesses == []
    ensures Derive(10, Str("mo"), Str("mywordmy")).remainingWrongGuesses == 10
  {
    var guesses, word := Str("mo"), Str("mywordmy");
    assert guesses == ['m' as int, 'o' as int];
    assert (set g | g in guesses) == {'m' as int, 'o' as int};
    assert Derive(10, guesses, word).maskedWord == Mask({'m' as int, 'o' as int}, word);
    TestWordMask();
    assert forall g :: g in guesses ==> g in word by {
      TestWord();
      assert 'm' as int in word && 'o' as int in word;
    }
    AllHitsMissNothing(10, guesses, word);
  }

  /** Guesses that all occur in the word leave no misses and the full limit. */
  lemma AllHitsMissNothing(maxWrongGuesses: int, guesses: seq<CodePoint>, word: Text)
    requires forall g :: g in guesses ==> g in word
    ensures Derive(maxWrongGuesses, guesses, word).missedGuesses == []
    ensures Derive(maxWrongGuesses, guesses, word).remainingWrongGuesses == maxWrongGuesses
  {
    assert MissedSet(guesses, word) == {};
  }

  /** "mywordmy" masked after "m" and "o". */
  lemma TestWordMask()
    ensures Mask({'m' as int, 'o' as int}, Str("mywordmy")) ==
            [FromCodePoint('m' as int), EmptyState, EmptyState, FromCodePoint('o' as int),
             EmptyState, EmptyState, FromCodePoint('m' as int), EmptyState]
  {
    TestWord();
  }

  /** Guessing "o" after "m" on "mywordmy" is a match that reveals "o" as well. */
  lemma MasksAllNewHitsOnGuess()
    ensures Derive(10, Str("m"), Str("mywordmy")).missedGuesses == []
    ensures Derive(10, Str("m"), Str("mywordmy")).remainingWrongGuesses == 10
    ensures var r := Guess(Derive(10, Str("m"), Str("mywordmy")), 'o' as int);
      && r.resultState == Match
      && r.playState.maskedWord ==
           [FromCodePoint('m' as int), EmptyState, EmptyState, FromCodePoint('o' as int),
            EmptyState, EmptyState, FromCodePoint('m' as int), EmptyState]
  {
    assert Str("m") + ['o' as int] == Str("mo");
    assert MissedSet(Str("m"), Str("mywordmy")) == {};
    MatchAgreesWithRebuild(10, Str("m"), Str("mywordmy"), 'o' as int);
    MasksAllHits();
  }
}
