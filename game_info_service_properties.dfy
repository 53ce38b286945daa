/** What replaying the log promises: a fresh game comes back as created, a stored guess
    comes back as the guess the play state records, records of other games and later
    game records act as the code says, and the case of the service's unit test. */
module GameInfoServiceProperties {
  import opened Wrappers
  import opened LetterStates
  import opened GuessResults
  import opened PlayStates
  import opened PlayStateProperties
  import opened GameInfos
  import opened GameInfoServices

  // ----- one more record -----

  /** Saving one more record adds it to the game's records exactly when it is that game's. */
  lemma RecordsForAppend(log: seq<GameInfoRecord>, x: GameInfoRecord, gameId: Text)
    ensures RecordsFor(log + [x], gameId) ==
            RecordsFor(log, gameId) + (if x.gameId == Some(gameId) then [x] else [])
  {
    assert (log + [x])[..|log|] == log;
  }

  /** The records of a game are the records of the log saved under its id, no more. */
  lemma {:induction false} RecordsForMembers(log: seq<GameInfoRecord>, gameId: Text)
    ensures |RecordsFor(log, gameId)| <= |log|
    ensures forall x :: x in RecordsFor(log, gameId) <==> x in log && x.gameId == Some(gameId)
  {
    if log != [] {
      var prefix, last := log[..|log| - 1], log[|log| - 1];
      RecordsForMembers(prefix, gameId);
      assert log == prefix + [last];
      RecordsForAppend(prefix, last, gameId);
    }
  }

  /** The replay's game record is the last game record, and there is none exactly when
      no record is a game record. */
  lemma {:induction false} LastGameSpec(records: seq<GameInfoRecord>)
    ensures LastGame(records).Some? ==>
              exists k :: 0 <= k < |records| && records[k] == LastGame(records).value && records[k].IsGame() &&
                          forall j :: k < j < |records| ==> !records[j].IsGame()
    ensures LastGame(records).None? <==> forall k :: 0 <= k < |records| ==> !records[k].IsGame()
  {
    if records != [] {
      var prefix := records[..|records| - 1];
      LastGameSpec(prefix);
      if !records[|records| - 1].IsGame() && LastGame(prefix).Some? {
        var k :| 0 <= k < |prefix| && prefix[k] == LastGame(prefix).value && prefix[k].IsGame() &&
                 forall j :: k < j < |prefix| ==> !prefix[j].IsGame();
        assert records[k] == prefix[k];
      }
      if !records[|records| - 1].IsGame() && LastGame(prefix).None? {
        forall k | 0 <= k < |records|
          ensures !records[k].IsGame()
        {
          if k < |prefix| {
            assert records[k] == prefix[k];
          }
        }
      }
    }
  }

  /** Every letter usable gives one code point per letter, each the first of its letter;
      otherwise the failure is that of the first unusable letter. */
  lemma {:induction false} FirstCodePointsSpec(letters: seq<Option<Text>>)
    ensures FirstCodePoints(letters).Ok? <==> forall k :: 0 <= k < |letters| ==> Usable(letters[k])
    ensures FirstCodePoints(letters).Ok? ==>
              |FirstCodePoints(letters).value| == |letters| &&
              forall k :: 0 <= k < |letters| ==> FirstCodePoints(letters).value[k] == letters[k].value[0]
    ensures FirstCodePoints(letters).Err? ==>
              exists k :: 0 <= k < |letters| && !Usable(letters[k]) &&
                          FirstCodePoints(letters).error == LetterError(letters[k]) &&
                          forall j :: 0 <= j < k ==> Usable(letters[j])
  {
    if letters != [] && Usable(letters[0]) {
      var tail := letters[1..];
      FirstCodePointsSpec(tail);
      if FirstCodePoints(tail).Err? {
        var k :| 0 <= k < |tail| && !Usable(tail[k]) && FirstCodePoints(tail).error == LetterError(tail[k]) &&
                 forall j :: 0 <= j < k ==> Usable(tail[j]);
        assert letters[k + 1] == tail[k];
        forall j | 0 <= j < k + 1
          ensures Usable(letters[j])
        {
          if j > 0 {
            assert letters[j] == tail[j - 1];
          }
        }
      } else {
        forall k | 0 <= k < |letters|
          ensures Usable(letters[k])
        {
          if k > 0 {
            assert letters[k] == tail[k - 1];
          }
        }
      }
    }
  }

  /** A later game record replaces the one the replay had found; a guess record leaves it. */
  lemma LastGameAppend(records: seq<GameInfoRecord>, x: GameInfoRecord)
    ensures LastGame(records + [x]) == if x.IsGame() then Some(x) else LastGame(records)
  {
    assert (records + [x])[..|records|] == records;
  }

  /** A guess record adds its letter at the end; a game record adds none. */
  lemma GuessLettersAppend(records: seq<GameInfoRecord>, x: GameInfoRecord)
    ensures GuessLetters(records + [x]) == GuessLetters(records) + (if x.IsGame() then [] else [x.wordData])
  {
    assert (records + [x])[..|records|] == records;
  }

  /** Converting one more letter: the code points so far and the new one, or the first
      failure. */
  lemma {:induction false} FirstCodePointsAppend(letters: seq<Option<Text>>, letter: Option<Text>)
    ensures FirstCodePoints(letters + [letter]) ==
              if FirstCodePoints(letters).Err? then FirstCodePoints(letters)
              else if !Usable(letter) then Err(LetterError(letter))
              else Ok(FirstCodePoints(letters).value + [letter.value[0]])
  {
    if letters == [] {
      assert [] + [letter] == [letter];
      assert [letter][1..] == [];
      if Usable(letter) {
        assert [letter.value[0]] + [] == [] + [letter.value[0]];
      }
    } else {
      var longer := letters + [letter];
      assert longer[0] == letters[0];
      assert longer[1..] == letters[1..] + [letter];
      if Usable(letters[0]) {
        FirstCodePointsAppend(letters[1..], letter);
        var c := letters[0].value[0];
        if FirstCodePoints(letters[1..]).Ok? && Usable(letter) {
          var rest := FirstCodePoints(letters[1..]).value;
          assert FirstCodePoints(letters) == Ok([c] + rest);
          assert FirstCodePoints(longer[1..]) == Ok(rest + [letter.value[0]]);
          assert FirstCodePoints(longer) == Ok([c] + (rest + [letter.value[0]]));
          assert [c] + (rest + [letter.value[0]]) == ([c] + rest) + [letter.value[0]];
        }
      }
    }
  }

  // ----- replay after the service's operations -----

  /** Records saved under other ids do not change what finding a game replays. */
  lemma RebuildIgnoresOtherGames(log: seq<GameInfoRecord>, x: GameInfoRecord, gameId: Text)
    requires x.gameId != Some(gameId)
    ensures Rebuild(log + [x], gameId) == Rebuild(log, gameId)
  {
    RecordsForAppend(log, x, gameId);
    assert RecordsFor(log, gameId) + [] == RecordsFor(log, gameId);
  }

  /** Converting letters fails only for a letter: never for want of a game record. */
  lemma FirstCodePointsErrors(letters: seq<Option<Text>>)
    ensures FirstCodePoints(letters).Err? ==>
              FirstCodePoints(letters).error in {MissingGuessLetter, EmptyGuessLetter}
  {
    FirstCodePointsSpec(letters);
  }

  /** Finding a game fails with `NoGameRecord` exactly when the replay finds no game
      record among the game's records. */
  lemma NoGameRecordIffNoLastGame(log: seq<GameInfoRecord>, gameId: Text)
    ensures Rebuild(log, gameId) == Err(NoGameRecord) <==> LastGame(RecordsFor(log, gameId)).None?
  {
    FirstCodePointsErrors(GuessLetters(RecordsFor(log, gameId)));
  }

  /** Finding a game fails with `NoGameRecord` exactly when no game record was saved
      under its id. */
  lemma NoGameRecordIff(log: seq<GameInfoRecord>, gameId: Text)
    ensures Rebuild(log, gameId) == Err(NoGameRecord) <==>
            forall k :: 0 <= k < |log| && log[k].gameId == Some(gameId) ==> !log[k].IsGame()
  {
    var records := RecordsFor(log, gameId);
    NoGameRecordIffNoLastGame(log, gameId);
    RecordsForMembers(log, gameId);
    LastGameSpec(records);
    if LastGame(records).Some? {
      var g := LastGame(records).value;
      assert g in records;
      var k :| 0 <= k < |log| && log[k] == g;
      assert log[k].gameId == Some(gameId) && log[k].IsGame();
    } else {
      forall k | 0 <= k < |log| && log[k].gameId == Some(gameId)
        ensures !log[k].IsGame()
      {
        assert log[k] in records;
      }
    }
  }

  /** A game created under a fresh id is found as created: same id, limit and word,
      and no guesses. */
  lemma RebuildAfterCreate(log: seq<GameInfoRecord>, gameId: Text, createdAt: Millis, word: Text, maxWrongGuesses: int)
    requires RecordsFor(log, gameId) == []
    ensures Rebuild(log + [GameRecord(gameId, createdAt, word, maxWrongGuesses)], gameId) ==
            Ok(StoredGame(gameId, maxWrongGuesses, word, []))
  {
    var x := GameRecord(gameId, createdAt, word, maxWrongGuesses);
    RecordsForAppend(log, x, gameId);
    assert RecordsFor(log + [x], gameId) == [x];
    LastGameAppend([], x);
    GuessLettersAppend([], x);
  }

  /** A game record saved later wins: its word and limit are replayed with the guesses
      already stored. */
  lemma LaterGameRecordWins(log: seq<GameInfoRecord>, gameId: Text, createdAt: Millis, word: Text, maxWrongGuesses: int)
    requires FirstCodePoints(GuessLetters(RecordsFor(log, gameId))).Ok?
    ensures Rebuild(log + [GameRecord(gameId, createdAt, word, maxWrongGuesses)], gameId) ==
            Ok(StoredGame(gameId, maxWrongGuesses, word, FirstCodePoints(GuessLetters(RecordsFor(log, gameId))).value))
  {
    var x := GameRecord(gameId, createdAt, word, maxWrongGuesses);
    var records := RecordsFor(log, gameId);
    RecordsForAppend(log, x, gameId);
    assert RecordsFor(log + [x], gameId) == records + [x];
    LastGameAppend(records, x);
    GuessLettersAppend(records, x);
    assert GuessLetters(records + [x]) == GuessLetters(records);
  }

  /** Storing a guess for a game that is found: the game is found again with the
      letter's first code point replayed last; a guess with an empty letter makes the
      game impossible to find. */
  lemma RebuildAfterGuess(log: seq<GameInfoRecord>, gameId: Text, createdAt: Millis, letter: Text)
    requires Rebuild(log, gameId).Ok?
    ensures var before := Rebuild(log, gameId).value;
            var after := Rebuild(log + [GuessRecord(gameId, createdAt, letter)], gameId);
      && (|letter| == 0 ==> after == Err(EmptyGuessLetter))
      && (|letter| >= 1 ==> after == Ok(before.(guesses := before.guesses + [letter[0]])))
  {
    var x := GuessRecord(gameId, createdAt, letter);
    var records := RecordsFor(log, gameId);
    RecordsForAppend(log, x, gameId);
    assert RecordsFor(log + [x], gameId) == records + [x];
    LastGameAppend(records, x);
    GuessLettersAppend(records, x);
    assert GuessLetters(records + [x]) == GuessLetters(records) + [Some(letter)];
    FirstCodePointsAppend(GuessLetters(records), Some(letter));
  }

  /** A new letter stored and found again gives what recording it on the found play
      state gives: a match exactly when the word holds it, the same masked word and
      count, the same misses (appended rather than sorted), and the very same play
      state for a match. */
  lemma StoredGuessAgreesWithGuess(log: seq<GameInfoRecord>, gameId: Text, createdAt: Millis, letter: Text)
    requires Rebuild(log, gameId).Ok? && |letter| >= 1
    requires letter[0] !in Rebuild(log, gameId).value.guesses
    requires var g := Rebuild(log, gameId).value;
             Derive(g.maxWrongGuesses, g.guesses, g.word).remainingWrongGuesses >= 1
    ensures var before := Rebuild(log, gameId).value;
            var after := Rebuild(log + [GuessRecord(gameId, createdAt, letter)], gameId);
            var r := Guess(Derive(before.maxWrongGuesses, before.guesses, before.word), letter[0]);
            var found := Derive(before.maxWrongGuesses, before.guesses + [letter[0]], before.word);
      && after == Ok(before.(guesses := before.guesses + [letter[0]]))
      && (r.resultState == Match <==> letter[0] in before.word)
      && (r.resultState == Miss <==> letter[0] !in before.word)
      && r.playState.maskedWord == found.maskedWord
      && r.playState.remainingWrongGuesses == found.remainingWrongGuesses
      && (forall e :: e in r.playState.missedGuesses <==> e in found.missedGuesses)
      && (r.resultState == Match ==> r.playState == found)
  {
    var before := Rebuild(log, gameId).value;
    RebuildAfterGuess(log, gameId, createdAt, letter);
    GuessAgreesWithRebuild(before.maxWrongGuesses, before.guesses, before.word, letter[0]);
  }

  /** A letter already stored, stored again: recording it is a repeat that changes
      nothing, and the game found again has the same play state. */
  lemma StoredRepeatChangesNothing(log: seq<GameInfoRecord>, gameId: Text, createdAt: Millis, letter: Text)
    requires Rebuild(log, gameId).Ok? && |letter| >= 1
    requires letter[0] in Rebuild(log, gameId).value.guesses
    ensures var before := Rebuild(log, gameId).value;
            var s := Derive(before.maxWrongGuesses, before.guesses, before.word);
      && Guess(s, letter[0]).resultState == Repeat
      && Rebuild(log + [GuessRecord(gameId, createdAt, letter)], gameId) ==
         Ok(before.(guesses := before.guesses + [letter[0]]))
      && Derive(before.maxWrongGuesses, before.guesses + [letter[0]], before.word) == s
  {
    var before := Rebuild(log, gameId).value;
    RebuildAfterGuess(log, gameId, createdAt, letter);
    RepeatIffGuessed(before.maxWrongGuesses, before.guesses, before.word, letter[0]);
    BuildIgnoresRepeatedGuess(before.maxWrongGuesses, before.guesses, letter[0], before.word);
  }

  // ----- the order of guess records -----

  /** The records of a game in two stretches of the log are those of each stretch. */
  lemma {:induction false} RecordsForConcat(a: seq<GameInfoRecord>, b: seq<GameInfoRecord>, gameId: Text)
    ensures RecordsFor(a + b, gameId) == RecordsFor(a, gameId) + RecordsFor(b, gameId)
    decreases |b|
  {
    if b == [] {
      assert a + b == a;
    } else {
      var front, last := b[..|b| - 1], b[|b| - 1];
      assert b == front + [last];
      assert a + b == (a + front) + [last];
      RecordsForConcat(a, front, gameId);
      RecordsForAppend(a + front, last, gameId);
      RecordsForAppend(front, last, gameId);
    }
  }

  /** The replay's game record over two stretches: the second's if it has one. */
  lemma {:induction false} LastGameConcat(a: seq<GameInfoRecord>, b: seq<GameInfoRecord>)
    ensures LastGame(a + b) == if LastGame(b).Some? then LastGame(b) else LastGame(a)
    decreases |b|
  {
    if b == [] {
      assert a + b == a;
    } else {
      var front, last := b[..|b| - 1], b[|b| - 1];
      assert b == front + [last];
      assert a + b == (a + front) + [last];
      LastGameConcat(a, front);
      LastGameAppend(a + front, last);
      LastGameAppend(front, last);
    }
  }

  /** The guess letters over two stretches: those of the first, then the second's. */
  lemma {:induction false} GuessLettersConcat(a: seq<GameInfoRecord>, b: seq<GameInfoRecord>)
    ensures GuessLetters(a + b) == GuessLetters(a) + GuessLetters(b)
    decreases |b|
  {
    if b == [] {
      assert a + b == a;
    } else {
      var front, last := b[..|b| - 1], b[|b| - 1];
      assert b == front + [last];
      assert a + b == (a + front) + [last];
      GuessLettersConcat(a, front);
      GuessLettersAppend(a + front, last);
      GuessLettersAppend(front, last);
    }
  }

  /** Converting two runs of letters succeeds exactly when each converts, and then gives
      the code points of the first run followed by those of the second. */
  lemma {:induction false} FirstCodePointsConcat(a: seq<Option<Text>>, b: seq<Option<Text>>)
    ensures FirstCodePoints(a + b).Ok? <==> FirstCodePoints(a).Ok? && FirstCodePoints(b).Ok?
    ensures FirstCodePoints(a + b).Ok? ==>
              FirstCodePoints(a + b).value == FirstCodePoints(a).value + FirstCodePoints(b).value
    decreases |b|
  {
    if b == [] {
      assert a + b == a;
      assert FirstCodePoints(a).Ok? ==> FirstCodePoints(a).value + [] == FirstCodePoints(a).value;
    } else {
      var front, last := b[..|b| - 1], b[|b| - 1];
      assert b == front + [last];
      assert a + b == (a + front) + [last];
      FirstCodePointsConcat(a, front);
      FirstCodePointsAppend(a + front, last);
      FirstCodePointsAppend(front, last);
      if FirstCodePoints(a + b).Ok? {
        var ca, cf := FirstCodePoints(a).value, FirstCodePoints(front).value;
        assert ca + cf + [last.value[0]] == ca + (cf + [last.value[0]]);
      }
    }
  }

  /** The replay of a log whose middle stretch holds only guess records: its game record
      and its letters around that stretch. */
  lemma GuessStretchReplay(before: seq<GameInfoRecord>, mid: seq<GameInfoRecord>, after: seq<GameInfoRecord>, gameId: Text)
    requires forall k :: 0 <= k < |mid| ==> !mid[k].IsGame()
    ensures var records := RecordsFor(before + mid + after, gameId);
      && LastGame(records) ==
           (if LastGame(RecordsFor(after, gameId)).Some? then LastGame(RecordsFor(after, gameId))
            else LastGame(RecordsFor(before, gameId)))
      && GuessLetters(records) ==
           GuessLetters(RecordsFor(before, gameId)) + GuessLetters(RecordsFor(mid, gameId)) +
           GuessLetters(RecordsFor(after, gameId))
  {
    var p, m, q := RecordsFor(before, gameId), RecordsFor(mid, gameId), RecordsFor(after, gameId);
    RecordsForConcat(before + mid, after, gameId);
    RecordsForConcat(before, mid, gameId);
    RecordsForMembers(mid, gameId);
    forall k | 0 <= k < |m|
      ensures !m[k].IsGame()
    {
      assert m[k] in mid;
    }
    LastGameSpec(m);
    LastGameConcat(p + m, q);
    LastGameConcat(p, m);
    GuessLettersConcat(p + m, q);
    GuessLettersConcat(p, m);
  }

  /** Converting letters with one run swapped for another that converts to a permutation
      of it: the same success, and a permutation of the code points. */
  lemma PermutedLetters(a: seq<Option<Text>>, m1: seq<Option<Text>>, m2: seq<Option<Text>>, b: seq<Option<Text>>)
    requires FirstCodePoints(a + m1 + b).Ok?
    requires FirstCodePoints(m1).Ok? ==>
               FirstCodePoints(m2).Ok? && multiset(FirstCodePoints(m2).value) == multiset(FirstCodePoints(m1).value)
    ensures FirstCodePoints(a + m2 + b).Ok?
    ensures multiset(FirstCodePoints(a + m2 + b).value) == multiset(FirstCodePoints(a + m1 + b).value)
  {
    FirstCodePointsConcat(a + m1, b);
    FirstCodePointsConcat(a, m1);
    FirstCodePointsConcat(a + m2, b);
    FirstCodePointsConcat(a, m2);
  }

  /** Two runs of letters convert in either order alike, up to the order of the code
      points. */
  lemma ConvertSwapped(l1: seq<Option<Text>>, l2: seq<Option<Text>>)
    ensures FirstCodePoints(l1 + l2).Ok? ==>
              FirstCodePoints(l2 + l1).Ok? &&
              multiset(FirstCodePoints(l2 + l1).value) == multiset(FirstCodePoints(l1 + l2).value)
  {
    FirstCodePointsConcat(l1, l2);
    FirstCodePointsConcat(l2, l1);
  }

  /** The letters of two guess records, in either order: those of each record, swapped. */
  lemma SwappedLetters(x: GameInfoRecord, y: GameInfoRecord, gameId: Text)
    ensures GuessLetters(RecordsFor([x, y], gameId)) ==
              GuessLetters(RecordsFor([x], gameId)) + GuessLetters(RecordsFor([y], gameId))
    ensures GuessLetters(RecordsFor([y, x], gameId)) ==
              GuessLetters(RecordsFor([y], gameId)) + GuessLetters(RecordsFor([x], gameId))
  {
    RecordsForConcat([x], [y], gameId);
    RecordsForConcat([y], [x], gameId);
    assert [x] + [y] == [x, y] && [y] + [x] == [y, x];
    GuessLettersConcat(RecordsFor([x], gameId), RecordsFor([y], gameId));
    GuessLettersConcat(RecordsFor([y], gameId), RecordsFor([x], gameId));
  }

  /** Swapping two neighbouring guess records keeps the replay's game record. */
  lemma SwapKeepsGameRecord(before: seq<GameInfoRecord>, x: GameInfoRecord, y: GameInfoRecord,
                            after: seq<GameInfoRecord>, gameId: Text)
    requires !x.IsGame() && !y.IsGame()
    ensures LastGame(RecordsFor(before + [y, x] + after, gameId)) == LastGame(RecordsFor(before + [x, y] + after, gameId))
  {
    GuessStretchReplay(before, [x, y], after, gameId);
    GuessStretchReplay(before, [y, x], after, gameId);
  }

  /** Swapping two neighbouring guess records permutes the converted letters. */
  lemma SwapPermutesLetters(before: seq<GameInfoRecord>, x: GameInfoRecord, y: GameInfoRecord,
                            after: seq<GameInfoRecord>, gameId: Text)
    requires !x.IsGame() && !y.IsGame()
    ensures var l1 := GuessLetters(RecordsFor(before + [x, y] + after, gameId));
            var l2 := GuessLetters(RecordsFor(before + [y, x] + after, gameId));
      FirstCodePoints(l1).Ok? ==>
        FirstCodePoints(l2).Ok? && multiset(FirstCodePoints(l2).value) == multiset(FirstCodePoints(l1).value)
  {
    GuessStretchReplay(before, [x, y], after, gameId);
    GuessStretchReplay(before, [y, x], after, gameId);
    SwappedLetters(x, y, gameId);
    ConvertSwapped(GuessLetters(RecordsFor([x], gameId)), GuessLetters(RecordsFor([y], gameId)));
    var a, b := GuessLetters(RecordsFor(before, gameId)), GuessLetters(RecordsFor(after, gameId));
    var m1, m2 := GuessLetters(RecordsFor([x, y], gameId)), GuessLetters(RecordsFor([y, x], gameId));
    if FirstCodePoints(a + m1 + b).Ok? {
      PermutedLetters(a, m1, m2, b);
    }
  }

  /** Two neighbouring guess records read back in either order give the same game: same
      id, limit and word, the guesses permuted, and the same play state. */
  lemma RebuildIgnoresGuessRecordOrder(before: seq<GameInfoRecord>, x: GameInfoRecord, y: GameInfoRecord,
                                       after: seq<GameInfoRecord>, gameId: Text)
    requires !x.IsGame() && !y.IsGame()
    requires Rebuild(before + [x, y] + after, gameId).Ok?
    ensures Rebuild(before + [y, x] + after, gameId).Ok?
    ensures var g1 := Rebuild(before + [x, y] + after, gameId).value;
            var g2 := Rebuild(before + [y, x] + after, gameId).value;
      && g2.id == g1.id && g2.maxWrongGuesses == g1.maxWrongGuesses && g2.word == g1.word
      && multiset(g2.guesses) == multiset(g1.guesses)
      && Derive(g2.maxWrongGuesses, g2.guesses, g2.word) == Derive(g1.maxWrongGuesses, g1.guesses, g1.word)
  {
    SwapKeepsGameRecord(before, x, y, after, gameId);
    SwapPermutesLetters(before, x, y, after, gameId);
    var g1 := Rebuild(before + [x, y] + after, gameId).value;
    var g2 := Rebuild(before + [y, x] + after, gameId).value;
    BuildIgnoresGuessOrder(g1.maxWrongGuesses, g1.guesses, g2.guesses, g1.word);
  }

  // ----- the case of the unit test -----

  /** A game with limit 10 created under a fresh id, then a guess of "z" stored: it is
      found with "z" as its one guess. */
  lemma StoredGuessIsFound(log: seq<GameInfoRecord>, gameId: Text, word: Text, created: Millis, guessed: Millis)
    requires RecordsFor(log, gameId) == []
    ensures Rebuild(log + [GameRecord(gameId, created, word, 10)] + [GuessRecord(gameId, guessed, Str("z"))], gameId) ==
            Ok(StoredGame(gameId, 10, word, ['z' as int]))
  {
    var created1 := log + [GameRecord(gameId, created, word, 10)];
    RebuildAfterCreate(log, gameId, created, word, 10);
    RebuildAfterGuess(created1, gameId, guessed, Str("z"));
    assert [] + [Str("z")[0]] == ['z' as int];
  }

  /** ... and on a word without "z", the found play state has 9 wrong guesses left and
      "z" as its one miss. */
  lemma StoredMissIsCounted(word: Text)
    requires 'z' as int !in word
    ensures Derive(10, ['z' as int], word).remainingWrongGuesses == 9
    ensures Derive(10, ['z' as int], word).missedGuesses == [FromCodePoint('z' as int)]
  {
    var missed := MissedSet(['z' as int], word);
    assert missed == {'z' as int};
    assert Ascending(missed) == ['z' as int];
  }
}
