/** One record of the game log: a "game" record carries the word and the wrong-guess
    limit, a "guess" record carries one guessed letter. Both are told apart by the
    prefix of their sort key, which also carries the creation time. */
module GameInfos {
  import opened Wrappers
  import opened LetterStates

  /** Milliseconds since the epoch, as `Date.getTime` returns them. */
  type Millis = int

  // ----- sort keys -----

  /** The code point of the decimal digit `d`. */
  function Digit(d: nat): CodePoint
    requires d < 10
  {
    '0' as int + d
  }

  predicate IsDigit(c: CodePoint)
  {
    '0' as int <= c <= '9' as int
  }

  /** The decimal numeral of a natural number, without leading zeros. */
  function NatDecimal(n: nat): Text
    decreases n
  {
    if n < 10 then [Digit(n)] else NatDecimal(n / 10) + [Digit(n % 10)]
  }

  /** The numeral of `Long.toString`: a minus sign for negative numbers, then the digits. */
  function Decimal(n: int): Text
  {
    if n < 0 then Str("-") + NatDecimal(-n) else NatDecimal(n)
  }

  /** A numeral is a non-empty run of digits. */
  lemma {:induction false} NatDecimalDigits(n: nat)
    ensures |NatDecimal(n)| >= 1
    ensures forall k :: 0 <= k < |NatDecimal(n)| ==> IsDigit(NatDecimal(n)[k])
    ensures n >= 10 ==> |NatDecimal(n)| >= 2
    decreases n
  {
    if n >= 10 {
      NatDecimalDigits(n / 10);
    }
  }

  /** Different numbers have different numerals. */
  lemma {:induction false} NatDecimalInjective(a: nat, b: nat)
    requires NatDecimal(a) == NatDecimal(b)
    ensures a == b
    decreases a
  {
    NatDecimalDigits(a);
    NatDecimalDigits(b);
    if a >= 10 && b >= 10 {
      var da, db := NatDecimal(a), NatDecimal(b);
      assert da[|da| - 1] == Digit(a % 10) && db[|db| - 1] == Digit(b % 10);
      assert da[..|da| - 1] == NatDecimal(a / 10);
      assert db[..|db| - 1] == NatDecimal(b / 10);
      NatDecimalInjective(a / 10, b / 10);
    }
  }

  /** `Decimal` is a non-empty string of digits after an optional minus sign, so it
      never holds a brace. */
  lemma DecimalShape(n: int)
    ensures |Decimal(n)| >= 1
    ensures forall k :: 0 <= k < |Decimal(n)| ==> IsDigit(Decimal(n)[k]) || Decimal(n)[k] == '-' as int
    ensures forall k :: 0 < k < |Decimal(n)| ==> IsDigit(Decimal(n)[k])
    ensures (Decimal(n)[0] == '-' as int) <==> n < 0
  {
    if n < 0 {
      NatDecimalDigits(-n);
    } else {
      NatDecimalDigits(n);
    }
  }

  /** Different times have different numerals. */
  lemma DecimalInjective(a: int, b: int)
    requires Decimal(a) == Decimal(b)
    ensures a == b
  {
    DecimalShape(a);
    DecimalShape(b);
    if a < 0 && b < 0 {
      assert Decimal(a)[1..] == NatDecimal(-a);
      assert Decimal(b)[1..] == NatDecimal(-b);
      NatDecimalInjective(-a, -b);
    } else if a >= 0 && b >= 0 {
      NatDecimalInjective(a, b);
    }
  }

  /** The sort key of a game record: "game#{" + millis + "}". */
  function GameSortKey(createdAt: Millis): (sk: Text)
    ensures StartsWith(sk, Str("game#{")) && sk[|sk| - 1] == '}' as int
    ensures sk[6..|sk| - 1] == Decimal(createdAt)
  {
    Str("game#{") + Decimal(createdAt) + Str("}")
  }

  /** The sort key of a guess record: "guess#{" + millis + "}#{" + letter + "}". Past
      its seven-character head it reads as the numeral, a brace, and the bracketed
      letter, which is how two keys are told apart. */
  function GuessSortKey(createdAt: Millis, letter: Text): (sk: Text)
    ensures StartsWith(sk, Str("guess#{"))
    ensures sk[7..] == Decimal(createdAt) + ['}' as int] + (Str("#{") + letter + Str("}"))
  {
    Str("guess#{") + (Decimal(createdAt) + ['}' as int] + (Str("#{") + letter + Str("}")))
  }

  predicate StartsWith(s: Text, prefix: Text)
  {
    |prefix| <= |s| && s[..|prefix|] == prefix
  }

  /** `isGame` on a sort key: present and starting with "game". */
  predicate IsGameKey(sk: Option<Text>)
  {
    sk.Some? && StartsWith(sk.value, Str("game"))
  }

  /** A game record's key classifies as a game, a guess record's key does not, and an
      absent key does not. */
  lemma SortKeysClassify(createdAt: Millis, letter: Text)
    ensures IsGameKey(Some(GameSortKey(createdAt)))
    ensures !IsGameKey(Some(GuessSortKey(createdAt, letter)))
    ensures !IsGameKey(None)
  {
    assert GameSortKey(createdAt)[..4] == Str("game");
    assert GuessSortKey(createdAt, letter)[1] == 'u' as int;
  }

  /** In `s == d + "}" + x` with a brace-free `d`, the first brace of `s` sits right
      after `d`. */
  lemma FirstBrace(s: Text, d: Text, x: Text)
    requires s == d + ['}' as int] + x
    requires '}' as int !in d
    ensures s[|d|] == '}' as int
    ensures forall k :: 0 <= k < |d| ==> s[k] != '}' as int
    ensures s[..|d|] == d && s[|d| + 1..] == x
  {
    forall k | 0 <= k < |d|
      ensures s[k] != '}' as int
    {
      assert s[k] == d[k];
    }
  }

  /** Two strings that each start with a brace-free part followed by a brace split
      the same way. */
  lemma SplitAtBrace(d1: Text, x1: Text, d2: Text, x2: Text)
    requires '}' as int !in d1 && '}' as int !in d2
    requires d1 + ['}' as int] + x1 == d2 + ['}' as int] + x2
    ensures d1 == d2 && x1 == x2
  {
    var s := d1 + ['}' as int] + x1;
    FirstBrace(s, d1, x1);
    FirstBrace(s, d2, x2);
  }

  /** Guesses made at different times, or of different letters, get different keys. */
  lemma GuessSortKeyInjective(t1: Millis, letter1: Text, t2: Millis, letter2: Text)
    requires GuessSortKey(t1, letter1) == GuessSortKey(t2, letter2)
    ensures t1 == t2 && letter1 == letter2
  {
    var d1, d2 := Decimal(t1), Decimal(t2);
    DecimalShape(t1);
    DecimalShape(t2);
    var x1 := Str("#{") + letter1 + Str("}");
    var x2 := Str("#{") + letter2 + Str("}");
    SplitAtBrace(d1, x1, d2, x2);
    DecimalInjective(t1, t2);
    assert letter1 == x1[2..|x1| - 1] && letter2 == x2[2..|x2| - 1];
  }

  // ----- records -----

  /** The attributes a record is saved with; `None` stands for Java's null. */
  datatype GameInfoRecord = GameInfoRecord(
    gameId: Option<Text>,
    sk: Option<Text>,
    wordData: Option<Text>,
    createdAt: Option<Millis>,
    guessCountData: Option<int>)
  {
    /** `isGame` of the saved record. */
    predicate IsGame()
    {
      IsGameKey(sk)
    }
  }

  /** The record a fresh `GameInfo` holds after `makeGame`. */
  function GameRecord(gameId: Text, createdAt: Millis, word: Text, maxWrongGuesses: int): (r: GameInfoRecord)
    ensures r.IsGame()
  {
    SortKeysClassify(createdAt, []);
    GameInfoRecord(Some(gameId), Some(GameSortKey(createdAt)), Some(word), Some(createdAt), Some(maxWrongGuesses))
  }

  /** The record a fresh `GameInfo` holds after `makeGuess`: no guess count. */
  function GuessRecord(gameId: Text, createdAt: Millis, letter: Text): (r: GameInfoRecord)
    ensures !r.IsGame()
  {
    SortKeysClassify(createdAt, letter);
    GameInfoRecord(Some(gameId), Some(GuessSortKey(createdAt, letter)), Some(letter), Some(createdAt), None)
  }

  // ----- the mutable entity -----

  /** The composite key, allocated by the first setter that needs it. */
  class GameInfoId {
    var gameId: Option<Text>
    var sk: Option<Text>

    constructor ()
      ensures gameId == None && sk == None
    {
      gameId := None;
      sk := None;
    }
  }

  class GameInfo {
    var wordData: Option<Text>
    var createdAt: Option<Millis>
    var guessCountData: Option<int>
    var gameInfoId: GameInfoId?

    /** A fresh entity: every attribute null, no key object yet. */
    constructor ()
      ensures wordData == None && createdAt == None && guessCountData == None
      ensures gameInfoId == null
      ensures GetGameId() == None && GetSK() == None
    {
      wordData := None;
      createdAt := None;
      guessCountData := None;
      gameInfoId := null;
    }

    /** `getGameId`: null until a key object exists. */
    function GetGameId(): (r: Option<Text>)
      reads this, gameInfoId
      ensures gameInfoId == null ==> r == None
      ensures gameInfoId != null ==> r == gameInfoId.gameId
    {
      if gameInfoId == null then None else gameInfoId.gameId
    }

    /** `getSK`: null until a key object exists. */
    function GetSK(): (r: Option<Text>)
      reads this, gameInfoId
      ensures gameInfoId == null ==> r == None
      ensures gameInfoId != null ==> r == gameInfoId.sk
    {
      if gameInfoId == null then None else gameInfoId.sk
    }

    /** `isGame`: the object classifies as the record it saves does; without a sort key
        it is not a game. */
    predicate IsGame()
      reads this, gameInfoId
      ensures IsGame() <==> Record().IsGame()
      ensures GetSK() == None ==> !IsGame()
    {
      IsGameKey(GetSK())
    }

    /** The attributes as saved to the store. */
    function Record(): GameInfoRecord
      reads this, gameInfoId
    {
      GameInfoRecord(GetGameId(), GetSK(), wordData, createdAt, guessCountData)
    }

    /** `setGameId`: allocates the key object if needed; the sort key is kept. */
    method SetGameId(gameId: Option<Text>)
      modifies this, gameInfoId
      ensures GetGameId() == gameId && GetSK() == old(GetSK())
      ensures gameInfoId != null
      ensures old(gameInfoId) != null ==> gameInfoId == old(gameInfoId)
      ensures old(gameInfoId) == null ==> fresh(gameInfoId)
      ensures wordData == old(wordData) && createdAt == old(createdAt)
      ensures guessCountData == old(guessCountData)
    {
      if gameInfoId == null {
        gameInfoId := new GameInfoId();
      }
      gameInfoId.gameId := gameId;
    }

    /** `setSK`: allocates the key object if needed; the game id is kept. */
    method SetSK(sk: Option<Text>)
      modifies this, gameInfoId
      ensures GetSK() == sk && GetGameId() == old(GetGameId())
      ensures gameInfoId != null
      ensures old(gameInfoId) != null ==> gameInfoId == old(gameInfoId)
      ensures old(gameInfoId) == null ==> fresh(gameInfoId)
      ensures wordData == old(wordData) && createdAt == old(createdAt)
      ensures guessCountData == old(guessCountData)
    {
      if gameInfoId == null {
        gameInfoId := new GameInfoId();
      }
      gameInfoId.sk := sk;
    }

    /** `makeGame`: id, "game" sort key, word, limit and creation time. */
    method MakeGame(gameId: Text, createdAt: Millis, word: Text, maxWrongGuesses: int)
      modifies this, gameInfoId
      ensures GetGameId() == Some(gameId) && GetSK() == Some(GameSortKey(createdAt))
      ensures wordData == Some(word) && guessCountData == Some(maxWrongGuesses)
      ensures this.createdAt == Some(createdAt)
      ensures IsGame()
      ensures gameInfoId != null && (old(gameInfoId) == null ==> fresh(gameInfoId))
    {
      SetGameId(Some(gameId));
      SetSK(Some(GameSortKey(createdAt)));
      wordData := Some(word);
      guessCountData := Some(maxWrongGuesses);
      this.createdAt := Some(createdAt);
      SortKeysClassify(createdAt, []);
    }

    /** `makeGuess`: id, "guess" sort key, the letter as word data and creation time;
        the guess count is left as it was. */
    method MakeGuess(gameId: Text, createdAt: Millis, letter: Text)
      modifies this, gameInfoId
      ensures GetGameId() == Some(gameId) && GetSK() == Some(GuessSortKey(createdAt, letter))
      ensures wordData == Some(letter) && guessCountData == old(guessCountData)
      ensures this.createdAt == Some(createdAt)
      ensures !IsGame()
      ensures gameInfoId != null && (old(gameInfoId) == null ==> fresh(gameInfoId))
    {
      SetGameId(Some(gameId));
      SetSK(Some(GuessSortKey(createdAt, letter)));
      wordData := Some(letter);
      this.createdAt := Some(createdAt);
      SortKeysClassify(createdAt, letter);
    }
  }
}
