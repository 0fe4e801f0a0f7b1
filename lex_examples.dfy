/**
 * Concrete calls of the Kotlin lexer, each showing one behaviour of the code
 * on a short text, starting from cursor 0 with the Kotlin keyword table.
 */
module LexExamples {
  import opened Wrappers
  import opened Scanning
  import opened Keywords
  import opened Input
  import opened Tokens
  import opened LexProperties

  /** "al" is none of the fifteen spellings. */
  lemma AlIsNoKeyword()
    ensures LookupKeyword(KotlinKeywordTable, "al") == KeywordNone
  {
    assert forall e :: 0 <= e < |KotlinKeywordTable| ==> KotlinKeywordTable[e].0 != "al";
    LookupKeywordSpec("al");
  }

  /** "val" is the seventh spelling. */
  lemma ValIsAKeyword()
    ensures LookupKeyword(KotlinKeywordTable, "val") == KeywordVal
  {
    assert KotlinKeywordTable[6].0 == "val";
    LookupKeywordSpec("val");
  }

  /** A call from the start of a text records line 1, position 0. */
  lemma StartAtZero(s: string)
    ensures Reset(s, 0) == TokenValue(KeywordOther, TokenOther, 1, 0, [])
  {
    assert s[..0] == [];
  }

  /** A run that starts the text, as a whole token from cursor 0. */
  lemma RunAtStart(keywords: KeywordTable, s: string, k: nat, word: string, kw: KeywordType, kind: TokenType)
    requires 0 < |s| && !IsBlank(s[0]) && PunctuationKind(s[0]).None? && !IsDigit(s[0])
    requires k == RunEnd(s, 1) && word == s[1..k]
    requires kw == LookupKeyword(keywords, CString(word))
    requires kind == if kw == KeywordNone then TokenIdentifier else TokenKeyword
    ensures Lex(keywords, s, 0) == Some(Step(TokenValue(kw, kind, 1, 0, word), k))
  {
    StartAtZero(s);
    ClassifiedFields(keywords, Reset(s, 0), word, kw, kind);
    LexRunCase(keywords, s, 0, 0, k);
  }

  /** The first character of a run is consumed but not stored: "val x" gives the identifier "al". */
  lemma FirstCharacterDropped()
    ensures Lex(KotlinKeywordTable, "val x", 0) ==
      Some(Step(TokenValue(KeywordNone, TokenIdentifier, 1, 0, "al"), 3))
  {
    var s := "val x";
    assert RunEnd(s, 3) == 3;
    assert RunEnd(s, 2) == 3;
    assert s[1..3] == "al";
    CStringWithoutNul("al");
    AlIsNoKeyword();
    RunAtStart(KotlinKeywordTable, s, 3, "al", KeywordNone, TokenIdentifier);
  }

  /** So a keyword is recognised one character late: "xval" gives the keyword val. */
  lemma KeywordAfterOneCharacter()
    ensures Lex(KotlinKeywordTable, "xval", 0) ==
      Some(Step(TokenValue(KeywordVal, TokenKeyword, 1, 0, "val"), 4))
  {
    var s := "xval";
    assert RunEnd(s, 4) == 4;
    assert RunEnd(s, 3) == 4;
    assert RunEnd(s, 2) == 4;
    assert s[1..4] == "val";
    CStringWithoutNul("val");
    ValIsAKeyword();
    RunAtStart(KotlinKeywordTable, s, 4, "val", KeywordVal, TokenKeyword);
  }

  /** A digit run not followed by '.' never returns: "42;" hangs. */
  lemma IntegerHangs()
    ensures Lex(KotlinKeywordTable, "42;", 0) == None
  {
    var s := "42;";
    assert DigitsEnd(s, 2) == 2;
    assert DigitsEnd(s, 1) == 2;
    LexNumber(KotlinKeywordTable, s, 0, 0);
  }

  /** A literal with a fraction and an 'f' is read whole: "3.14f)" gives the number "3.14f". */
  lemma FloatLiteral()
    ensures Lex(KotlinKeywordTable, "3.14f)", 0) ==
      Some(Step(TokenValue(KeywordOther, TokenNumber, 1, 0, "3.14f"), 5))
  {
    var s := "3.14f)";
    assert DigitsEnd(s, 1) == 1;
    assert DigitsEnd(s, 4) == 4;
    assert DigitsEnd(s, 3) == 4;
    assert DigitsEnd(s, 2) == 4;
    assert [s[0]] + s[1..5] == "3.14f";
    LexNumberCase(KotlinKeywordTable, s, 0, 0);
  }

  /** A token after a newline records the line the call started on: "\n(" is on line 2 but says line 1. */
  lemma StaleLine()
    ensures Lex(KotlinKeywordTable, "\n(", 0) ==
      Some(Step(TokenValue(KeywordOther, TokenParOpen, 1, 0, []), 2))
    ensures LineAt("\n(", 1) == 2
  {
    var s := "\n(";
    assert SkipBlanks(s, 1) == 1;
    assert s[..0] == [];
    LexPunctuation(KotlinKeywordTable, s, 0, 1);
    assert s[..1] == "\n";
  }
}
