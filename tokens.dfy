/**
 * What one call of the Kotlin lexer does, as a function of the input text and
 * the cursor at the start of the call: the token it leaves behind and where the
 * cursor ends, or `None` where the call never returns.
 */
module Tokens {
  import opened Wrappers
  import opened Scanning
  import opened Delimiters
  import opened Keywords
  import opened Input

  /** The codes of `enum TokenType`, in declaration order. */
  datatype TokenType =
    | TokenKeyword | TokenIdentifier | TokenString | TokenNumber
    | TokenParOpen | TokenParClose | TokenCurlyOpen | TokenCurlyClose
    | TokenSquareOpen | TokenSquareClose | TokenArrowOpen | TokenArrowClose
    | TokenSem | TokenComma | TokenDot | TokenStar | TokenOther

  /** The contents of a `struct Token`; the location is the model's line count and the cursor. */
  datatype TokenValue = TokenValue(
    keyword: KeywordType,
    kind: TokenType,
    lineNumber: nat,
    filePosition: nat,
    buffer: string)

  /** The outcome of a returning lexer call: the token and the cursor after it. */
  datatype Step = Step(token: TokenValue, cursor: nat)

  /** The whitespace skipped before a token. */
  predicate IsBlank(c: char)
  {
    c == ' ' || c == '\r' || c == '\n' || c == '\t'
  }

  predicate IsDigit(c: char)
  {
    '0' <= c <= '9'
  }

  /**
   * A character that does not end an identifier or keyword run: one the
   * delimiter table does not mark (see `InRunIsTableLookup`).
   */
  predicate InRun(c: char)
  {
    !(c as int < 128 && IsDelimiterCode(c as int))
  }

  /** `InRun` is what consulting the initialised delimiter table gives. */
  lemma InRunIsTableLookup(c: char)
    ensures InRun(c) <==> !EndsRun(DelimiterTable(), c as int)
    ensures c as int >= 128 ==> InRun(c)
  {
  }

  // Each read loop of the lexer stops at the first character that fails its
  // test; these give that index (or the end of the text) for each loop.

  /** The first index at or after `i` that is not whitespace. */
  function SkipBlanks(s: string, i: nat): (j: nat)
    requires i <= |s|
    ensures i <= j <= |s|
    ensures j < |s| ==> !IsBlank(s[j])
    decreases |s| - i
  {
    if i == |s| || !IsBlank(s[i]) then i else SkipBlanks(s, i + 1)
  }

  /** The first index at or after `i` that is not a decimal digit. */
  function DigitsEnd(s: string, i: nat): (j: nat)
    requires i <= |s|
    ensures i <= j <= |s|
    ensures j < |s| ==> !IsDigit(s[j])
    decreases |s| - i
  {
    if i == |s| || !IsDigit(s[i]) then i else DigitsEnd(s, i + 1)
  }

  /** The first index at or after `i` whose character ends a run. */
  function RunEnd(s: string, i: nat): (j: nat)
    requires i <= |s|
    ensures i <= j <= |s|
    ensures j < |s| ==> !InRun(s[j])
    decreases |s| - i
  {
    if i == |s| || !InRun(s[i]) then i else RunEnd(s, i + 1)
  }

  /** The first index at or after `i` holding a newline. */
  function NewlineFrom(s: string, i: nat): (j: nat)
    requires i <= |s|
    ensures i <= j <= |s|
    ensures j < |s| ==> s[j] == '\n'
    decreases |s| - i
  {
    if i == |s| || s[i] == '\n' then i else NewlineFrom(s, i + 1)
  }

  /** Every character `SkipBlanks` passes over is whitespace. */
  lemma {:induction false} SkipBlanksSpan(s: string, i: nat)
    requires i <= |s|
    ensures forall k :: i <= k < SkipBlanks(s, i) ==> IsBlank(s[k])
    decreases |s| - i
  {
    if i < |s| && IsBlank(s[i]) {
      SkipBlanksSpan(s, i + 1);
    }
  }

  /** Every character `DigitsEnd` passes over is a digit. */
  lemma {:induction false} DigitsSpan(s: string, i: nat)
    requires i <= |s|
    ensures forall k :: i <= k < DigitsEnd(s, i) ==> IsDigit(s[k])
    decreases |s| - i
  {
    if i < |s| && IsDigit(s[i]) {
      DigitsSpan(s, i + 1);
    }
  }

  /** Every character `RunEnd` passes over belongs to the run. */
  lemma {:induction false} RunSpan(s: string, i: nat)
    requires i <= |s|
    ensures forall k :: i <= k < RunEnd(s, i) ==> InRun(s[k])
    decreases |s| - i
  {
    if i < |s| && InRun(s[i]) {
      RunSpan(s, i + 1);
    }
  }

  /** No character `NewlineFrom` passes over is a newline. */
  lemma {:induction false} NewlineFreeSpan(s: string, i: nat)
    requires i <= |s|
    ensures forall k :: i <= k < NewlineFrom(s, i) ==> s[k] != '\n'
    decreases |s| - i
  {
    if i < |s| && s[i] != '\n' {
      NewlineFreeSpan(s, i + 1);
    }
  }

  /** The eleven characters that form a token on their own, with their kinds. */
  function PunctuationKind(c: char): (r: Option<TokenType>)
    ensures r.Some? ==> r.value !in {TokenKeyword, TokenIdentifier, TokenString, TokenNumber, TokenStar, TokenOther}
  {
    match c
    case '(' => Some(TokenParOpen)
    case ')' => Some(TokenParClose)
    case '{' => Some(TokenCurlyOpen)
    case '}' => Some(TokenCurlyClose)
    case '[' => Some(TokenSquareOpen)
    case ']' => Some(TokenSquareClose)
    case '.' => Some(TokenDot)
    case ',' => Some(TokenComma)
    case '<' => Some(TokenArrowOpen)
    case '>' => Some(TokenArrowClose)
    case ';' => Some(TokenSem)
    case _ => None
  }

  /**
   * The number scan from cursor `i`, the leading digit being already read:
   * the cursor after it, every character before which it appends to the
   * buffer. It returns only when the digit run ends in '.'; otherwise the scan
   * keeps pushing back and re-reading the same character (or EOF) and never
   * returns.
   */
  function ScanNumber(s: string, i: nat): (r: Option<nat>)
    requires i <= |s|
    ensures r.Some? ==> i < r.value <= |s| && DigitsEnd(s, i) < |s| && s[DigitsEnd(s, i)] == '.'
  {
    var dot := DigitsEnd(s, i);
    if dot == |s| || s[dot] != '.' then None
    else
      var end := DigitsEnd(s, dot + 1);
      if end < |s| && s[end] == 'f' then Some(end + 1) else Some(end)
  }

  /** The token as a call starting at cursor `i` first resets it. */
  function Reset(s: string, i: nat): TokenValue
    requires i <= |s|
  {
    TokenValue(KeywordOther, TokenOther, LineAt(s, i), i, [])
  }

  /** A scanned run, stored in the buffer and classified by lookup in `keywords`. */
  function Classified(keywords: KeywordTable, start: TokenValue, word: string): TokenValue
  {
    var kw := LookupKeyword(keywords, CString(word));
    start.(keyword := kw, kind := if kw == KeywordNone then TokenIdentifier else TokenKeyword, buffer := word)
  }

  /** `Classified` field by field, given the lookup's answer: an unfolding step for the lexer proofs. */
  lemma ClassifiedFields(keywords: KeywordTable, start: TokenValue, word: string, kw: KeywordType, kind: TokenType)
    requires kw == LookupKeyword(keywords, CString(word))
    requires kind == if kw == KeywordNone then TokenIdentifier else TokenKeyword
    ensures Classified(keywords, start, word) == start.(keyword := kw, kind := kind, buffer := word)
  {
  }

  /** One lexer call with the cursor at `i`, keywords being looked up in `keywords`. */
  function Lex(keywords: KeywordTable, s: string, i: nat): (r: Option<Step>)
    requires i <= |s|
    ensures r.Some? ==> i <= r.value.cursor <= |s|
    ensures r.Some? ==> r.value.token.lineNumber == LineAt(s, i) && r.value.token.filePosition == i
  {
    var j := SkipBlanks(s, i);
    if j == |s| then Some(Step(Reset(s, i), |s|))
    else if PunctuationKind(s[j]).Some? then
      Some(Step(Reset(s, i).(kind := PunctuationKind(s[j]).value), j + 1))
    else if IsDigit(s[j]) then
      match ScanNumber(s, j + 1)
      case None => None
      case Some(k) => Some(Step(Reset(s, i).(kind := TokenNumber, buffer := [s[j]] + s[j + 1..k]), k))
    else
      // s[j] has been consumed but is not stored in the buffer
      var k := RunEnd(s, j + 1);
      Some(Step(Classified(keywords, Reset(s, i), s[j + 1..k]), k))
  }

  // Unfolding lemmas for the proof of `NextToken`: the four ways a call ends,
  // one branch of `Lex` each; `j` is where the whitespace ends. They restate
  // `Lex` and are proof steps, not properties.

  lemma LexAtEnd(keywords: KeywordTable, s: string, i: nat)
    requires i <= |s| && SkipBlanks(s, i) == |s|
    ensures Lex(keywords, s, i) == Some(Step(Reset(s, i), |s|))
  {
  }

  lemma LexPunctuationCase(keywords: KeywordTable, s: string, i: nat, j: nat)
    requires i <= |s| && j == SkipBlanks(s, i) && j < |s| && PunctuationKind(s[j]).Some?
    ensures Lex(keywords, s, i) == Some(Step(Reset(s, i).(kind := PunctuationKind(s[j]).value), j + 1))
  {
  }

  lemma LexNumberCase(keywords: KeywordTable, s: string, i: nat, j: nat)
    requires i <= |s| && j == SkipBlanks(s, i) && j < |s| && PunctuationKind(s[j]).None? && IsDigit(s[j])
    ensures Lex(keywords, s, i).Some? <==> ScanNumber(s, j + 1).Some?
    ensures ScanNumber(s, j + 1).Some? ==>
      Lex(keywords, s, i) == Some(Step(Reset(s, i).(kind := TokenNumber, buffer := [s[j]] + s[j + 1..ScanNumber(s, j + 1).value]),
                             ScanNumber(s, j + 1).value))
  {
  }

  lemma LexRunCase(keywords: KeywordTable, s: string, i: nat, j: nat, k: nat)
    requires i <= |s| && j == SkipBlanks(s, i) && j < |s| && PunctuationKind(s[j]).None? && !IsDigit(s[j])
    requires k == RunEnd(s, j + 1)
    ensures Lex(keywords, s, i) == Some(Step(Classified(keywords, Reset(s, i), s[j + 1..k]), k))
  {
  }

  /**
   * Where skipping to the end of the line from `i` leaves the cursor: just past
   * the first newline, or at the end of the text if there is none.
   */
  function LineEnd(s: string, i: nat): (r: nat)
    requires i <= |s|
    ensures i <= r <= |s|
    ensures (i < r && s[r - 1] == '\n' && '\n' !in s[i..r - 1]) || (r == |s| && '\n' !in s[i..])
  {
    var k := NewlineFrom(s, i);
    NewlineFreeSpan(s, i);
    assert forall c :: c in s[i..k] ==> c != '\n';
    if k < |s| then k + 1 else k
  }
}
