/**
 * What one lexer call promises, stated over `Tokens.Lex` and proved for every
 * text and cursor: the whitespace it skips, the tokens each kind of first
 * character gives, where the cursor ends, and the location a token carries.
 */
module LexProperties {
  import opened Wrappers
  import opened Scanning
  import opened Delimiters
  import opened Keywords
  import opened Input
  import opened Tokens

  /** Starting anywhere inside the whitespace before a token reaches the same token start. */
  lemma {:induction false} SkipBlanksFrom(s: string, i: nat, m: nat)
    requires i <= |s| && i <= m <= SkipBlanks(s, i)
    ensures SkipBlanks(s, m) == SkipBlanks(s, i)
    decreases m - i
  {
    if i < m {
      SkipBlanksFrom(s, i + 1, m);
    }
  }

  /** When everything from `i` on is whitespace, the skip reaches the end of the text. */
  lemma {:induction false} SkipBlanksToEnd(s: string, i: nat)
    requires i <= |s|
    requires forall k :: i <= k < |s| ==> IsBlank(s[k])
    ensures SkipBlanks(s, i) == |s|
    decreases |s| - i
  {
    if i < |s| {
      SkipBlanksToEnd(s, i + 1);
    }
  }

  /**
   * Whitespace before a token changes nothing but the location the token
   * records: calls from anywhere in the run of whitespace agree on whether
   * they return, the cursor, the keyword, the kind and the buffer.
   */
  lemma LexIgnoresLeadingBlanks(keywords: KeywordTable, s: string, i: nat, m: nat)
    requires i <= |s| && i <= m <= SkipBlanks(s, i)
    ensures Lex(keywords, s, m).Some? == Lex(keywords, s, i).Some?
    ensures Lex(keywords, s, i).Some? ==>
      Lex(keywords, s, m).value ==
        Lex(keywords, s, i).value.(token := Lex(keywords, s, i).value.token.(lineNumber := LineAt(s, m), filePosition := m))
  {
    SkipBlanksFrom(s, i, m);
  }

  /**
   * A call leaves kind `token_other` exactly when only whitespace remains; the
   * token is then the reset one and the cursor is at the end of the text.
   */
  lemma LexEndOfInput(keywords: KeywordTable, s: string, i: nat)
    requires i <= |s|
    ensures (forall k :: i <= k < |s| ==> IsBlank(s[k])) <==>
      Lex(keywords, s, i).Some? && Lex(keywords, s, i).value.token.kind == TokenOther
    ensures (forall k :: i <= k < |s| ==> IsBlank(s[k])) ==>
      Lex(keywords, s, i) == Some(Step(TokenValue(KeywordOther, TokenOther, LineAt(s, i), i, []), |s|))
  {
    SkipBlanksSpan(s, i);
    if forall k :: i <= k < |s| ==> IsBlank(s[k]) {
      SkipBlanksToEnd(s, i);
    }
  }

  /**
   * The eleven single-character tokens: which characters they are, that each
   * maps to its own punctuation kind, and that no two share one.
   */
  lemma PunctuationKindSpec(c: char, d: char)
    ensures PunctuationKind(c).Some? <==> c in "(){}[].,<>;"
    ensures PunctuationKind(c).Some? ==>
      PunctuationKind(c).value !in {TokenKeyword, TokenIdentifier, TokenString, TokenNumber, TokenStar, TokenOther}
    ensures PunctuationKind(c).Some? && PunctuationKind(c) == PunctuationKind(d) ==> c == d
  {
  }

  /**
   * A punctuation character after the whitespace makes a one-character token:
   * the cursor just past it, an empty buffer, `keyword_other` and the
   * character's own kind. Conversely a token of a punctuation kind comes only
   * from such a character.
   */
  lemma LexPunctuation(keywords: KeywordTable, s: string, i: nat, j: nat)
    requires i <= |s| && j == SkipBlanks(s, i) && j < |s|
    ensures s[j] in "(){}[].,<>;" <==>
      Lex(keywords, s, i).Some? &&
      Lex(keywords, s, i).value.token.kind !in {TokenKeyword, TokenIdentifier, TokenNumber, TokenOther}
    ensures s[j] in "(){}[].,<>;" ==>
      Lex(keywords, s, i).Some? &&
      Lex(keywords, s, i).value.cursor == j + 1 &&
      Lex(keywords, s, i).value.token.buffer == [] &&
      Lex(keywords, s, i).value.token.keyword == KeywordOther &&
      Some(Lex(keywords, s, i).value.token.kind) == PunctuationKind(s[j])
  {
    PunctuationKindSpec(s[j], s[j]);
    if PunctuationKind(s[j]).Some? {
      LexPunctuationCase(keywords, s, i, j);
    } else if IsDigit(s[j]) {
      LexNumberCase(keywords, s, i, j);
    } else {
      LexRunCase(keywords, s, i, j, RunEnd(s, j + 1));
    }
  }

  /**
   * Any other character starts a run. The call returns; the character itself
   * is consumed but left out of the buffer, which holds what follows it up to,
   * not including, the first character the delimiter table marks (or to the
   * end of the text), and the cursor stops there. The kind is `token_keyword`
   * or `token_identifier` as the lookup of the buffer hits or misses.
   */
  lemma LexRun(keywords: KeywordTable, s: string, i: nat, j: nat)
    requires i <= |s| && j == SkipBlanks(s, i) && j < |s|
    requires s[j] !in "(){}[].,<>;" && !IsDigit(s[j])
    ensures Lex(keywords, s, i).Some?
    ensures var r := Lex(keywords, s, i).value;
      j + 1 <= r.cursor <= |s| &&
      r.token.buffer == s[j + 1..r.cursor] &&
      (forall k :: j + 1 <= k < r.cursor ==> !EndsRun(DelimiterTable(), s[k] as int)) &&
      (r.cursor < |s| ==> EndsRun(DelimiterTable(), s[r.cursor] as int))
    ensures var r := Lex(keywords, s, i).value;
      r.token.keyword == LookupKeyword(keywords, CString(r.token.buffer)) &&
      r.token.kind == (if r.token.keyword == KeywordNone then TokenIdentifier else TokenKeyword)
  {
    PunctuationKindSpec(s[j], s[j]);
    var k := RunEnd(s, j + 1);
    LexRunCase(keywords, s, i, j, k);
    RunSpan(s, j + 1);
    forall m | j + 1 <= m < k
      ensures !EndsRun(DelimiterTable(), s[m] as int)
    {
      InRunIsTableLookup(s[m]);
    }
    if k < |s| {
      InRunIsTableLookup(s[k]);
    }
  }

  /**
   * With the Kotlin table, a run is a keyword exactly when its buffer (up to
   * any NUL, which real input never holds) is one of the fifteen spellings, and the keyword field is then
   * that spelling's code; otherwise it is an identifier with `KEYWORD_NONE`.
   */
  lemma LexKotlinKeyword(s: string, i: nat, j: nat)
    requires i <= |s| && j == SkipBlanks(s, i) && j < |s|
    requires s[j] !in "(){}[].,<>;" && !IsDigit(s[j])
    ensures var r := Lex(KotlinKeywordTable, s, i).value;
      r.token.kind == TokenKeyword <==>
        exists e :: 0 <= e < |KotlinKeywordTable| && KotlinKeywordTable[e].0 == CString(r.token.buffer)
    ensures var r := Lex(KotlinKeywordTable, s, i).value;
      forall e :: 0 <= e < |KotlinKeywordTable| && KotlinKeywordTable[e].0 == CString(r.token.buffer) ==>
        r.token.keyword == KotlinKeywordTable[e].1
    ensures var r := Lex(KotlinKeywordTable, s, i).value;
      r.token.kind == TokenIdentifier <==> r.token.keyword == KeywordNone
  {
    LexRun(KotlinKeywordTable, s, i, j);
    LookupKeywordSpec(CString(Lex(KotlinKeywordTable, s, i).value.token.buffer));
  }

  /**
   * The text of a number token: digits around a single '.', at least one
   * before it, and possibly a final 'f' after it.
   */
  predicate NumberText(b: string)
  {
    exists d :: 0 < d < |b| && b[d] == '.' &&
      forall k :: 0 <= k < |b| && k != d ==> IsDigit(b[k]) || (d < k == |b| - 1 && b[k] == 'f')
  }

  /**
   * The text a returning number scan covers, from the leading digit at
   * `i - 1`, has the shape of a number literal; and unless it ends in 'f' the
   * character after it is neither a digit nor 'f'.
   */
  lemma ScanNumberText(s: string, i: nat)
    requires 0 < i <= |s| && IsDigit(s[i - 1]) && ScanNumber(s, i).Some?
    ensures i < ScanNumber(s, i).value <= |s|
    ensures NumberText(s[i - 1..ScanNumber(s, i).value])
    ensures var c := ScanNumber(s, i).value;
      s[c - 1] != 'f' && c < |s| ==> !IsDigit(s[c]) && s[c] != 'f'
  {
    var dot := DigitsEnd(s, i);
    var c := ScanNumber(s, i).value;
    DigitsSpan(s, i);
    DigitsSpan(s, dot + 1);
    var b := s[i - 1..c];
    var d := dot - (i - 1);
    forall k | 0 <= k < |b| && k != d
      ensures IsDigit(b[k]) || (d < k == |b| - 1 && b[k] == 'f')
    {
      assert b[k] == s[i - 1 + k];
    }
    assert b[d] == '.';
  }

  /**
   * A digit starts a number. The call returns exactly when the digits that
   * follow are followed by a '.'; it then leaves `token_number` with the whole
   * literal, leading digit included, in the buffer, and the cursor just after
   * it. Unless the literal ends in 'f', the character that stopped the scan is
   * pushed back: the cursor sits on it.
   */
  lemma LexNumber(keywords: KeywordTable, s: string, i: nat, j: nat)
    requires i <= |s| && j == SkipBlanks(s, i) && j < |s| && IsDigit(s[j])
    ensures Lex(keywords, s, i).Some? <==> DigitsEnd(s, j + 1) < |s| && s[DigitsEnd(s, j + 1)] == '.'
    ensures Lex(keywords, s, i).Some? ==>
      var r := Lex(keywords, s, i).value;
      j < r.cursor <= |s| &&
      r.token.kind == TokenNumber && r.token.keyword == KeywordOther &&
      r.token.buffer == s[j..r.cursor] && NumberText(r.token.buffer) &&
      (s[r.cursor - 1] != 'f' && r.cursor < |s| ==> !IsDigit(s[r.cursor]) && s[r.cursor] != 'f')
  {
    PunctuationKindSpec(s[j], s[j]);
    LexNumberCase(keywords, s, i, j);
    if ScanNumber(s, j + 1).Some? {
      var c := ScanNumber(s, j + 1).value;
      ScanNumberText(s, j + 1);
      ConsSlice(s, j, c);
      assert Lex(keywords, s, i).value == Step(Reset(s, i).(kind := TokenNumber, buffer := s[j..c]), c);
    }
  }

  /**
   * The location a token records is sampled once, when the call starts and
   * before the whitespace is skipped: the line and position of cursor `i`.
   * When the skipped whitespace holds a newline, the recorded line is lower
   * than the line the token actually starts on.
   */
  lemma LexLocation(keywords: KeywordTable, s: string, i: nat)
    requires i <= |s|
    ensures Lex(keywords, s, i).Some? ==>
      Lex(keywords, s, i).value.token.lineNumber == LineAt(s, i) &&
      Lex(keywords, s, i).value.token.filePosition == i
    ensures '\n' in s[i..SkipBlanks(s, i)] ==> LineAt(s, i) < LineAt(s, SkipBlanks(s, i))
  {
    var j := SkipBlanks(s, i);
    LineAtMonotone(s, i, j);
    if j == |s| {
      LexAtEnd(keywords, s, i);
    } else if PunctuationKind(s[j]).Some? {
      LexPunctuationCase(keywords, s, i, j);
    } else if IsDigit(s[j]) {
      LexNumberCase(keywords, s, i, j);
    } else {
      LexRunCase(keywords, s, i, j, RunEnd(s, j + 1));
    }
  }

  /**
   * A returning call never moves the cursor back, and either reaches the end
   * of the text or consumes the first character after the whitespace; it
   * never produces `token_string` or `token_star`, which no branch assigns.
   */
  lemma LexProgress(keywords: KeywordTable, s: string, i: nat)
    requires i <= |s|
    ensures Lex(keywords, s, i).Some? ==>
      var r := Lex(keywords, s, i).value;
      i <= r.cursor <= |s| && (r.cursor == |s| || SkipBlanks(s, i) < r.cursor) &&
      r.token.kind != TokenString && r.token.kind != TokenStar
  {
    var j := SkipBlanks(s, i);
    if j == |s| {
      LexAtEnd(keywords, s, i);
    } else if PunctuationKind(s[j]).Some? {
      LexPunctuationCase(keywords, s, i, j);
      PunctuationKindSpec(s[j], s[j]);
    } else if IsDigit(s[j]) {
      LexNumberCase(keywords, s, i, j);
    } else {
      LexRunCase(keywords, s, i, j, RunEnd(s, j + 1));
    }
  }

  /**
   * Skipping to the end of the line moves to the next line exactly when a
   * newline remains, and otherwise stays on the current one.
   */
  lemma LineEndLine(s: string, i: nat)
    requires i <= |s|
    ensures '\n' in s[i..] ==> LineAt(s, LineEnd(s, i)) == LineAt(s, i) + 1
    ensures '\n' !in s[i..] ==> LineEnd(s, i) == |s| && LineAt(s, LineEnd(s, i)) == LineAt(s, i)
  {
    var r := LineEnd(s, i);
    NewlinesSplit(s, i, r);
    if '\n' in s[i..] {
      assert s[i..r] == s[i..r - 1] + [s[r - 1]];
      NewlinesPositive(s[i..r - 1]);
      assert NewlinesIn(s[i..r]) == NewlinesIn(s[i..r - 1]) + 1 by {
        assert s[i..r][..|s[i..r]| - 1] == s[i..r - 1];
      }
    } else {
      assert s[i..r] == s[i..];
      NewlinesPositive(s[i..r]);
    }
  }
}
