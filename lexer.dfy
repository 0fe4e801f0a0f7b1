/**
 * The Kotlin lexer as the source runs it: read loops over the character
 * source that overwrite the fields of one token record. Each method is proved
 * against the functions of module Tokens.
 */
module KotlinLexer {
  import opened Wrappers
  import opened Scanning
  import opened Delimiters
  import opened Keywords
  import opened Input
  import opened Tokens

  /** A `struct Token`, overwritten by every lexer call. */
  class Token {
    var keyword: KeywordType
    /** The C field `token`: the kind of the token. */
    var kind: TokenType
    var lineNumber: nat
    var filePosition: nat
    var buffer: string

    /** A token with a fresh, empty buffer. */
    constructor ()
      ensures buffer == []
    {
      keyword, kind := KeywordOther, TokenOther;
      lineNumber, filePosition := 0, 0;
      buffer := [];
    }

    function Value(): TokenValue
      reads this
    {
      TokenValue(keyword, kind, lineNumber, filePosition, buffer)
    }

    /** The start of every lexer call: `keyword_other`, `token_other`, the given location, an empty buffer. */
    method Reset(line: nat, position: nat)
      modifies this
      ensures Value() == TokenValue(KeywordOther, TokenOther, line, position, [])
    {
      keyword, kind := KeywordOther, TokenOther;
      lineNumber, filePosition := line, position;
      buffer := [];
    }
  }

  /**
   * The first loop of `parse_number`: digits, then a '.' that ends the loop.
   * Any other character (or EOF) is pushed back; the source then reads it
   * again and pushes it back forever, and here `dot` is false at that point.
   */
  method ReadIntegerPart(src: InputFile) returns (part: string, dot: bool)
    requires src.Valid()
    modifies src
    ensures src.Valid()
    ensures old(src.cursor) <= src.cursor && part == src.text[old(src.cursor)..src.cursor]
    ensures var d := DigitsEnd(src.text, old(src.cursor));
      dot == (d < |src.text| && src.text[d] == '.') && src.cursor == if dot then d + 1 else d
  {
    ghost var s, i := src.text, src.cursor;
    ghost var d := DigitsEnd(s, i);
    DigitsSpan(s, i);
    part := [];
    while true
      invariant src.Valid() && i <= src.cursor <= d
      invariant part == s[i..src.cursor]
      decreases |s| - src.cursor
    {
      var ch := src.Getc();
      if '0' as int <= ch <= '9' as int {
        part := part + [ch as char];
      } else if ch == '.' as int {
        part := part + [ch as char];
        return part, true;
      } else {
        src.Ungetc(ch);
        return part, false;
      }
    }
  }

  /** The second loop of `parse_number`: digits, then one optional 'f'; anything else is pushed back. */
  method ReadFraction(src: InputFile) returns (part: string)
    requires src.Valid()
    modifies src
    ensures src.Valid()
    ensures old(src.cursor) <= src.cursor && part == src.text[old(src.cursor)..src.cursor]
    ensures var e := DigitsEnd(src.text, old(src.cursor));
      src.cursor == if e < |src.text| && src.text[e] == 'f' then e + 1 else e
  {
    ghost var s, i := src.text, src.cursor;
    ghost var e := DigitsEnd(s, i);
    DigitsSpan(s, i);
    part := [];
    while true
      invariant src.Valid() && i <= src.cursor <= e
      invariant part == s[i..src.cursor]
      decreases |s| - src.cursor
    {
      var ch := src.Getc();
      if '0' as int <= ch <= '9' as int {
        part := part + [ch as char];
      } else if ch == 'f' as int {
        part := part + [ch as char];
        return;
      } else {
        src.Ungetc(ch);
        return;
      }
    }
  }

  /**
   * `parse_number`: the leading digit is already in the buffer. Returns false
   * where the source's first loop never exits. Each loop collects its
   * characters in a local sequence, stored in the token when the routine
   * stops; nothing can observe the token in between.
   */
  method ParseNumber(src: InputFile, t: Token) returns (returned: bool)
    requires src.Valid()
    modifies src, t
    ensures src.Valid()
    ensures old(src.cursor) <= src.cursor
    ensures t.buffer == old(t.buffer) + src.text[old(src.cursor)..src.cursor]
    ensures returned == ScanNumber(src.text, old(src.cursor)).Some?
    ensures returned ==> src.cursor == ScanNumber(src.text, old(src.cursor)).value && t.kind == TokenNumber
    ensures !returned ==> src.cursor == DigitsEnd(src.text, old(src.cursor)) && t.kind == old(t.kind)
    ensures t.keyword == old(t.keyword) && t.lineNumber == old(t.lineNumber) && t.filePosition == old(t.filePosition)
  {
    ghost var s, i := src.text, src.cursor;
    var whole, dot := ReadIntegerPart(src);
    if !dot {
      t.buffer := t.buffer + whole;
      return false;
    }
    ghost var m := src.cursor;
    var fraction := ReadFraction(src);
    assert whole + fraction == s[i..src.cursor] by {
      SliceSplit(s, i, m, src.cursor);
    }
    t.buffer := t.buffer + (whole + fraction);
    t.kind := TokenNumber;
    return true;
  }

  /**
   * The first read loop of `token`: skip whitespace and consume the first
   * other character, giving its code, or EOF when the text ends first.
   */
  method ReadFirst(src: InputFile) returns (first: int)
    requires src.Valid()
    modifies src
    ensures src.Valid()
    ensures var j := SkipBlanks(src.text, old(src.cursor));
      if j == |src.text| then first == EOF && src.cursor == j
      else first == src.text[j] as int && src.cursor == j + 1
  {
    ghost var j := SkipBlanks(src.text, src.cursor);
    SkipBlanksSpan(src.text, src.cursor);
    while true
      invariant src.Valid() && old(src.cursor) <= src.cursor <= j
      decreases |src.text| - src.cursor
    {
      var ch := src.Getc();
      if ch == ' ' as int || ch == '\r' as int || ch == '\n' as int || ch == '\t' as int {
        continue;
      }
      if ch == EOF {
        return EOF;
      }
      return ch;
    }
  }

  /**
   * The digit branch of `token`: store the digit just read, then run
   * `parse_number` on the characters after it.
   */
  method ReadNumber(src: InputFile, t: Token, first: char) returns (returned: bool)
    requires src.Valid()
    modifies src, t
    ensures src.Valid()
    ensures returned == ScanNumber(src.text, old(src.cursor)).Some?
    ensures returned ==>
      src.cursor == ScanNumber(src.text, old(src.cursor)).value &&
      t.Value() == old(t.Value()).(kind := TokenNumber, buffer := old(t.buffer) + [first] + src.text[old(src.cursor)..src.cursor])
  {
    t.buffer := t.buffer + [first];
    returned := ParseNumber(src, t);
  }

  /**
   * The tail of `token` for any other first character: append characters up
   * to, not including, the first one the delimiter table marks (or to the end
   * of the text), then look the buffer up as a keyword. The buffer is empty
   * on entry, as `token` has just cleared it. The characters are
   * collected in a local sequence and stored in the token after the loop.
   */
  method ReadWord(src: InputFile, t: Token, delimiters: array<int>, keywords: KeywordTable)
    requires src.Valid()
    requires delimiters[..] == DelimiterTable()
    requires t.buffer == []
    modifies src, t
    ensures src.Valid()
    ensures src.cursor == RunEnd(src.text, old(src.cursor))
    ensures t.Value() == Classified(keywords, old(t.Value()), src.text[old(src.cursor)..src.cursor])
  {
    ghost var s, i := src.text, src.cursor;
    ghost var k := RunEnd(s, i);
    RunSpan(s, i);
    var buffer := [];
    while true
      invariant src.Valid() && i <= src.cursor <= k
      invariant buffer == s[i..src.cursor] && unchanged(t)
      decreases |s| - src.cursor
    {
      var ch := src.Getc();
      if ch == EOF {
        break;
      }
      if 0 <= ch < 128 && delimiters[ch] == 1 {
        src.Ungetc(ch);
        break;
      }
      buffer := buffer + [ch as char];
    }
    ghost var start := t.Value();
    t.buffer := buffer;
    t.keyword := LookupKeyword(keywords, CString(buffer));
    if t.keyword == KeywordNone {
      t.kind := TokenIdentifier;
    } else {
      t.kind := TokenKeyword;
    }
    ClassifiedFields(keywords, start, buffer, t.keyword, t.kind);
  }

  /**
   * `token`: one lexer call. Returns false only where `parse_number` never
   * returns; otherwise the token and the cursor are those `Lex` gives.
   */
  method NextToken(src: InputFile, t: Token, delimiters: array<int>, keywords: KeywordTable) returns (returned: bool)
    requires src.Valid()
    requires delimiters[..] == DelimiterTable()
    modifies src, t
    ensures src.Valid()
    ensures returned == Lex(keywords, src.text, old(src.cursor)).Some?
    ensures returned ==>
      t.Value() == Lex(keywords, src.text, old(src.cursor)).value.token &&
      src.cursor == Lex(keywords, src.text, old(src.cursor)).value.cursor
  {
    ghost var s, i := src.text, src.cursor;
    ghost var j := SkipBlanks(s, i);
    t.Reset(src.LineNumber(), src.FilePosition());
    ghost var start := t.Value();
    assert start == Reset(s, i);

    var first := ReadFirst(src);
    if first == EOF {
      LexAtEnd(keywords, s, i);
      return true;
    }

    var punctuation := PunctuationKind(first as char);
    if punctuation.Some? {
      t.kind := punctuation.value;
      LexPunctuationCase(keywords, s, i, j);
      return true;
    }

    if '0' as int <= first <= '9' as int {
      returned := ReadNumber(src, t, first as char);
      LexNumberCase(keywords, s, i, j);
      if returned {
        assert t.Value() == start.(kind := TokenNumber, buffer := [s[j]] + s[j + 1..src.cursor]);
      }
      return;
    }

    // `first` is not stored: the buffer starts with the character after it
    ReadWord(src, t, delimiters, keywords);
    assert t.Value() == Classified(keywords, start, s[j + 1..src.cursor]);
    LexRunCase(keywords, s, i, j, src.cursor);
    return true;
  }

  /** `skip_until_eol`: consume through the next newline, or to the end of the text. */
  method SkipUntilEol(src: InputFile)
    requires src.Valid()
    modifies src
    ensures src.Valid()
    ensures src.cursor == LineEnd(src.text, old(src.cursor))
  {
    ghost var s, i := src.text, src.cursor;
    ghost var k := NewlineFrom(s, i);
    NewlineFreeSpan(s, i);
    while true
      invariant src.Valid() && i <= src.cursor <= k
      decreases |s| - src.cursor
    {
      var ch := src.Getc();
      if ch == EOF || ch == '\n' as int {
        return;
      }
    }
  }
}
