# The ctags Kotlin lexer, modelled in Dafny

This project models the tokenizer at the heart of the Kotlin parser of
ctags (`parsers/kotlin.c`). It covers the table of delimiter characters
and how it is set up. It covers the token record that every lexer call
overwrites, the keyword table the parser registers, and the number scanner
`parse_number`. It also covers the lexer call `token` and the line skipper
`skip_until_eol`.

The host's input layer turns into a class `Input.InputFile`. It holds the
whole text and a cursor. `Getc` reads the next character, or `EOF` (-1)
at the end of the text. `Ungetc` pushes back the character just read. For
the location of a token the model makes its own choice: it counts lines as
one plus the number of newlines before the cursor (`Input.LineAt`), and it
uses the cursor as the file position. Every statement below about line
numbers is about that count.

The lexer is a set of imperative methods (module `KotlinLexer`). They run
read loops over that input and update the fields of one `Token` object in
place. Each method is proved against value-level functions in module
`Tokens`. `Lex` gives, for a text and a cursor, the token and the new
cursor of one `token` call, or `None` when the call does not return.
The keyword table is a parameter of `Lex` and of the lexer methods. The
Kotlin parser registers `KotlinKeywordTable` (`parsers/kotlin.c:269-270`).
Module `LexProperties` proves what a call yields in each of its cases.
Module `LexExamples` works concrete inputs through `Lex`.

The model follows the code as written, including these behaviours:

- The first character of an identifier or keyword is consumed but never
  stored. The only `vStringPut` for it sits after a `break` in the
  whitespace loop, so `val x` gives the identifier `al`, and `xval` gives
  the keyword `val`.
- The line number and file position are taken before whitespace is
  skipped. A token after a newline therefore carries the line it started
  searching from.
- `parse_number` returns only when the digits after the leading one end
  in `.`. On any other character its first loop pushes the character back
  and reads it again forever, so an integer such as `42` hangs the lexer.
  The model keeps every method terminating: `ParseNumber` and `NextToken`
  return `false`, and `Lex` gives `None`, at the character the first loop
  would push back and re-read forever. Nothing in `parsers/kotlin.c` calls
  `token` or `skip_until_eol` yet, and `find_kotlin_tags` emits no tags, so
  this hang is latent: the parser as shipped does not run into it.
- A failed keyword lookup stores `keyword_none`, the host's "not found"
  code, which is not one of the parser's own `KeywordType` values. The
  model adds the constructor `KeywordNone` for it.

The code has no tokens for `:`, `$` or `/`. It has no separate
end-of-input token kind: at the end of the text a call returns
`token_other` with an empty buffer. Underscores are not accepted inside
numbers. The keyword table has 15 entries.

## Model

| member | source | states |
|---|---|---|
| Delimiters.InitDelimiters | parsers/kotlin.c:87-104 | after the call the 128-entry array holds exactly the delimiter table: 1 at the ten delimiter codes, 0 everywhere else |
| Delimiters.DelimiterEntries | parsers/kotlin.c:91-102 | an entry is 1 exactly at codes 9, 10, 13, 32, 40, 41, 44, 59, 123 and 125 (tab, newline, carriage return, space, parentheses, comma, semicolon, braces) and 0 at all other codes |
| Delimiters.DelimiterCount | parsers/kotlin.c:93-102 | exactly ten codes are marked as delimiters |
| Keywords.KotlinKeywordCodes | parsers/kotlin.c:69-85 | the Kotlin table (`Keywords.KotlinKeywordTable`) has 15 entries, and the codes it can give are exactly the 15 codes other than keyword_other; no entry carries keyword_other or keyword_none |
| Keywords.KotlinKeywordCodesDistinct | parsers/kotlin.c:69-85 | no code appears twice in the Kotlin table |
| Keywords.LookupFrom | parsers/kotlin.c:229 | a search from entry `i` gives keyword_none or the code of some later entry spelled exactly `name` |
| Keywords.LookupKeyword | parsers/kotlin.c:229 | a lookup gives keyword_none or the code of an entry spelled exactly `name`; it never invents a code |
| Keywords.LookupInDistinctTable | parsers/kotlin.c:229 | in any table with distinct spellings and real codes, a lookup hits if and only if the name is spelled by an entry, and then gives that entry's code |
| Keywords.LookupFromSpec | parsers/kotlin.c:229 | a lookup that starts at entry `i` gives keyword_none when no later entry has the spelling, and otherwise gives the code of the first entry that does |
| Keywords.SpellingsDistinct | parsers/kotlin.c:69-85 | no two entries of the Kotlin keyword table share a spelling |
| Keywords.LookupKeywordSpec | parsers/kotlin.c:69-85 | in the Kotlin table a name is found if and only if it is one of the 15 spellings, it then gives that entry's code, and it never gives keyword_other |
| Scanning.CString | parsers/kotlin.c:229 | the name handed to the lookup is the prefix of the buffer up to its first NUL (for real input, which holds none, the whole buffer): it is a prefix, it holds no NUL, and it ends at a NUL when it is shorter than the buffer |
| Scanning.CStringWithoutNul | parsers/kotlin.c:229 | a buffer without NUL characters is seen whole |
| Input.InputFile.Getc | parsers/kotlin.c:122 | a read gives the character under the cursor and advances by one, or gives EOF at the end of the text and leaves the cursor where it is |
| Input.InputFile.Ungetc | parsers/kotlin.c:129 | pushing back the character just read moves the cursor back by one; pushing back EOF changes nothing |
| Input.LineAt | parsers/kotlin.c:156 | the model's line count is at least 1, and it is 1 exactly while no newline has been read |
| Input.LineAtMonotone | parsers/kotlin.c:156 | the reported line never decreases as the cursor moves forward, and it increases when a newline is passed |
| Tokens.SkipBlanksSpan | parsers/kotlin.c:161-163 | every character the whitespace loop skips is a space, tab, carriage return or newline, and it stops at the first other character or at the end |
| Tokens.DigitsSpan | parsers/kotlin.c:121-124 | every character a digit loop consumes is a decimal digit, and it stops at the first non-digit or at the end |
| Tokens.RunSpan | parsers/kotlin.c:216-227 | every character the identifier loop appends is one the delimiter table does not mark, and it stops at the first marked one or at the end |
| Tokens.NewlineFreeSpan | parsers/kotlin.c:238-241 | the line skipper passes no newline before the one it stops at |
| Tokens.InRunIsTableLookup | parsers/kotlin.c:222 | a character continues an identifier exactly when the initialised table has no 1 at its code; codes of 128 and above never end a run |
| Tokens.PunctuationKind | parsers/kotlin.c:174-208 | a character that forms a token on its own gets a punctuation kind, never keyword, identifier, string, number, star or other |
| Tokens.ScanNumber | parsers/kotlin.c:117-150 | a number scan returns only when the digit run ends in `.`, and then stops past that dot and within the text |
| Tokens.Lex | parsers/kotlin.c:153-235 | a call that returns leaves the cursor between its start and the end of the text, and records the line and position of where it started |
| Tokens.LineEnd | parsers/kotlin.c:237-242 | skipping a line leaves the cursor just past the first newline at or after it, or at the end of the text when no newline follows |
| KotlinLexer.Token.Reset | parsers/kotlin.c:154-158 | every call starts from keyword_other, token_other, the given line and position and an empty buffer |
| KotlinLexer.ReadIntegerPart | parsers/kotlin.c:121-132 | the first loop of the number scan consumes the digits and a following `.`; when no `.` follows it stops on the first other character, where the source loops forever |
| KotlinLexer.ReadFraction | parsers/kotlin.c:135-146 | the second loop consumes the digits and one optional `f`, leaving any other character unread |
| KotlinLexer.ParseNumber | parsers/kotlin.c:117-150 | the characters consumed are appended to the buffer; the call returns exactly when the digit run ends in `.`; it then stops after the fraction digits and one optional `f` and sets token_number; otherwise it stops where the source would loop forever, with the kind unchanged |
| KotlinLexer.ReadNumber | parsers/kotlin.c:210-213 | the digit branch stores the digit just read and runs the number scan; when it returns the token is a number whose buffer is that digit followed by everything scanned |
| KotlinLexer.ReadFirst | parsers/kotlin.c:160-172 | the whitespace loop consumes the blanks and the first other character and gives its code, or gives EOF with the cursor at the end of the text |
| KotlinLexer.ReadWord | parsers/kotlin.c:216-234 | the identifier loop stops at the first delimiter (left unread) or at the end; the token holds exactly the characters read and is classified by the keyword lookup |
| KotlinLexer.NextToken | parsers/kotlin.c:153-235 | one lexer call returns exactly when `Lex` gives a result, and then leaves the token and the cursor as `Lex` gives them |
| KotlinLexer.SkipUntilEol | parsers/kotlin.c:237-242 | the cursor ends just past the next newline, or at the end of the text |
| LexProperties.SkipBlanksFrom | parsers/kotlin.c:161-163 | starting the whitespace skip anywhere inside a run of blanks reaches the same character |
| LexProperties.SkipBlanksToEnd | parsers/kotlin.c:161-163 | the whitespace skip reaches the end of the text when only blanks follow |
| LexProperties.LexIgnoresLeadingBlanks | parsers/kotlin.c:154-163 | a call from anywhere in the leading whitespace gives the same token and cursor, except for the line and position it records |
| LexProperties.LexEndOfInput | parsers/kotlin.c:162-164 | only blanks remain if and only if the call gives token_other; it then gives an empty buffer and leaves the cursor at the end |
| LexProperties.PunctuationKindSpec | parsers/kotlin.c:174-208 | exactly the eleven characters `( ) { } [ ] . , < > ;` form tokens of their own, each with its own kind, and none of those kinds is keyword, identifier, string, number, star or other |
| LexProperties.LexPunctuation | parsers/kotlin.c:174-208 | a punctuation character is the token if and only if the call gives a punctuation kind; the token has an empty buffer and the cursor is just past the character |
| LexProperties.LexRun | parsers/kotlin.c:216-234 | any other non-digit starts a run: the buffer is the text from the character after it up to the first delimiter, the cursor stops there, and the kind is identifier or keyword as the lookup answers |
| LexProperties.LexKotlinKeyword | parsers/kotlin.c:229-234 | with the Kotlin table, a run is a keyword token if and only if its text is one of the 15 keywords, with that keyword's code, and an identifier with keyword_none otherwise |
| LexProperties.ScanNumberText | parsers/kotlin.c:117-147 | a number that returns is digits, one `.`, digits and at most one trailing `f`; the character after it is neither a digit nor `f` when the number does not end in `f` |
| LexProperties.LexNumber | parsers/kotlin.c:210-213 | a digit starts a number token; the call returns if and only if the digits after it end in `.`, and the buffer is then the whole number text, leading digit included |
| LexProperties.LexLocation | parsers/kotlin.c:154-157 | the token records the line and position before the whitespace, so a token after a newline reports an earlier line than the one it is on |
| LexProperties.LexProgress | parsers/kotlin.c:153-235 | a call never moves the cursor back; it passes the first non-blank character unless it stops at the end; it never yields token_string or token_star |
| LexProperties.LineEndLine | parsers/kotlin.c:237-242 | after skipping a line the reported line is one more, unless no newline follows, in which case the cursor is at the end on the same line |
| LexExamples.FirstCharacterDropped | parsers/kotlin.c:164-168 | `val x` lexes to the identifier `al`, not the keyword val |
| LexExamples.KeywordAfterOneCharacter | parsers/kotlin.c:164-168 | `xval` lexes to the keyword val |
| LexExamples.IntegerHangs | parsers/kotlin.c:121-132 | a call on `42;` never returns |
| LexExamples.FloatLiteral | parsers/kotlin.c:135-147 | `3.14f)` lexes to the number `3.14f` and stops before the parenthesis |
| LexExamples.StaleLine | parsers/kotlin.c:154-157 | on a newline followed by `(` the token reports line 1, although the parenthesis is on line 2 |

## Left out

- The host's input layer (`getcFromInputFile`, `ungetcToInputFile`, `getInputLineNumber`, `getInputFilePosition`) is not part of this model. It is replaced by a text with a cursor; line numbers count the newlines before the cursor, and a file position is the cursor.
- The body of the host's `lookupKeyword` is not part of this model. It is modelled as a search for the first table entry with exactly the given spelling.
- The memory of `vString` buffers (allocation, growth, freeing) is not modelled: a buffer is a Dafny string.
- NUL characters: the host's read routine never returns '\0' and `vStringPut` does not store one, so a text holding '\0' stands for no real input. On such a text the model keeps the NUL in the buffer and looks up only what precedes it (`Scanning.CString`); that is the model's own choice, not behaviour of the source.
- Characters are Dafny `char` values rather than C bytes. A text stands for the input's bytes only when every character is below 256. Codes of 128 and above are never looked up in the delimiter table, as in the source's bounds test.
- The first character of a run is dropped as one `char`, whereas the source drops one byte. On UTF-8 input whose run starts with a multi-byte character the two differ: the model reads `évar` as the keyword `var`, while the source keeps the rest of the bytes of `é` in the buffer and finds no keyword.
- Line numbers and file positions are the model's count of newlines and its cursor, not the values of the host's `getInputLineNumber` and `getInputFilePosition`. The host may count differently, for example by reporting the position of the start of the current line; `Input.LineAt`, `LexProperties.LexLocation`, `LexProperties.LineEndLine`, `LexExamples.StaleLine` and `LexExamples.StartAtZero` hold for the model's count.
- The parser's registration (`KotlinParser`, the kind and extension tables, `useCork`, `initialize` at `parsers/kotlin.c:250-275`) is configuration, not behaviour, and is left out.
- `find_kotlin_tags` emits no tags and is left out.
- KotlinLexer.ParseNumber: the model keeps every method terminating, so it returns `false` at the character the first loop would push back and re-read forever. Its contract states that point precisely, but not the non-termination itself.
- KotlinLexer.NextToken: returns `false` in the same case, for the same reason.
