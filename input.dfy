/**
 * The character source the lexer reads from: the text of one input file and
 * a cursor into it. Reading at the end of the text gives EOF; pushing a
 * character back moves the cursor back over it.
 */
module Input {

  /** The value the host's read routine returns at end of input. */
  const EOF: int := -1

  /** The number of newline characters in `s`. */
  function NewlinesIn(s: string): nat
  {
    if s == [] then 0 else NewlinesIn(s[..|s| - 1]) + (if s[|s| - 1] == '\n' then 1 else 0)
  }

  /** A text holding a newline counts at least one. */
  lemma {:induction false} NewlinesPositive(s: string)
    ensures '\n' in s <==> NewlinesIn(s) > 0
  {
    if s != [] {
      NewlinesPositive(s[..|s| - 1]);
      assert s == s[..|s| - 1] + [s[|s| - 1]];
    }
  }

  /** Counting newlines is additive over a split of the text. */
  lemma {:induction false} NewlinesSplit(s: string, i: nat, j: nat)
    requires i <= j <= |s|
    ensures NewlinesIn(s[..j]) == NewlinesIn(s[..i]) + NewlinesIn(s[i..j])
    decreases j
  {
    if i < j {
      NewlinesSplit(s, i, j - 1);
      assert s[..j][..j - 1] == s[..j - 1];
      assert s[i..j][..j - 1 - i] == s[i..j - 1];
    } else {
      assert s[i..j] == [];
    }
  }

  /**
   * The model's line count with the cursor at `i`: one more than the newlines
   * already read. Line 1 holds exactly until a newline has been read.
   */
  function LineAt(s: string, i: nat): (r: nat)
    requires i <= |s|
    ensures r >= 1
    ensures r == 1 <==> '\n' !in s[..i]
  {
    NewlinesPositive(s[..i]);
    1 + NewlinesIn(s[..i])
  }

  /** Moving the cursor forward never lowers the line, and crossing a newline raises it. */
  lemma LineAtMonotone(s: string, i: nat, j: nat)
    requires i <= j <= |s|
    ensures LineAt(s, i) <= LineAt(s, j)
    ensures '\n' in s[i..j] ==> LineAt(s, i) < LineAt(s, j)
  {
    NewlinesSplit(s, i, j);
    NewlinesPositive(s[i..j]);
  }

  class InputFile {
    const text: string
    var cursor: nat

    ghost predicate Valid()
      reads this
    {
      cursor <= |text|
    }

    constructor (text: string)
      ensures Valid() && this.text == text && cursor == 0
    {
      this.text := text;
      cursor := 0;
    }

    /** The line number the model uses for the host's current line. */
    function LineNumber(): nat
      reads this
      requires Valid()
    {
      LineAt(text, cursor)
    }

    /** The file position the model uses for the host's: the cursor itself. */
    function FilePosition(): nat
      reads this
    {
      cursor
    }

    /** Read one character, or EOF at the end of the text. */
    method Getc() returns (ch: int)
      requires Valid()
      modifies this
      ensures Valid()
      ensures old(cursor) < |text| ==> ch == text[old(cursor)] as int && cursor == old(cursor) + 1
      ensures old(cursor) == |text| ==> ch == EOF && cursor == old(cursor)
    {
      if cursor < |text| {
        ch := text[cursor] as int;
        cursor := cursor + 1;
      } else {
        ch := EOF;
      }
    }

    /** Push back the character just read; pushing back EOF changes nothing. */
    method Ungetc(ch: int)
      requires Valid()
      requires if ch == EOF then cursor == |text| else 0 < cursor && text[cursor - 1] as int == ch
      modifies this
      ensures Valid()
      ensures cursor == if ch == EOF then old(cursor) else old(cursor) - 1
    {
      if ch != EOF {
        cursor := cursor - 1;
      }
    }
  }
}
