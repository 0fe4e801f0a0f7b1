/**
 * The delimiter table: 128 entries over the low character codes, 1 where a
 * character ends a bare identifier or keyword scan and 0 elsewhere.
 */
module Delimiters {

  /** The ten characters that terminate a scanned run. */
  predicate IsDelimiterCode(code: int)
  {
    code == ' ' as int || code == '\r' as int || code == '\n' as int || code == '\t' as int ||
    code == ';' as int || code == ',' as int || code == '(' as int || code == ')' as int ||
    code == '{' as int || code == '}' as int
  }

  /** The table as it stands once it has been initialised. */
  function DelimiterTable(): (t: seq<int>)
    ensures |t| == 128
  {
    seq(128, i => if IsDelimiterCode(i) then 1 else 0)
  }

  /** How the lexer consults the table: codes outside 0..127 are never delimiters. */
  predicate EndsRun(table: seq<int>, code: int)
    requires |table| == 128
  {
    0 <= code < 128 && table[code] == 1
  }

  /** Zero every entry, then mark the ten delimiters, in place. */
  method InitDelimiters(delimiters: array<int>)
    requires delimiters.Length == 128
    modifies delimiters
    ensures delimiters[..] == DelimiterTable()
  {
    for i := 0 to 128
      invariant forall k :: 0 <= k < i ==> delimiters[k] == 0
    {
      delimiters[i] := 0;
    }
    delimiters[' ' as int] := 1;
    delimiters['\r' as int] := 1;
    delimiters['\n' as int] := 1;
    delimiters['\t' as int] := 1;
    delimiters[';' as int] := 1;
    delimiters[',' as int] := 1;
    delimiters['(' as int] := 1;
    delimiters[')' as int] := 1;
    delimiters['{' as int] := 1;
    delimiters['}' as int] := 1;
    assert forall k :: 0 <= k < 128 ==> delimiters[k] == DelimiterTable()[k];
  }

  /** Entry by entry: 1 exactly at the ten delimiter characters, 0 at every other code. */
  lemma DelimiterEntries(code: int)
    requires 0 <= code < 128
    ensures DelimiterTable()[code] == 1 <==> code in {9, 10, 13, 32, 40, 41, 44, 59, 123, 125}
    ensures DelimiterTable()[code] != 1 ==> DelimiterTable()[code] == 0
  {
  }

  /** The table marks exactly ten characters. */
  lemma DelimiterCount()
    ensures |set code | 0 <= code < 128 && DelimiterTable()[code] == 1| == 10
  {
    var marked := set code | 0 <= code < 128 && DelimiterTable()[code] == 1;
    assert marked == {9, 10, 13, 32, 40, 41, 44, 59, 123, 125} by {
      forall code | 0 <= code < 128
        ensures code in marked <==> code in {9, 10, 13, 32, 40, 41, 44, 59, 123, 125}
      {
        DelimiterEntries(code);
      }
    }
  }
}
