/**
 * The keyword codes of the Kotlin lexer and the table that maps a spelling to
 * its code.
 */
module Keywords {

  /**
   * The codes of `enum KeywordType`, in declaration order, plus `KeywordNone`,
   * the host's "not a keyword" answer (KEYWORD_NONE), which the lexer stores
   * in a token's keyword field when the lookup misses.
   */
  datatype KeywordType =
    | KeywordPackage | KeywordImport | KeywordClass | KeywordInterface | KeywordTypealias
    | KeywordFun | KeywordVal | KeywordVar | KeywordOther
    | ModifierPrivate | ModifierProtected | ModifierPublic | ModifierInternal
    | ModifierSealed | ModifierEnum | ModifierAbstract
    | KeywordNone

  /**
   * A keyword table: spellings with their codes. The host looks a spelling up
   * in the table the parser registered, which for Kotlin is `KotlinKeywordTable`.
   */
  type KeywordTable = seq<(string, KeywordType)>

  /** The fifteen spellings the lexer recognises, with their codes. */
  const KotlinKeywordTable: KeywordTable := [
    ("package", KeywordPackage),
    ("import", KeywordImport),
    ("class", KeywordClass),
    ("interface", KeywordInterface),
    ("typealias", KeywordTypealias),
    ("fun", KeywordFun),
    ("val", KeywordVal),
    ("var", KeywordVar),
    ("private", ModifierPrivate),
    ("protected", ModifierProtected),
    ("public", ModifierPublic),
    ("internal", ModifierInternal),
    ("sealed", ModifierSealed),
    ("enum", ModifierEnum),
    ("abstract", ModifierAbstract)
  ]

  /** Search `table` from entry `i` on; the first entry spelled `name` gives the code. */
  function LookupFrom(table: KeywordTable, name: string, i: nat): (r: KeywordType)
    requires i <= |table|
    ensures r == KeywordNone || exists e :: i <= e < |table| && table[e] == (name, r)
    decreases |table| - i
  {
    if i == |table| then KeywordNone
    else if table[i].0 == name then table[i].1
    else LookupFrom(table, name, i + 1)
  }

  /**
   * What the search from entry `i` gives: `KeywordNone` when no later entry is
   * spelled `name`, and otherwise the code of the first such entry.
   */
  lemma {:induction false} LookupFromSpec(table: KeywordTable, name: string, i: nat)
    requires i <= |table|
    ensures (forall e :: i <= e < |table| ==> table[e].0 != name) ==> LookupFrom(table, name, i) == KeywordNone
    ensures forall e :: i <= e < |table| && table[e].0 == name && (forall d :: i <= d < e ==> table[d].0 != name) ==>
      LookupFrom(table, name, i) == table[e].1
    decreases |table| - i
  {
    if i < |table| && table[i].0 != name {
      LookupFromSpec(table, name, i + 1);
    }
  }

  /** Exact, case-sensitive lookup of a spelling in `table`. */
  function LookupKeyword(table: KeywordTable, name: string): (r: KeywordType)
    ensures r == KeywordNone || exists e :: 0 <= e < |table| && table[e] == (name, r)
  {
    LookupFrom(table, name, 0)
  }

  /** The codes a table can give. */
  function Codes(table: KeywordTable): set<KeywordType>
  {
    set e | 0 <= e < |table| :: table[e].1
  }

  /**
   * The Kotlin table has fifteen entries, and its codes are exactly the
   * fifteen codes other than `keyword_other`.
   */
  lemma KotlinKeywordCodes()
    ensures |KotlinKeywordTable| == 15
    ensures Codes(KotlinKeywordTable) == {
      KeywordPackage, KeywordImport, KeywordClass, KeywordInterface, KeywordTypealias, KeywordFun, KeywordVal,
      KeywordVar, ModifierPrivate, ModifierProtected, ModifierPublic, ModifierInternal, ModifierSealed,
      ModifierEnum, ModifierAbstract}
    ensures forall e :: 0 <= e < |KotlinKeywordTable| ==> KotlinKeywordTable[e].1 !in {KeywordOther, KeywordNone}
  {
    var t := KotlinKeywordTable;
    assert t[0].1 == KeywordPackage;
    assert t[1].1 == KeywordImport;
    assert t[2].1 == KeywordClass;
    assert t[3].1 == KeywordInterface;
    assert t[4].1 == KeywordTypealias;
    assert t[5].1 == KeywordFun;
    assert t[6].1 == KeywordVal;
    assert t[7].1 == KeywordVar;
    assert t[8].1 == ModifierPrivate;
    assert t[9].1 == ModifierProtected;
    assert t[10].1 == ModifierPublic;
    assert t[11].1 == ModifierInternal;
    assert t[12].1 == ModifierSealed;
    assert t[13].1 == ModifierEnum;
    assert t[14].1 == ModifierAbstract;
  }

  /** No code appears twice in the Kotlin table. */
  lemma KotlinKeywordCodesDistinct()
    ensures forall a, b :: 0 <= a < b < |KotlinKeywordTable| ==> KotlinKeywordTable[a].1 != KotlinKeywordTable[b].1
  {
  }

  /** No spelling appears twice, so which entry a lookup stops at does not matter. */
  lemma SpellingsDistinct()
    ensures forall a, b :: 0 <= a < b < |KotlinKeywordTable| ==>
      KotlinKeywordTable[a].0 != KotlinKeywordTable[b].0
  {
  }

  /**
   * In a table whose spellings are distinct and whose codes are all real, a
   * lookup hits exactly the names the table spells, with their codes.
   */
  lemma LookupInDistinctTable(table: KeywordTable, name: string)
    requires forall a, b :: 0 <= a < b < |table| ==> table[a].0 != table[b].0
    requires forall e :: 0 <= e < |table| ==> table[e].1 != KeywordNone
    ensures LookupKeyword(table, name) != KeywordNone <==> exists e :: 0 <= e < |table| && table[e].0 == name
    ensures forall e :: 0 <= e < |table| && table[e].0 == name ==> LookupKeyword(table, name) == table[e].1
  {
    LookupFromSpec(table, name, 0);
    forall e | 0 <= e < |table| && table[e].0 == name
      ensures LookupKeyword(table, name) == table[e].1
    {
      assert forall d :: 0 <= d < e ==> table[d].0 != name;
    }
  }

  /**
   * In the Kotlin table a lookup hits exactly when `name` is one of the fifteen
   * spellings, and then gives that spelling's code; a miss is `KeywordNone`.
   * `keyword_other` is never an answer.
   */
  lemma LookupKeywordSpec(name: string)
    ensures LookupKeyword(KotlinKeywordTable, name) != KeywordNone <==>
      exists e :: 0 <= e < |KotlinKeywordTable| && KotlinKeywordTable[e].0 == name
    ensures forall e :: 0 <= e < |KotlinKeywordTable| && KotlinKeywordTable[e].0 == name ==>
      LookupKeyword(KotlinKeywordTable, name) == KotlinKeywordTable[e].1
    ensures LookupKeyword(KotlinKeywordTable, name) != KeywordOther
  {
    SpellingsDistinct();
    KotlinKeywordCodes();
    LookupInDistinctTable(KotlinKeywordTable, name);
  }
}
