/** The braille cell translator: two fixed symbol tables and the total
    function that maps one six-dot cell, written as a string of '0'/'1'
    characters, to one output symbol under a mode name. */
module Braille {

  /** Unified English Braille: the cells of the letters a to j, and the blank cell. */
  function UebMap(): map<string, string> {
    map[
      "100000" := "a", "110000" := "b", "100100" := "c", "100110" := "d",
      "100010" := "e", "110100" := "f", "110110" := "g", "110010" := "h",
      "010100" := "i", "010110" := "j", "000000" := " "
    ]
  }

  /** Nemeth code digits: the same ten cells as a to j, read as 1 to 9 and 0. */
  function NemethDigits(): map<string, string> {
    map[
      "100000" := "1", "110000" := "2", "100100" := "3", "100110" := "4",
      "100010" := "5", "110100" := "6", "110110" := "7", "110010" := "8",
      "010100" := "9", "010110" := "0"
    ]
  }

  /** The symbol returned for a pattern the selected table does not know. */
  const FALLBACK: string := "?"

  /** The mode name that, once upper-cased, selects the Nemeth table. */
  const NEMETH_MODE: string := "NEMETH"

  /** The cell with no raised dot. */
  const BLANK_CELL: string := "000000"

  /** The ten cells shared by both tables, in letter order a..j. */
  const LETTER_CELLS: seq<string> := [
    "100000", "110000", "100100", "100110", "100010",
    "110100", "110110", "110010", "010100", "010110"
  ]
  const LETTERS: string := "abcdefghij"
  const DIGITS: string := "1234567890"

  /** A well-formed cell: exactly six characters, each '0' or '1'. */
  predicate IsCell(bits: string) {
    |bits| == 6 && forall i :: 0 <= i < |bits| ==> bits[i] == '0' || bits[i] == '1'
  }

  /** ASCII upper-casing of one character; every other character is kept. */
  function UpperChar(c: char): char {
    if 'a' <= c <= 'z' then (c as int - 32) as char else c
  }

  /** ASCII lower-casing of one character; every other character is kept. */
  function LowerChar(c: char): char {
    if 'A' <= c <= 'Z' then (c as int + 32) as char else c
  }

  /** Upper-casing of a whole string, one character at a time. */
  function Upper(s: string): (r: string)
    ensures |r| == |s|
    ensures forall i :: 0 <= i < |s| ==> r[i] == UpperChar(s[i])
  {
    if s == [] then [] else [UpperChar(s[0])] + Upper(s[1..])
  }

  /** Lower-casing of a whole string, one character at a time. */
  function Lower(s: string): (r: string)
    ensures |r| == |s|
    ensures forall i :: 0 <= i < |s| ==> r[i] == LowerChar(s[i])
  {
    if s == [] then [] else [LowerChar(s[0])] + Lower(s[1..])
  }

  /** The mode test of the translator: the upper-cased mode equals "NEMETH". */
  predicate SelectsNemeth(mode: string) {
    Upper(mode) == NEMETH_MODE
  }

  /** Dictionary lookup with the fallback symbol as default. */
  function Lookup(table: map<string, string>, bits: string): string {
    if bits in table then table[bits] else FALLBACK
  }

  /** The table a mode selects: Nemeth digits for any spelling of "nemeth",
      the UEB table for every other mode, known or not. */
  function TableFor(mode: string): map<string, string> {
    if SelectsNemeth(mode) then NemethDigits() else UebMap()
  }

  /** Every key of the UEB table is a well-formed cell, and every value is
      one character other than the fallback. */
  lemma UebTableWellFormed()
    ensures forall k :: k in UebMap() ==> IsCell(k) && |UebMap()[k]| == 1 && UebMap()[k] != FALLBACK
  {
  }

  /** Every key of the Nemeth table is a well-formed cell, and every value is
      one character other than the fallback. */
  lemma NemethTableWellFormed()
    ensures forall k :: k in NemethDigits() ==> IsCell(k) && |NemethDigits()[k]| == 1 && NemethDigits()[k] != FALLBACK
  {
  }

  /** Translates one cell. Total: it never fails, and it yields exactly one
      character; it yields the fallback exactly when the selected table has
      no entry for the pattern, so a non-fallback answer always comes from
      a well-formed cell. */
  function TranslateCell(bits: string, mode: string): (r: string)
    ensures |r| == 1
    ensures r == FALLBACK <==> bits !in TableFor(mode)
    ensures bits in TableFor(mode) ==> r == TableFor(mode)[bits]
    ensures r != FALLBACK ==> IsCell(bits)
  {
    UebTableWellFormed();
    NemethTableWellFormed();
    if SelectsNemeth(mode) then Lookup(NemethDigits(), bits) else Lookup(UebMap(), bits)
  }

  /** `s` spells the upper-case word `w` with any mix of upper- and
      lower-case letters. */
  ghost predicate SpellsIgnoringCase(s: string, w: string) {
    |s| == |w| && forall i :: 0 <= i < |s| ==> s[i] == w[i] || s[i] == LowerChar(w[i])
  }

  /** The upper-cased string equals an upper-case word exactly when the
      string spells that word in any case. */
  lemma UpperEqualsIff(s: string, w: string)
    requires forall i :: 0 <= i < |w| ==> 'A' <= w[i] <= 'Z'
    ensures Upper(s) == w <==> SpellsIgnoringCase(s, w)
  {
  }

  /** Mode selection is case-insensitive in both directions: a mode selects
      the Nemeth table exactly when it spells "NEMETH" in any case. */
  lemma SelectsNemethIff(mode: string)
    ensures SelectsNemeth(mode) <==> SpellsIgnoringCase(mode, NEMETH_MODE)
  {
  }

  /** Some spellings, and some modes that fall back to the UEB table. */
  lemma ModeExamples()
    ensures SelectsNemeth("nemeth") && SelectsNemeth("Nemeth") && SelectsNemeth("NEMETH")
    ensures !SelectsNemeth("UEB") && !SelectsNemeth("ueb") && !SelectsNemeth("foo")
    ensures !SelectsNemeth("") && !SelectsNemeth("NEMETH ")
  {
  }

  /** Upper-casing is idempotent. */
  lemma UpperIdempotent(s: string)
    ensures Upper(Upper(s)) == Upper(s)
  {
  }

  /** Upper-casing after lower-casing is plain upper-casing. */
  lemma UpperOfLower(s: string)
    ensures Upper(Lower(s)) == Upper(s)
  {
  }

  /** The translation does not depend on the case of the mode name: the
      mode, its upper-case and its lower-case forms all translate alike. */
  lemma TranslateCaseInsensitive(bits: string, mode: string)
    ensures TranslateCell(bits, Upper(mode)) == TranslateCell(bits, mode)
    ensures TranslateCell(bits, Lower(mode)) == TranslateCell(bits, mode)
  {
    UpperIdempotent(mode);
    UpperOfLower(mode);
  }

  /** Two modes with the same upper-case form translate every pattern alike,
      so "ueb", "UEB" and "Ueb" all read the same cell the same way. */
  lemma SameUpperSameTranslation(bits: string, m1: string, m2: string)
    requires Upper(m1) == Upper(m2)
    ensures TranslateCell(bits, m1) == TranslateCell(bits, m2)
  {
  }

  /** Every mode that does not spell "NEMETH" translates like "UEB", including
      unknown and empty mode names. */
  lemma UnknownModeIsUeb(bits: string, mode: string)
    requires !SpellsIgnoringCase(mode, NEMETH_MODE)
    ensures TranslateCell(bits, mode) == TranslateCell(bits, "UEB")
    ensures TranslateCell(bits, mode) == Lookup(UebMap(), bits)
  {
  }

  /** The Nemeth table knows exactly the UEB cells other than the blank cell. */
  lemma TablesShareCells()
    ensures NemethDigits().Keys == UebMap().Keys - {BLANK_CELL}
  {
  }

  /** On the ten letter cells the two tables agree position by position:
      the cell of the i-th letter of a..j is the i-th digit of 1..9,0. */
  lemma LetterCellsCorrespond(i: nat)
    requires i < |LETTER_CELLS|
    ensures UebMap()[LETTER_CELLS[i]] == [LETTERS[i]]
    ensures NemethDigits()[LETTER_CELLS[i]] == [DIGITS[i]]
  {
  }

  /** The letter cells are all the cells of the Nemeth table. */
  lemma LetterCellsCover(bits: string)
    requires bits in NemethDigits()
    ensures bits in LETTER_CELLS
  {
  }

  /** A cell that reads as a letter of a..j under UEB reads as the matching
      digit under Nemeth. */
  lemma LetterCellIsDigit(bits: string, i: nat)
    requires i < |LETTERS|
    requires TranslateCell(bits, "UEB") == [LETTERS[i]]
    ensures TranslateCell(bits, NEMETH_MODE) == [DIGITS[i]]
  {
  }

  /** The same cell reads differently under the two tables. */
  lemma CellExamples()
    ensures TranslateCell("100000", "UEB") == "a" && TranslateCell("100000", "NEMETH") == "1"
    ensures TranslateCell("110000", "UEB") == "b"
  {
  }

  /** The blank cell is a space under UEB but unknown to Nemeth, and a
      pattern outside both tables is unknown. */
  lemma BlankAndUnknownExamples()
    ensures TranslateCell(BLANK_CELL, "UEB") == " " && TranslateCell(BLANK_CELL, "NEMETH") == FALLBACK
    ensures TranslateCell("999999", "UEB") == FALLBACK
  {
  }

  /** A pattern that is not a well-formed cell, of any length, translates to
      the fallback under every mode. */
  lemma MalformedIsFallback(bits: string, mode: string)
    requires !IsCell(bits)
    ensures TranslateCell(bits, mode) == FALLBACK
  {
  }
}
