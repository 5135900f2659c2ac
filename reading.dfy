/**
 * Reading generation: the phonetic key of a plate name, taken from a
 * curated override table when it has an entry and otherwise obtained by
 * transliterating katakana to hiragana and lower-casing.
 */
module Reading {
  import opened Text

  /** `str.translate` with a table that maps each character to one character. */
  function Translate(s: string, table: char -> char): (r: string)
    ensures |r| == |s|
    ensures forall i :: 0 <= i < |s| ==> r[i] == table(s[i])
  {
    if s == [] then [] else [table(s[0])] + Translate(s[1..], table)
  }

  /** Lower case of one character: ASCII and fullwidth Latin capitals. */
  function LowerChar(c: char): char {
    if 'A' <= c <= 'Z' then (c as int + 32) as char
    else if '\U{FF21}' <= c <= '\U{FF3A}' then (c as int + 32) as char
    else c
  }

  /** `str.lower()`, character by character. */
  function Lower(s: string): (r: string)
    ensures |r| == |s|
    ensures forall i :: 0 <= i < |s| ==> r[i] == LowerChar(s[i])
  {
    if s == [] then [] else [LowerChar(s[0])] + Lower(s[1..])
  }

  /** The name `_generate_reading` looks up: footnote markers removed, then trimmed. */
  function ReadingKey(plateName: string): string {
    Trim(RemoveNotes(plateName))
  }

  /**
   * `_generate_reading`: the override table wins when it has an entry for
   * the key; otherwise each character of the key is transliterated and
   * lower-cased, one output character per input character.
   */
  function GenerateReading(plateName: string, kana: char -> char, readings: map<string, string>): (r: string)
    ensures ReadingKey(plateName) in readings ==> r == readings[ReadingKey(plateName)]
    ensures ReadingKey(plateName) !in readings ==>
      |r| == |ReadingKey(plateName)| &&
      forall i :: 0 <= i < |r| ==> r[i] == LowerChar(kana(ReadingKey(plateName)[i]))
  {
    var cleanName := ReadingKey(plateName);
    var hiraganaName := Translate(cleanName, kana);
    if cleanName in readings then readings[cleanName] else Lower(hiraganaName)
  }

  /** The reading depends on the name only through its key. */
  lemma ReadingDependsOnKey(a: string, b: string, kana: char -> char, readings: map<string, string>)
    requires ReadingKey(a) == ReadingKey(b)
    ensures GenerateReading(a, kana, readings) == GenerateReading(b, kana, readings)
  {
  }

  /**
   * A name that is already trimmed and holds no footnote marker is its own
   * key, so its reading is the override entry or the transliteration of the
   * name itself.
   */
  lemma ReadingOfPlainName(name: string, kana: char -> char, readings: map<string, string>)
    requires name == [] || (!IsSpace(name[0]) && !IsSpace(name[|name| - 1]))
    requires forall i, j :: 0 <= i < j <= |name| ==> !IsNoteMarker(name[i..j])
    ensures ReadingKey(name) == name
    ensures GenerateReading(name, kana, readings)
      == if name in readings then readings[name] else Lower(Translate(name, kana))
  {
    RemoveNotesNoMarker(name);
    TrimTrimmed(name);
  }
}
