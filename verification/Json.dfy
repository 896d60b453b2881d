/**
  A reader for the part of JSON (RFC 8259) that has arrays, strings and integers: no white space, no
  fractions, exponents or literal names, and of the escapes those with a single character.
 */
module Json {

  datatype Value = Number(value: int) | Text(text: seq<bv8>) | Array(items: seq<Value>)

  /** What was read, and the rest of the text. */
  datatype Reading<T> = Fail | Reading(value: T, rest: seq<bv8>)

  // ---------- Numbers (section 6) ----------

  predicate IsDigit(c: bv8) {
    0x30 <= c <= 0x39
  }

  function DigitValue(c: bv8): (d: nat)
    requires IsDigit(c)
  {
    (c - 0x30) as int
  }

  /** The digits at the start of the text, after a number `n`. */
  function ReadDigits(s: seq<bv8>, n: nat): Reading<int> {
    if s != [] && IsDigit(s[0]) then ReadDigits(s[1..], 10 * n + DigitValue(s[0])) else Reading(n, s)
  }

  /** An integer without a leading zero. */
  function ReadUnsigned(s: seq<bv8>): Reading<int> {
    if s == [] || !IsDigit(s[0]) then Fail
    else if s[0] == 0x30 then Reading(0, s[1..])
    else ReadDigits(s, 0)
  }

  function ReadNumber(s: seq<bv8>): Reading<int> {
    if s != [] && s[0] == 0x2d then
      match ReadUnsigned(s[1..])
      case Fail => Fail
      case Reading(n, rest) => Reading(-n, rest)
    else ReadUnsigned(s)
  }

  lemma {:induction false} DigitsShorter(s: seq<bv8>, n: nat)
    ensures ReadDigits(s, n).Reading? && |ReadDigits(s, n).rest| <= |s|
    ensures s != [] && IsDigit(s[0]) ==> |ReadDigits(s, n).rest| < |s|
  {
    if s != [] && IsDigit(s[0]) {
      DigitsShorter(s[1..], 10 * n + DigitValue(s[0]));
    }
  }

  lemma NumberShorter(s: seq<bv8>)
    ensures ReadNumber(s).Reading? ==> |ReadNumber(s).rest| < |s|
  {
    hide ReadDigits;
    DigitsShorter(s, 0);
    if s != [] {
      DigitsShorter(s[1..], 0);
    }
  }

  // ---------- Strings (section 7) ----------

  datatype Character = Character(code: bv8) | NoCharacter

  /** The character that a backslash and `c` stand for. */
  function Unescaped(c: bv8): Character {
    if c == 0x22 || c == 0x5c || c == 0x2f then Character(c)  // quotation mark, reverse solidus, solidus
    else if c == 0x62 then Character(0x08)                    // b: backspace
    else if c == 0x66 then Character(0x0c)                    // f: form feed
    else if c == 0x6e then Character(0x0a)                    // n: line feed
    else if c == 0x72 then Character(0x0d)                    // r: carriage return
    else if c == 0x74 then Character(0x09)                    // t: tab
    else NoCharacter
  }

  function Prepend<T>(x: T, r: Reading<seq<T>>): Reading<seq<T>> {
    match r
    case Fail => Fail
    case Reading(xs, rest) => Reading([x] + xs, rest)
  }

  /** A string after its opening quotation mark. Control characters must be escaped. */
  function ReadString(s: seq<bv8>): (r: Reading<seq<bv8>>)
    ensures r.Reading? ==> |r.rest| < |s|
  {
    if s == [] || s[0] < 0x20 then Fail
    else if s[0] == 0x22 then Reading([], s[1..])
    else if s[0] != 0x5c then Prepend(s[0], ReadString(s[1..]))
    else if |s| < 2 || Unescaped(s[1]).NoCharacter? then Fail
    else Prepend(Unescaped(s[1]).code, ReadString(s[2..]))
  }

  // ---------- Values and arrays (sections 3 and 5) ----------

  function ReadValue(s: seq<bv8>): (r: Reading<Value>)
    ensures r.Reading? ==> |r.rest| < |s|
    decreases |s|, 0
  {
    NumberShorter(s);
    if s == [] then Fail
    else if s[0] == 0x22 then
      match ReadString(s[1..])
      case Fail => Fail
      case Reading(t, rest) => Reading(Text(t), rest)
    else if s[0] == 0x5b then
      if |s| > 1 && s[1] == 0x5d then Reading(Array([]), s[2..])
      else
        match ReadItems(s[1..])
        case Fail => Fail
        case Reading(items, rest) => Reading(Array(items), rest)
    else
      match ReadNumber(s)
      case Fail => Fail
      case Reading(n, rest) => Reading(Number(n), rest)
  }

  /** One or more values with commas between them, up to the closing bracket. */
  function ReadItems(s: seq<bv8>): (r: Reading<seq<Value>>)
    ensures r.Reading? ==> |r.rest| < |s|
    decreases |s|, 1
  {
    match ReadValue(s)
    case Fail => Fail
    case Reading(item, rest) =>
      if rest == [] then Fail
      else if rest[0] == 0x5d then Reading([item], rest[1..])
      else if rest[0] == 0x2c then Prepend(item, ReadItems(rest[1..]))
      else Fail
  }

  datatype Document = Document(value: Value) | Invalid

  /** A whole text. */
  function ReadText(s: seq<bv8>): Document {
    match ReadValue(s)
    case Fail => Invalid
    case Reading(v, rest) => if rest == [] then Document(v) else Invalid
  }
}
