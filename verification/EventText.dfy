/**
  The NIP-01 serialization that `event_commitment` (src/nostril/nostri.c) prints, as a function of
  the event. A C string is a sequence of non-NUL bytes; a null pointer is `None`.
 */
module EventText {
  import Hex
  import opened Options

  // C strings have no NUL, and their length fits the `int` it is stored in.
  type CString = s: seq<bv8> | 0 !in s && |s| < 0x8000_0000 witness []

  type Tag = seq<Option<CString>>

  datatype Event = Event(
    pubkey: seq<bv8>,
    createdAt: nat,
    kind: int,
    explicitTags: Option<CString>,
    tags: seq<Tag>,
    content: Option<CString>)
  {
    /** The sizes and ranges of the C struct. */
    ghost predicate Valid() {
      && |pubkey| == 32
      && createdAt < 0x1_0000_0000_0000_0000
      && -0x8000_0000 <= kind < 0x8000_0000
      && |tags| <= 32
      && forall i | 0 <= i < |tags| :: |tags[i]| <= 16
    }
  }

  const QUOTE: bv8 := 0x22
  const COMMA: bv8 := 0x2c
  const MINUS: bv8 := 0x2d
  const OPEN: bv8 := 0x5b
  const BACKSLASH: bv8 := 0x5c
  const CLOSE: bv8 := 0x5d

  // ---------- Strings ----------

  /** cursor_push_escaped_char: seven characters are written as two. */
  function Escaped(c: bv8): (r: seq<bv8>)
    ensures 1 <= |r| <= 2
  {
    if c == QUOTE then [BACKSLASH, QUOTE]
    else if c == BACKSLASH then [BACKSLASH, BACKSLASH]
    else if c == 0x08 then [BACKSLASH, 0x62]
    else if c == 0x0c then [BACKSLASH, 0x66]
    else if c == 0x0a then [BACKSLASH, 0x6e]
    else if c == 0x0d then [BACKSLASH, 0x72]
    else if c == 0x09 then [BACKSLASH, 0x74]
    else [c]
  }

  function EscapedAll(s: seq<bv8>): seq<bv8> {
    if s == [] then [] else Escaped(s[0]) + EscapedAll(s[1..])
  }

  /** cursor_push_jsonstr: a null pointer prints nothing. */
  function JsonStr(s: Option<CString>): seq<bv8> {
    match s
    case None => []
    case Some(t) => [QUOTE] + EscapedAll(t) + [QUOTE]
  }

  // ---------- Tags ----------

  /** Items separated by commas. */
  function Joined(items: seq<seq<bv8>>): seq<bv8> {
    if items == [] then []
    else if |items| == 1 then items[0]
    else items[0] + [COMMA] + Joined(items[1..])
  }

  function TagItems(tag: Tag): seq<seq<bv8>> {
    seq(|tag|, i requires 0 <= i < |tag| => JsonStr(tag[i]))
  }

  function TagText(tag: Tag): seq<bv8> {
    [OPEN] + Joined(TagItems(tag)) + [CLOSE]
  }

  function TagTexts(tags: seq<Tag>): seq<seq<bv8>> {
    seq(|tags|, i requires 0 <= i < |tags| => TagText(tags[i]))
  }

  function TagsText(ev: Event): seq<bv8> {
    match ev.explicitTags
    case Some(text) => text
    case None => [OPEN] + Joined(TagTexts(ev.tags)) + [CLOSE]
  }

  // ---------- Numbers ----------

  function Digit(d: int): bv8
    requires 0 <= d < 10
  {
    if d == 0 then 0x30 else if d == 1 then 0x31 else if d == 2 then 0x32 else if d == 3 then 0x33
    else if d == 4 then 0x34 else if d == 5 then 0x35 else if d == 6 then 0x36 else if d == 7 then 0x37
    else if d == 8 then 0x38 else 0x39
  }

  function Decimal(n: nat): (s: seq<bv8>)
    ensures s != []
  {
    if n < 10 then [Digit(n)] else Decimal(n / 10) + [Digit(n % 10)]
  }

  function SignedDecimal(k: int): seq<bv8> {
    if k < 0 then [MINUS] + Decimal(-k) else Decimal(k)
  }

  /** snprintf into a buffer of `size` bytes keeps `size` - 1 characters. */
  function Snprintf(size: nat, text: seq<bv8>): (s: seq<bv8>)
    requires size > 0
    ensures |s| < size && s <= text
  {
    if |text| < size then text else text[..size - 1]
  }

  // ---------- The event ----------

  function Commitment(ev: Event): seq<bv8> {
    [OPEN, 0x30, COMMA, QUOTE] + Hex.Encode(ev.pubkey) + [QUOTE, COMMA]
    + Snprintf(16, Decimal(ev.createdAt)) + [COMMA]
    + Snprintf(16, SignedDecimal(ev.kind)) + [COMMA]
    + TagsText(ev) + [COMMA]
    + JsonStr(ev.content) + [CLOSE]
  }
}
