/**
  What a reader of JSON makes of the serialization of an event. `Json` knows nothing of how the text is
  printed; on every event without explicit tags it gives back the fields in the order of NIP-01, or
  fails exactly where the text is not JSON.
 */
module EventReads {
  import opened Bits
  import opened EventInjective
  import opened EventText
  import opened Json
  import opened Options
  import opened Sequences
  import Hex

  // ---------- Numbers ----------

  predicate NoDigitFirst(u: seq<bv8>) {
    u == [] || !IsDigit(u[0])
  }

  lemma DigitIs(d: int)
    requires 0 <= d < 10
    ensures IsDigit(Digit(d)) && DigitValue(Digit(d)) == d && (Digit(d) == 0x30 <==> d == 0)
  {}

  /** Reading the printed digits of `n` leaves the reader where it would be after the number `n`. */
  lemma {:induction false} DigitsRead(n: nat, u: seq<bv8>)
    ensures ReadDigits(Decimal(n) + u, 0) == ReadDigits(u, n)
  {
    hide Digit, IsDigit, DigitValue;
    if n < 10 {
      DigitIs(n);
      OneDigit(Digit(n), u, 0);
    } else {
      var d := n % 10;
      DigitIs(d);
      Assoc(Decimal(n / 10), [Digit(d)], u);
      DigitsRead(n / 10, [Digit(d)] + u);
      OneDigit(Digit(d), u, n / 10);
    }
  }

  lemma OneDigit(c: bv8, u: seq<bv8>, n: nat)
    requires IsDigit(c)
    ensures ReadDigits([c] + u, n) == ReadDigits(u, 10 * n + DigitValue(c))
  {
    hide IsDigit, DigitValue;
    assert ([c] + u)[1..] == u;
  }

  /** A positive number does not begin with a zero. */
  lemma {:induction false} FirstDigit(n: nat)
    ensures IsDigit(Decimal(n)[0]) && (Decimal(n)[0] == 0x30 <==> n == 0)
  {
    hide Digit;
    if n < 10 {
      DigitIs(n);
    } else {
      FirstDigit(n / 10);
    }
  }

  lemma UnsignedRead(n: nat, u: seq<bv8>)
    requires NoDigitFirst(u)
    ensures ReadUnsigned(Decimal(n) + u) == Reading(n, u)
  {
    hide Digit, IsDigit, ReadDigits;
    FirstDigit(n);
    FirstOf(Decimal(n), u);
    if n == 0 {
      assert (Decimal(0) + u)[1..] == u;
    } else {
      DigitsRead(n, u);
      NoMoreDigits(u, n);
    }
  }

  lemma NoMoreDigits(u: seq<bv8>, n: nat)
    requires NoDigitFirst(u)
    ensures ReadDigits(u, n) == Reading(n, u)
  {}

  lemma FirstOf<T>(s: seq<T>, u: seq<T>)
    requires s != []
    ensures s + u != [] && (s + u)[0] == s[0]
  {}

  lemma NotMinus(c: bv8)
    requires IsDigit(c)
    ensures c != 0x2d && c != 0x22 && c != 0x5b
  {}

  lemma NumberRead(k: int, u: seq<bv8>)
    requires NoDigitFirst(u)
    ensures ReadNumber(SignedDecimal(k) + u) == Reading(k, u)
    ensures SignedDecimal(k) != [] && SignedDecimal(k)[0] != 0x22 && SignedDecimal(k)[0] != 0x5b
  {
    hide Decimal, IsDigit, ReadUnsigned, NoDigitFirst;
    if k < 0 {
      UnsignedRead(-k, u);
      Assoc([MINUS], Decimal(-k), u);
      assert ([MINUS] + (Decimal(-k) + u))[1..] == Decimal(-k) + u;
    } else {
      UnsignedRead(k, u);
      FirstDigit(k);
      FirstOf(Decimal(k), u);
      NotMinus(Decimal(k)[0]);
    }
  }

  lemma NumberValue(k: int, u: seq<bv8>)
    requires NoDigitFirst(u)
    ensures ReadValue(SignedDecimal(k) + u) == Reading(Number(k), u)
  {
    hide SignedDecimal, ReadNumber, NoDigitFirst;
    NumberRead(k, u);
    FirstOf(SignedDecimal(k), u);
  }

  lemma UnsignedValue(n: nat, u: seq<bv8>)
    requires NoDigitFirst(u)
    ensures ReadValue(Decimal(n) + u) == Reading(Number(n), u)
  {
    hide Decimal, NoDigitFirst;
    NumberValue(n, u);
  }

  // ---------- Strings ----------

  /** The control characters that the printer does not escape, and that JSON does not allow as they are. */
  predicate Bare(c: bv8) {
    c < 0x20 && c != 0x08 && c != 0x09 && c != 0x0a && c != 0x0c && c != 0x0d
  }

  predicate Clean(s: seq<bv8>) {
    forall i | 0 <= i < |s| :: !Bare(s[i])
  }

  lemma EscapedRead(c: bv8, u: seq<bv8>)
    ensures ReadString(Escaped(c) + u) == if Bare(c) then Fail else Prepend(c, ReadString(u))
  {
    var s := Escaped(c) + u;
    if |Escaped(c)| == 2 {
      assert s[0] == BACKSLASH && s[1] == Escaped(c)[1] && s[2..] == u;
    } else {
      assert s[0] == c && s[1..] == u;
    }
  }

  lemma {:induction false} StringRead(t: seq<bv8>, u: seq<bv8>)
    ensures ReadString(EscapedAll(t) + ([QUOTE] + u)) == if Clean(t) then Reading(t, u) else Fail
  {
    hide Escaped, ReadString, Bare;
    if t == [] {
      NothingEscaped([QUOTE] + u);
      Closed(u);
    } else {
      EscapedStep(t, [QUOTE] + u);
      EscapedRead(t[0], EscapedAll(t[1..]) + ([QUOTE] + u));
      StringRead(t[1..], u);
      assert t == [t[0]] + t[1..];
      assert Clean(t) <==> !Bare(t[0]) && Clean(t[1..]);
    }
  }

  lemma Closed(u: seq<bv8>)
    ensures ReadString([QUOTE] + u) == Reading([], u)
  {
    assert ([QUOTE] + u)[1..] == u;
  }

  /** Neither a control character nor one that has a meaning inside a string. */
  predicate Plain(c: bv8) {
    c >= 0x30 && c != 0x5c
  }

  lemma PlainStep(c: bv8, u: seq<bv8>)
    requires Plain(c)
    ensures ReadString([c] + u) == Prepend(c, ReadString(u))
  {
    assert ([c] + u)[1..] == u;
  }

  /** A string that needs no escapes, and is printed without them. */
  lemma {:induction false} PlainRead(t: seq<bv8>, u: seq<bv8>)
    requires forall i | 0 <= i < |t| :: Plain(t[i])
    ensures ReadString(t + ([QUOTE] + u)) == Reading(t, u)
  {
    hide Plain, ReadString;
    if t == [] {
      assert t + ([QUOTE] + u) == [QUOTE] + u;
      Closed(u);
    } else {
      assert t == [t[0]] + t[1..];
      Assoc([t[0]], t[1..], [QUOTE] + u);
      PlainStep(t[0], t[1..] + ([QUOTE] + u));
      PlainRead(t[1..], u);
    }
  }

  lemma QuotedValue(s: seq<bv8>)
    ensures var r := ReadString(s);
            ReadValue([QUOTE] + s) == if r.Fail? then Fail else Reading(Text(r.value), r.rest)
  {
    hide ReadString;
    assert ([QUOTE] + s)[1..] == s;
  }

  // ---------- Optional strings ----------

  predicate ReadableText(s: Option<CString>) {
    s.Some? && Clean(s.value)
  }

  function TextOf(s: Option<CString>): Value {
    Text(match s case None => [] case Some(t) => t)
  }

  /** A null string is printed as nothing, and then what follows is not a value. */
  lemma OptionRead(s: Option<CString>, u: seq<bv8>)
    requires u != [] && (u[0] == COMMA || u[0] == CLOSE)
    ensures ReadValue(JsonStr(s) + u) == if ReadableText(s) then Reading(TextOf(s), u) else Fail
  {
    hide EscapedAll, Clean;
    if s.Some? {
      JsonStep(s.value, u);
      QuotedValue(EscapedAll(s.value) + ([QUOTE] + u));
      StringRead(s.value, u);
    } else {
      JsonNull(u);
      NoValue(u);
    }
  }

  lemma NoValue(u: seq<bv8>)
    requires u != [] && (u[0] == COMMA || u[0] == CLOSE)
    ensures ReadValue(u) == Fail
  {}

  // ---------- Lists ----------

  lemma LastItem(s: seq<bv8>, v: Value, u: seq<bv8>)
    requires ReadValue(s) == Reading(v, [CLOSE] + u)
    ensures ReadItems(s) == Reading([v], u)
  {
    assert ([CLOSE] + u)[1..] == u;
  }

  lemma MoreItems(s: seq<bv8>, v: Value, t: seq<bv8>)
    requires ReadValue(s) == Reading(v, [COMMA] + t)
    ensures ReadItems(s) == Prepend(v, ReadItems(t))
  {
    hide Prepend;
    assert ([COMMA] + t)[1..] == t;
  }

  lemma NoItem(s: seq<bv8>)
    requires ReadValue(s) == Fail
    ensures ReadItems(s) == Fail
  {}

  lemma ArrayValue(s: seq<bv8>)
    requires s == [] || s[0] != CLOSE
    ensures var r := ReadItems(s);
            ReadValue([OPEN] + s) == if r.Fail? then Fail else Reading(Array(r.value), r.rest)
  {
    hide ReadItems;
    assert ([OPEN] + s)[1..] == s;
  }

  lemma EmptyArray(u: seq<bv8>)
    ensures ReadValue([OPEN] + ([CLOSE] + u)) == Reading(Array([]), u)
  {
    assert ([OPEN] + ([CLOSE] + u))[2..] == u;
  }

  // ---------- Tags ----------

  predicate ReadableTexts(tag: Tag) {
    forall i | 0 <= i < |tag| :: ReadableText(tag[i])
  }

  function TextsOf(tag: Tag): seq<Value> {
    seq(|tag|, i requires 0 <= i < |tag| => TextOf(tag[i]))
  }

  lemma {:induction false} StringsRead(tag: Tag, u: seq<bv8>)
    requires tag != []
    ensures ReadItems(Joined(TagItems(tag)) + ([CLOSE] + u)) ==
            if ReadableTexts(tag) then Reading(TextsOf(tag), u) else Fail
  {
    hide Joined, JsonStr, ReadItems, ReadValue, ReadableText, TextOf;
    var items, rest := TagItems(tag), tag[1..];
    assert items[1..] == TagItems(rest);
    JoinedStep(items, u);
    var v := if |items| == 1 then [CLOSE] + u else [COMMA] + (Joined(items[1..]) + ([CLOSE] + u));
    OptionRead(tag[0], v);
    assert tag == [tag[0]] + rest;
    if !ReadableText(tag[0]) {
      NoItem(items[0] + v);
    } else if |tag| == 1 {
      LastItem(items[0] + v, TextOf(tag[0]), u);
      assert TextsOf(tag) == [TextOf(tag[0])];
    } else {
      MoreItems(items[0] + v, TextOf(tag[0]), Joined(TagItems(rest)) + ([CLOSE] + u));
      StringsRead(rest, u);
      assert ReadableTexts(tag) <==> ReadableTexts(rest);
      assert TextsOf(tag) == [TextOf(tag[0])] + TextsOf(rest);
    }
  }

  /** A tag without elements, or with a single null string, reads as an empty array. */
  predicate Hollow(tag: Tag) {
    tag == [] || tag == [None]
  }

  predicate ReadableTag(tag: Tag) {
    Hollow(tag) || ReadableTexts(tag)
  }

  function ArrayOf(tag: Tag): Value {
    Array(if Hollow(tag) then [] else TextsOf(tag))
  }

  lemma TagRead(tag: Tag, u: seq<bv8>)
    ensures ReadValue(TagText(tag) + u) == if ReadableTag(tag) then Reading(ArrayOf(tag), u) else Fail
  {
    hide Joined, TagItems, ReadItems, ReadValue, ReadableTexts, TextsOf;
    TagStep(tag, u);
    var s := Joined(TagItems(Normal(tag))) + ([CLOSE] + u);
    if Hollow(tag) {
      HollowText(u);
      EmptyArray(u);
    } else {
      StringsRead(tag, u);
      NotClosed(tag, u);
      ArrayValue(s);
    }
  }

  lemma HollowText(u: seq<bv8>)
    ensures Joined(TagItems([None])) + ([CLOSE] + u) == [CLOSE] + u
  {
    assert TagItems([None]) == [[]];
  }

  lemma NotClosed(tag: Tag, u: seq<bv8>)
    requires !Hollow(tag)
    ensures Joined(TagItems(tag)) + ([CLOSE] + u) != [] && (Joined(TagItems(tag)) + ([CLOSE] + u))[0] != CLOSE
  {
    hide Joined, EscapedAll;
    JoinedStep(TagItems(tag), u);
    var v := Joined(TagItems(tag)[1..]) + ([CLOSE] + u);
    assert TagItems(tag)[0] == JsonStr(tag[0]);
    if tag[0].Some? {
      FirstOf(JsonStr(tag[0]), if |tag| == 1 then [CLOSE] + u else [COMMA] + v);
    } else {
      assert [] + ([COMMA] + v) == [COMMA] + v;
    }
  }

  predicate ReadableTags(tags: seq<Tag>) {
    forall i | 0 <= i < |tags| :: ReadableTag(tags[i])
  }

  function ArraysOf(tags: seq<Tag>): seq<Value> {
    seq(|tags|, i requires 0 <= i < |tags| => ArrayOf(tags[i]))
  }

  lemma ArraysStep(tags: seq<Tag>)
    requires tags != []
    ensures ReadableTags(tags) <==> ReadableTag(tags[0]) && ReadableTags(tags[1..])
    ensures ArraysOf(tags) == [ArrayOf(tags[0])] + ArraysOf(tags[1..])
    ensures |tags| == 1 ==> ReadableTags(tags[1..]) && ArraysOf(tags) == [ArrayOf(tags[0])]
  {
    hide ReadableTag, ArrayOf;
    assert tags == [tags[0]] + tags[1..];
    assert forall i | 1 <= i < |tags| :: tags[i] == tags[1..][i - 1];
  }

  lemma {:induction false} TagListRead(tags: seq<Tag>, u: seq<bv8>)
    requires tags != []
    ensures ReadItems(Joined(TagTexts(tags)) + ([CLOSE] + u)) ==
            if ReadableTags(tags) then Reading(ArraysOf(tags), u) else Fail
  {
    hide Joined, TagText, TagTexts, ReadItems, ReadValue, ReadableTag, ArrayOf, ReadableTags, ArraysOf;
    var rest := tags[1..];
    TagListStep(tags, u);
    var v := AfterFirst(tags, u);
    TagRead(tags[0], v);
    ArraysStep(tags);
    if !ReadableTag(tags[0]) {
      NoItem(TagText(tags[0]) + v);
    } else if |tags| == 1 {
      LastItem(TagText(tags[0]) + v, ArrayOf(tags[0]), u);
    } else {
      MoreItems(TagText(tags[0]) + v, ArrayOf(tags[0]), Joined(TagTexts(rest)) + ([CLOSE] + u));
      TagListRead(rest, u);
    }
  }

  lemma TagsRead(ev: Event, u: seq<bv8>)
    requires ev.explicitTags == None
    ensures ReadValue(TagsText(ev) + u) ==
            if ReadableTags(ev.tags) then Reading(Array(ArraysOf(ev.tags)), u) else Fail
  {
    hide Joined, TagTexts, ReadItems, ReadValue, ReadableTag, ArrayOf;
    var t := Joined(TagTexts(ev.tags));
    Assoc([OPEN], t, [CLOSE]);
    Assoc([OPEN], t + [CLOSE], u);
    Assoc(t, [CLOSE], u);
    TagListStep(ev.tags, u);
    if ev.tags == [] {
      EmptyArray(u);
      assert ArraysOf([]) == [];
    } else {
      TagListRead(ev.tags, u);
      ArrayValue(t + ([CLOSE] + u));
    }
  }

  // ---------- The public key ----------

  /** The value of a base-16 digit (RFC 4648 section 8), in lower case. */
  function SixteenValue(c: bv8): nat {
    if 0x30 <= c <= 0x39 then c as int - 0x30 else if 0x61 <= c <= 0x66 then c as int - 0x61 + 10 else 16
  }

  predicate IsSixteen(s: seq<bv8>) {
    forall i | 0 <= i < |s| :: SixteenValue(s[i]) < 16
  }

  /** The number that the digits stand for. */
  function Base16(s: seq<bv8>): nat {
    if s == [] then 0 else 16 * Base16(s[..|s| - 1]) + SixteenValue(s[|s| - 1])
  }

  lemma NibbleValue(v: bv8)
    requires v < 16
    ensures SixteenValue(Hex.HexChar(v)) == v as int
  {}

  lemma NibblesOf(b: bv8)
    ensures b as int == 16 * (Hex.HighNibble(b) as int) + Hex.LowNibble(b) as int
  {}

  /** The text of the key is the key as a number, two digits a byte. */
  lemma {:induction false} KeyValue(b: seq<bv8>)
    ensures IsSixteen(Hex.Encode(b)) && Base16(Hex.Encode(b)) == FromBigEndian(b)
  {
    hide SixteenValue, Hex.HexChar, Hex.HighNibble, Hex.LowNibble, Hex.Encode;
    if b == [] {
      Hex.EncodeNothing();
    } else {
      var n := |b| - 1;
      var front, c := b[..n], b[n];
      KeyValue(front);
      assert b == front + [c];
      Hex.EncodeSnoc(front, c);
      var e, h, l := Hex.Encode(front), Hex.HexChar(Hex.HighNibble(c)), Hex.HexChar(Hex.LowNibble(c));
      NibbleValue(Hex.HighNibble(c));
      NibbleValue(Hex.LowNibble(c));
      NibblesOf(c);
      TwoDigits(e, h, l);
    }
  }

  lemma TwoDigits(e: seq<bv8>, h: bv8, l: bv8)
    ensures Base16(e + [h, l]) == 16 * (16 * Base16(e) + SixteenValue(h)) + SixteenValue(l)
    ensures IsSixteen(e + [h, l]) <==> IsSixteen(e) && SixteenValue(h) < 16 && SixteenValue(l) < 16
  {
    hide SixteenValue;
    var s := e + [h, l];
    assert s[..|s| - 1] == e + [h] && (e + [h])[..|e|] == e;
    assert forall i | 0 <= i < |e| :: s[i] == e[i];
  }

  lemma SixteenIsPlain(c: bv8)
    requires SixteenValue(c) < 16
    ensures Plain(c)
  {}

  lemma KeyRead(key: seq<bv8>, u: seq<bv8>)
    ensures ReadValue([QUOTE] + (Hex.Encode(key) + ([QUOTE] + u))) == Reading(Text(Hex.Encode(key)), u)
  {
    hide ReadValue, ReadString, Hex.Encode, Plain;
    var t := Hex.Encode(key);
    KeyIsPlain(key);
    PlainRead(t, u);
    QuotedValue(t + ([QUOTE] + u));
  }

  lemma KeyIsPlain(key: seq<bv8>)
    ensures forall i | 0 <= i < |Hex.Encode(key)| :: Plain(Hex.Encode(key)[i])
  {
    hide SixteenValue, Plain, Hex.Encode;
    KeyValue(key);
    forall i | 0 <= i < |Hex.Encode(key)|
      ensures Plain(Hex.Encode(key)[i])
    {
      SixteenIsPlain(Hex.Encode(key)[i]);
    }
  }

  // ---------- The event ----------

  /** The strings have no bare control characters, and none of them is null where a value is needed. */
  predicate Readable(ev: Event) {
    ReadableTags(ev.tags) && ReadableText(ev.content)
  }

  /** The fields in the order of NIP-01. */
  function ValueOf(ev: Event): Value {
    Array([Number(0), Text(Hex.Encode(ev.pubkey)), Number(Stamp(ev.createdAt)), Number(ev.kind),
           Array(ArraysOf(ev.tags)), TextOf(ev.content)])
  }

  lemma CommaIsNoDigit(u: seq<bv8>)
    ensures NoDigitFirst([COMMA] + u)
  {}

  lemma ContentItems(ev: Event)
    ensures ReadItems(JsonStr(ev.content) + [CLOSE]) ==
            if ReadableText(ev.content) then Reading([TextOf(ev.content)], []) else Fail
  {
    hide JsonStr, ReadItems, ReadValue, ReadableText, TextOf;
    var s := JsonStr(ev.content) + [CLOSE];
    OptionRead(ev.content, [CLOSE]);
    if ReadableText(ev.content) {
      assert [CLOSE] + [] == [CLOSE];
      LastItem(s, TextOf(ev.content), []);
    } else {
      NoItem(s);
    }
  }

  lemma TagItemsOf(ev: Event)
    requires ev.explicitTags == None
    ensures ReadItems(FromTags(ev)) ==
            if Readable(ev) then Reading([Array(ArraysOf(ev.tags)), TextOf(ev.content)], []) else Fail
  {
    hide TagsText, JsonStr, ReadItems, ReadValue, ReadableTags, ReadableText, ArraysOf, TextOf;
    var rest := JsonStr(ev.content) + [CLOSE];
    TagsRead(ev, [COMMA] + rest);
    ContentItems(ev);
    if ReadableTags(ev.tags) {
      MoreItems(FromTags(ev), Array(ArraysOf(ev.tags)), rest);
      if Readable(ev) {
        assert [Array(ArraysOf(ev.tags))] + [TextOf(ev.content)] == [Array(ArraysOf(ev.tags)), TextOf(ev.content)];
      }
    } else {
      NoItem(FromTags(ev));
    }
  }

  lemma NumberItems(ev: Event)
    requires ev.explicitTags == None
    ensures ReadItems(FromStamp(ev)) ==
            if Readable(ev) then Reading([Number(Stamp(ev.createdAt)), Number(ev.kind),
                                          Array(ArraysOf(ev.tags)), TextOf(ev.content)], [])
            else Fail
  {
    hide FromTags, Decimal, SignedDecimal, ReadItems, ReadValue, Readable, ArraysOf, TextOf, Stamp;
    TagItemsOf(ev);
    var n := Stamp(ev.createdAt);
    CommaIsNoDigit(FromKind(ev));
    UnsignedValue(n, [COMMA] + FromKind(ev));
    MoreItems(FromStamp(ev), Number(n), FromKind(ev));
    CommaIsNoDigit(FromTags(ev));
    NumberValue(ev.kind, [COMMA] + FromTags(ev));
    MoreItems(FromKind(ev), Number(ev.kind), FromTags(ev));
    if Readable(ev) {
      var two := [Array(ArraysOf(ev.tags)), TextOf(ev.content)];
      assert [Number(n)] + ([Number(ev.kind)] + two) == [Number(n), Number(ev.kind), two[0], two[1]];
    }
  }

  lemma Opening(ev: Event)
    requires ev.Valid()
    ensures Commitment(ev) ==
            [OPEN] + ([0x30] + ([COMMA] + ([QUOTE] + (Hex.Encode(ev.pubkey) + ([QUOTE] + ([COMMA] + FromStamp(ev)))))))
  {
    hide Commitment, FromStamp;
    CommitmentParts(ev);
    var e, s := Hex.Encode(ev.pubkey), FromStamp(ev);
    assert [QUOTE, COMMA] + s == [QUOTE] + ([COMMA] + s);
    FourFirst(OPEN, 0x30, COMMA, QUOTE, FromPubkey(ev));
  }

  lemma FourFirst<T>(a: T, b: T, c: T, d: T, s: seq<T>)
    ensures [a, b, c, d] + s == [a] + ([b] + ([c] + ([d] + s)))
  {}

  lemma ZeroRead(u: seq<bv8>)
    ensures ReadValue([0x30] + ([COMMA] + u)) == Reading(Number(0), [COMMA] + u)
  {
    assert Decimal(0) == [0x30];
    CommaIsNoDigit(u);
    UnsignedValue(0, [COMMA] + u);
  }

  /**
    On every event without explicit tags: the text reads as the array of the fields, if no string has a
    bare control character and no null string stands where a value is needed, and otherwise not at all.
   */
  lemma CommitmentReads(ev: Event)
    requires ev.Valid() && ev.explicitTags == None
    ensures ReadText(Commitment(ev)) == if Readable(ev) then Document(ValueOf(ev)) else Invalid
  {
    hide Commitment, FromStamp, ReadItems, ReadValue, Readable, Stamp, ArraysOf, TextOf, Hex.Encode;
    Opening(ev);
    var e := Hex.Encode(ev.pubkey);
    var afterKey := [COMMA] + FromStamp(ev);
    var key := [QUOTE] + (e + ([QUOTE] + afterKey));
    var items := [0x30] + ([COMMA] + key);
    NumberItems(ev);
    KeyRead(ev.pubkey, afterKey);
    MoreItems(key, Text(e), FromStamp(ev));
    ZeroRead(key);
    MoreItems(items, Number(0), key);
    assert items[0] != CLOSE;
    ArrayValue(items);
    if Readable(ev) {
      var four := [Number(Stamp(ev.createdAt)), Number(ev.kind), Array(ArraysOf(ev.tags)), TextOf(ev.content)];
      assert [Number(0)] + ([Text(e)] + four) == [Number(0), Text(e), four[0], four[1], four[2], four[3]];
    }
  }

  /** A note whose content is the control character 1, and one without content: neither text is JSON. */
  lemma UnreadableExamples()
    ensures ReadText(Commitment(NOTE.(content := Some([0x01])))) == Invalid
    ensures ReadText(Commitment(NOTE.(content := None))) == Invalid
  {
    hide Commitment, ReadText;
    CommitmentReads(NOTE.(content := Some([0x01])));
    CommitmentReads(NOTE.(content := None));
    var bare: CString := [0x01];
    assert Bare(bare[0]);
  }
}
