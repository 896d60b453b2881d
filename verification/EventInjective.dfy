/**
  The serialization determines the event. Each part of the text is a prefix code: from the text and
  whatever follows it, the part and the rest can be told apart.
 */
module EventInjective {
  import Hex
  import opened EventText
  import opened Options
  import opened Sequences

  // ---------- Strings ----------

  lemma DropFirst(c: bv8, u: seq<bv8>, v: seq<bv8>)
    requires [c] + u == [c] + v
    ensures u == v
  {
    assert ([c] + u)[1..] == u && ([c] + v)[1..] == v;
  }

  /** The first one or two bytes tell which character was escaped. */
  lemma EscapedPrefix(a: bv8, u: seq<bv8>, b: bv8, v: seq<bv8>)
    requires Escaped(a) + u == Escaped(b) + v
    ensures a == b && u == v
  {
    var s := Escaped(a) + u;
    var t := Escaped(b) + v;
    assert s[0] == t[0];
    assert |Escaped(a)| == 2 <==> s[0] == BACKSLASH;
    assert |Escaped(b)| == 2 <==> t[0] == BACKSLASH;
    if |Escaped(a)| == 2 {
      assert s[1] == t[1];
      assert s[2..] == u && t[2..] == v;
    } else {
      assert s[1..] == u && t[1..] == v;
    }
  }

  lemma EscapedStep(s: seq<bv8>, u: seq<bv8>)
    requires s != []
    ensures EscapedAll(s) + u == Escaped(s[0]) + (EscapedAll(s[1..]) + u)
    ensures (EscapedAll(s) + u)[0] != QUOTE
  {
    hide Escaped;
    Assoc(Escaped(s[0]), EscapedAll(s[1..]), u);
    NotQuote(s[0], EscapedAll(s[1..]) + u);
  }

  lemma NotQuote(c: bv8, u: seq<bv8>)
    ensures (Escaped(c) + u)[0] != QUOTE
  {}

  /** Up to its closing quote, the escaped text determines the string. */
  lemma {:induction false} StringPrefix(s: seq<bv8>, u: seq<bv8>, t: seq<bv8>, v: seq<bv8>)
    requires u != [] && u[0] == QUOTE && v != [] && v[0] == QUOTE
    requires EscapedAll(s) + u == EscapedAll(t) + v
    ensures s == t && u == v
  {
    hide Escaped, EscapedAll;
    NothingEscaped(u);
    NothingEscaped(v);
    if s != [] {
      EscapedStep(s, u);
    }
    if t != [] {
      EscapedStep(t, v);
    }
    if s != [] && t != [] {
      EscapedPrefix(s[0], EscapedAll(s[1..]) + u, t[0], EscapedAll(t[1..]) + v);
      StringPrefix(s[1..], u, t[1..], v);
      assert s == [s[0]] + s[1..] && t == [t[0]] + t[1..];
    }
  }

  lemma NothingEscaped(u: seq<bv8>)
    ensures EscapedAll([]) + u == u
  {}

  /** What may follow a string in a list. */
  ghost predicate Delimited(u: seq<bv8>) {
    u != [] && u[0] != QUOTE
  }

  lemma JsonStep(s: CString, u: seq<bv8>)
    ensures JsonStr(Some(s)) + u == [QUOTE] + (EscapedAll(s) + ([QUOTE] + u))
  {
    hide EscapedAll;
    Assoc([QUOTE], EscapedAll(s), [QUOTE]);
    Assoc([QUOTE], EscapedAll(s) + [QUOTE], u);
    Assoc(EscapedAll(s), [QUOTE], u);
  }

  lemma JsonNull(u: seq<bv8>)
    ensures JsonStr(None) + u == u
  {}

  lemma JsonPrefix(s: Option<CString>, u: seq<bv8>, t: Option<CString>, v: seq<bv8>)
    requires Delimited(u) && Delimited(v) && JsonStr(s) + u == JsonStr(t) + v
    ensures s == t && u == v
  {
    hide EscapedAll, JsonStr;
    JsonNull(u);
    JsonNull(v);
    if s.Some? {
      JsonStep(s.value, u);
    }
    if t.Some? {
      JsonStep(t.value, v);
    }
    if s.Some? && t.Some? {
      DropFirst(QUOTE, EscapedAll(s.value) + ([QUOTE] + u), EscapedAll(t.value) + ([QUOTE] + v));
      StringPrefix(s.value, [QUOTE] + u, t.value, [QUOTE] + v);
      DropFirst(QUOTE, u, v);
    }
  }

  // ---------- Tags ----------

  /** A tag without elements prints like a tag whose only element is a null pointer. */
  function Normal(tag: Tag): (t: Tag)
    ensures t != []
  {
    if tag == [] then [None] else tag
  }

  lemma NormalItems(tag: Tag)
    ensures Joined(TagItems(Normal(tag))) == Joined(TagItems(tag))
  {}

  /** The first item, and what follows it up to the end of the list. */
  lemma JoinedStep(items: seq<seq<bv8>>, u: seq<bv8>)
    requires items != []
    ensures Joined(items) + ([CLOSE] + u)
         == items[0] + (if |items| == 1 then [CLOSE] + u else [COMMA] + (Joined(items[1..]) + ([CLOSE] + u)))
  {
    if |items| > 1 {
      Assoc(items[0] + [COMMA], Joined(items[1..]), [CLOSE] + u);
      Assoc(items[0], [COMMA], Joined(items[1..]) + ([CLOSE] + u));
    }
  }

  lemma {:induction false} ItemsPrefix(s: Tag, u: seq<bv8>, t: Tag, v: seq<bv8>)
    requires s != [] && t != []
    requires Joined(TagItems(s)) + ([CLOSE] + u) == Joined(TagItems(t)) + ([CLOSE] + v)
    ensures s == t && u == v
  {
    hide JsonStr, Joined;
    JoinedStep(TagItems(s), u);
    JoinedStep(TagItems(t), v);
    var x := if |s| == 1 then [CLOSE] + u else [COMMA] + (Joined(TagItems(s[1..])) + ([CLOSE] + u));
    var y := if |t| == 1 then [CLOSE] + v else [COMMA] + (Joined(TagItems(t[1..])) + ([CLOSE] + v));
    assert TagItems(s)[1..] == TagItems(s[1..]) && TagItems(t)[1..] == TagItems(t[1..]);
    JsonPrefix(s[0], x, t[0], y);
    assert x[0] == y[0];
    if |s| == 1 {
      DropFirst(CLOSE, u, v);
    } else {
      DropFirst(COMMA, Joined(TagItems(s[1..])) + ([CLOSE] + u), Joined(TagItems(t[1..])) + ([CLOSE] + v));
      ItemsPrefix(s[1..], u, t[1..], v);
      assert s == [s[0]] + s[1..] && t == [t[0]] + t[1..];
    }
  }

  lemma TagStep(tag: Tag, u: seq<bv8>)
    ensures TagText(tag) + u == [OPEN] + (Joined(TagItems(Normal(tag))) + ([CLOSE] + u))
  {
    hide Joined, TagItems;
    NormalItems(tag);
    Assoc([OPEN], Joined(TagItems(tag)), [CLOSE]);
    Assoc([OPEN], Joined(TagItems(tag)) + [CLOSE], u);
    Assoc(Joined(TagItems(tag)), [CLOSE], u);
  }

  lemma TagPrefix(s: Tag, u: seq<bv8>, t: Tag, v: seq<bv8>)
    requires TagText(s) + u == TagText(t) + v
    ensures Normal(s) == Normal(t) && u == v
  {
    hide Joined, TagItems, TagText;
    TagStep(s, u);
    TagStep(t, v);
    DropFirst(OPEN, Joined(TagItems(Normal(s))) + ([CLOSE] + u), Joined(TagItems(Normal(t))) + ([CLOSE] + v));
    ItemsPrefix(Normal(s), u, Normal(t), v);
  }

  function NormalAll(tags: seq<Tag>): seq<Tag> {
    seq(|tags|, i requires 0 <= i < |tags| => Normal(tags[i]))
  }

  lemma TagFirst(tag: Tag, u: seq<bv8>)
    ensures (TagText(tag) + u)[0] == OPEN
  {}

  /** What follows the first tag of a list. */
  function AfterFirst(tags: seq<Tag>, u: seq<bv8>): seq<bv8>
    requires tags != []
  {
    if |tags| == 1 then [CLOSE] + u else [COMMA] + (Joined(TagTexts(tags[1..])) + ([CLOSE] + u))
  }

  lemma TagListStep(tags: seq<Tag>, u: seq<bv8>)
    ensures tags == [] ==> Joined(TagTexts(tags)) + ([CLOSE] + u) == [CLOSE] + u
    ensures tags != [] ==> Joined(TagTexts(tags)) + ([CLOSE] + u) == TagText(tags[0]) + AfterFirst(tags, u)
    ensures tags != [] ==> (Joined(TagTexts(tags)) + ([CLOSE] + u))[0] == OPEN
  {
    hide TagText;
    if tags != [] {
      assert TagTexts(tags)[1..] == TagTexts(tags[1..]);
      JoinedStep(TagTexts(tags), u);
      TagFirst(tags[0], AfterFirst(tags, u));
    }
  }

  lemma {:induction false} TagListPrefix(s: seq<Tag>, u: seq<bv8>, t: seq<Tag>, v: seq<bv8>)
    requires Joined(TagTexts(s)) + ([CLOSE] + u) == Joined(TagTexts(t)) + ([CLOSE] + v)
    ensures NormalAll(s) == NormalAll(t) && u == v
  {
    hide TagText, Normal, Joined, TagTexts;
    TagListStep(s, u);
    TagListStep(t, v);
    if s == [] && t == [] {
      DropFirst(CLOSE, u, v);
    } else if s != [] && t != [] {
      TagPrefix(s[0], AfterFirst(s, u), t[0], AfterFirst(t, v));
      assert AfterFirst(s, u)[0] == AfterFirst(t, v)[0];
      if |s| == 1 {
        DropFirst(CLOSE, u, v);
      } else {
        DropFirst(COMMA, Joined(TagTexts(s[1..])) + ([CLOSE] + u), Joined(TagTexts(t[1..])) + ([CLOSE] + v));
        TagListPrefix(s[1..], u, t[1..], v);
      }
      NormalStep(s);
      NormalStep(t);
    }
  }

  lemma NormalStep(tags: seq<Tag>)
    requires tags != []
    ensures NormalAll(tags) == [Normal(tags[0])] + NormalAll(tags[1..])
  {}

  // ---------- Numbers ----------

  lemma DigitInjective(a: int, b: int)
    requires 0 <= a < 10 && 0 <= b < 10
    ensures Digit(a) == Digit(b) <==> a == b
    ensures Digit(a) != COMMA && Digit(a) != MINUS
  {}

  lemma {:induction false} DecimalDigits(n: nat)
    ensures COMMA !in Decimal(n) && MINUS !in Decimal(n)
  {
    hide Digit;
    if n < 10 {
      DigitInjective(n, n);
    } else {
      DecimalDigits(n / 10);
      DigitInjective(n % 10, n % 10);
    }
  }

  lemma {:induction false} DecimalInjective(m: nat, n: nat)
    requires Decimal(m) == Decimal(n)
    ensures m == n
  {
    hide Digit;
    if m < 10 && n < 10 {
      DigitInjective(m, n);
    } else if m >= 10 && n >= 10 {
      var s, t := Decimal(m), Decimal(n);
      assert s[|s| - 1] == Digit(m % 10) && t[|t| - 1] == Digit(n % 10);
      assert s[..|s| - 1] == Decimal(m / 10) && t[..|t| - 1] == Decimal(n / 10);
      DigitInjective(m % 10, n % 10);
      DecimalInjective(m / 10, n / 10);
    }
  }

  function Pow10(d: nat): (r: nat)
    ensures r > 0
  {
    if d == 0 then 1 else 10 * Pow10(d - 1)
  }

  /** A number has at most `d` digits iff it is below 10^d. */
  lemma {:induction false} DecimalLength(n: nat, d: nat)
    requires d > 0
    ensures |Decimal(n)| <= d <==> n < Pow10(d)
  {
    if d == 1 {
      assert Pow10(0) == 1;
    } else if n >= 10 {
      DecimalLength(n / 10, d - 1);
    } else {
      assert 10 * Pow10(d - 1) >= 10;
    }
  }

  // The 16-byte buffer keeps 15 digits.
  const STAMP_LIMIT: nat := 1_000_000_000_000_000

  lemma StampLimit()
    ensures Pow10(15) == STAMP_LIMIT && Pow10(14) == 100_000_000_000_000
  {
    assert Pow10(3) == 1000;
    assert Pow10(6) == 1_000_000;
    assert Pow10(9) == 1_000_000_000;
    assert Pow10(12) == 1_000_000_000_000;
  }

  /** What the buffer keeps of a timestamp: itself, or its 15 leading digits. */
  function Stamp(n: nat): (r: nat)
    ensures r < STAMP_LIMIT && (n < STAMP_LIMIT ==> r == n)
  {
    if n < STAMP_LIMIT then n else Stamp(n / 10)
  }

  lemma {:induction false} StampText(n: nat)
    ensures Snprintf(16, Decimal(n)) == Decimal(Stamp(n))
  {
    hide Digit;
    StampLimit();
    DecimalLength(n, 15);
    if n >= STAMP_LIMIT {
      StampText(n / 10);
      var s, t := Decimal(n), Decimal(n / 10);
      assert s == t + [Digit(n % 10)];
      assert Snprintf(16, s) == Snprintf(16, t);
    }
  }

  lemma KindText(k: int)
    requires -0x8000_0000 <= k < 0x8000_0000
    ensures Snprintf(16, SignedDecimal(k)) == SignedDecimal(k)
  {
    StampLimit();
    DecimalLength(if k < 0 then -k else k, 14);
  }

  lemma SignedInjective(j: int, k: int)
    requires SignedDecimal(j) == SignedDecimal(k)
    ensures j == k
  {
    hide Decimal;
    DecimalDigits(if j < 0 then -j else j);
    DecimalDigits(if k < 0 then -k else k);
    var s, t := SignedDecimal(j), SignedDecimal(k);
    assert s[0] == t[0];
    if j < 0 && k < 0 {
      DropFirst(MINUS, Decimal(-j), Decimal(-k));
      DecimalInjective(-j, -k);
    } else if j >= 0 && k >= 0 {
      DecimalInjective(j, k);
    }
  }

  lemma SignedNoComma(k: int)
    ensures COMMA !in SignedDecimal(k)
  {
    hide Decimal;
    DecimalDigits(if k < 0 then -k else k);
  }

  lemma CutAt<T>(a: seq<T>, c: T, u: seq<T>, b: seq<T>, v: seq<T>)
    requires c !in a && c !in b && a + ([c] + u) == b + ([c] + v)
    ensures a == b && u == v
  {
    var x, y := a + ([c] + u), b + ([c] + v);
    assert x[|a|] == c && y[|b|] == c;
    assert forall k | 0 <= k < |a| :: x[k] == a[k] != c;
    assert forall k | 0 <= k < |b| :: y[k] == b[k] != c;
    assert |a| == |b|;
    assert a == x[..|a|] && b == y[..|b|];
    assert x[|a| + 1..] == u && y[|b| + 1..] == v;
  }

  // ---------- The last string ----------

  /** Inside escaped text every quote follows a backslash. */
  lemma {:induction false} QuoteEscaped(s: seq<bv8>, j: nat)
    requires j < |EscapedAll(s)| && EscapedAll(s)[j] == QUOTE
    ensures j > 0 && EscapedAll(s)[j - 1] == BACKSLASH
  {
    var n := |Escaped(s[0])|;
    if j >= n {
      assert EscapedAll(s)[j] == EscapedAll(s[1..])[j - n];
      QuoteEscaped(s[1..], j - n);
    }
  }

  /** What is where in a text that ends with a quoted string. */
  lemma Layout<T>(x: seq<T>, comma: T, quote: T, e: seq<T>, close: T)
    ensures var w := x + ([comma] + ([quote] + e + [quote] + [close]));
            && |w| == |x| + |e| + 4 && w[..|x|] == x && w[|x|] == comma && w[|x| + 1] == quote
            && w[|x| + 2..|w| - 2] == e && w[|w| - 2] == quote
            && (forall j | 0 <= j < |e| :: w[|x| + 2 + j] == e[j])
  {}

  lemma LayoutNull<T>(x: seq<T>, comma: T, close: T)
    ensures var w := x + ([comma] + ([] + [close]));
            |w| == |x| + 2 && w[..|x|] == x && w[|w| - 2] == comma
  {}

  /** Its opening quote follows a comma, so it cannot be inside a longer last string. */
  lemma NotLonger(x: seq<bv8>, s: seq<bv8>, y: seq<bv8>, t: seq<bv8>)
    requires x + ([COMMA] + ([QUOTE] + EscapedAll(s) + [QUOTE] + [CLOSE]))
          == y + ([COMMA] + ([QUOTE] + EscapedAll(t) + [QUOTE] + [CLOSE]))
    ensures |EscapedAll(s)| >= |EscapedAll(t)|
  {
    hide EscapedAll;
    Layout(x, COMMA, QUOTE, EscapedAll(s), CLOSE);
    Layout(y, COMMA, QUOTE, EscapedAll(t), CLOSE);
    var j := |EscapedAll(t)| - |EscapedAll(s)| - 1;
    if j >= 0 {
      assert |y| + 2 + j == |x| + 1;
      assert EscapedAll(t)[j] == QUOTE;
      assert j > 0 ==> EscapedAll(t)[j - 1] == COMMA;
      QuoteEscaped(t, j);
    }
  }

  /** Whatever precedes it, the last string of the text can be told from the right. */
  lemma LastString(x: seq<bv8>, s: Option<CString>, y: seq<bv8>, t: Option<CString>)
    requires x + ([COMMA] + (JsonStr(s) + [CLOSE])) == y + ([COMMA] + (JsonStr(t) + [CLOSE]))
    ensures x == y && s == t
  {
    hide EscapedAll;
    LayoutNull(x, COMMA, CLOSE);
    LayoutNull(y, COMMA, CLOSE);
    if s.Some? {
      Layout(x, COMMA, QUOTE, EscapedAll(s.value), CLOSE);
    }
    if t.Some? {
      Layout(y, COMMA, QUOTE, EscapedAll(t.value), CLOSE);
    }
    if s.Some? && t.Some? {
      NotLonger(x, s.value, y, t.value);
      NotLonger(y, t.value, x, s.value);
      StringPrefix(s.value, [QUOTE], t.value, [QUOTE]);
    }
  }

  // ---------- The event ----------

  // The text from each of its parts on.
  function FromTags(ev: Event): seq<bv8> { TagsText(ev) + ([COMMA] + (JsonStr(ev.content) + [CLOSE])) }
  function FromKind(ev: Event): seq<bv8> { SignedDecimal(ev.kind) + ([COMMA] + FromTags(ev)) }
  function FromStamp(ev: Event): seq<bv8> { Decimal(Stamp(ev.createdAt)) + ([COMMA] + FromKind(ev)) }
  function FromPubkey(ev: Event): seq<bv8> { Hex.Encode(ev.pubkey) + ([QUOTE, COMMA] + FromStamp(ev)) }

  lemma CommitmentParts(ev: Event)
    requires ev.Valid()
    ensures Commitment(ev) == [OPEN, 0x30, COMMA, QUOTE] + FromPubkey(ev)
  {
    hide Decimal, SignedDecimal, TagsText, JsonStr, Stamp, Snprintf;
    StampText(ev.createdAt);
    KindText(ev.kind);
    RightNested([OPEN, 0x30, COMMA, QUOTE], Hex.Encode(ev.pubkey), [QUOTE, COMMA], Decimal(Stamp(ev.createdAt)),
                [COMMA], SignedDecimal(ev.kind), [COMMA], TagsText(ev), [COMMA], JsonStr(ev.content), [CLOSE]);
  }

  lemma RightNested<T>(a: seq<T>, b: seq<T>, c: seq<T>, d: seq<T>, e: seq<T>, f: seq<T>, g: seq<T>,
                       h: seq<T>, i: seq<T>, j: seq<T>, k: seq<T>)
    ensures a + b + c + d + e + f + g + h + i + j + k
         == a + (b + (c + (d + (e + (f + (g + (h + (i + (j + k)))))))))
  {}

  /** What two events have to agree on to be printed alike. */
  ghost predicate PrintAlike(a: Event, b: Event) {
    && a.pubkey == b.pubkey && Stamp(a.createdAt) == Stamp(b.createdAt) && a.kind == b.kind
    && TagsText(a) == TagsText(b) && a.content == b.content
  }

  /** For all events, with explicit tags or without: exactly these parts decide the text. */
  lemma CommitmentIff(a: Event, b: Event)
    requires a.Valid() && b.Valid()
    ensures Commitment(a) == Commitment(b) <==> PrintAlike(a, b)
  {
    hide Commitment, Stamp, TagsText, JsonStr, Decimal, SignedDecimal;
    CommitmentParts(a);
    CommitmentParts(b);
    if Commitment(a) == Commitment(b) {
      SameParts(a, b);
    }
  }

  lemma SameParts(a: Event, b: Event)
    requires a.Valid() && b.Valid()
    requires [OPEN, 0x30, COMMA, QUOTE] + FromPubkey(a) == [OPEN, 0x30, COMMA, QUOTE] + FromPubkey(b)
    ensures PrintAlike(a, b)
  {
    hide FromStamp, FromKind, FromTags, TagsText, JsonStr, Stamp;
    assert ([OPEN, 0x30, COMMA, QUOTE] + FromPubkey(a))[4..] == FromPubkey(a);
    assert ([OPEN, 0x30, COMMA, QUOTE] + FromPubkey(b))[4..] == FromPubkey(b);
    assert Hex.Encode(a.pubkey) == FromPubkey(a)[..64] && Hex.Encode(b.pubkey) == FromPubkey(b)[..64];
    Hex.EncodeInjective(a.pubkey, b.pubkey);
    assert FromPubkey(a)[66..] == FromStamp(a) && FromPubkey(b)[66..] == FromStamp(b);
    SameNumbers(a, b);
    SameEnds(a, b);
  }

  lemma SameEnds(a: Event, b: Event)
    requires FromTags(a) == FromTags(b)
    ensures TagsText(a) == TagsText(b) && a.content == b.content
  {
    hide TagsText, JsonStr;
    LastString(TagsText(a), a.content, TagsText(b), b.content);
  }

  lemma SameNumbers(a: Event, b: Event)
    requires FromStamp(a) == FromStamp(b)
    ensures Stamp(a.createdAt) == Stamp(b.createdAt) && a.kind == b.kind && FromTags(a) == FromTags(b)
  {
    hide Decimal, SignedDecimal, FromTags, Stamp;
    var m, n := Stamp(a.createdAt), Stamp(b.createdAt);
    DecimalDigits(m);
    DecimalDigits(n);
    CutAt(Decimal(m), COMMA, FromKind(a), Decimal(n), FromKind(b));
    DecimalInjective(m, n);
    SignedNoComma(a.kind);
    SignedNoComma(b.kind);
    CutAt(SignedDecimal(a.kind), COMMA, FromTags(a), SignedDecimal(b.kind), FromTags(b));
    SignedInjective(a.kind, b.kind);
  }

  // ---------- Lists of tags ----------

  lemma SameTagText(s: seq<Tag>, t: seq<Tag>)
    requires NormalAll(s) == NormalAll(t)
    ensures TagTexts(s) == TagTexts(t)
  {
    hide Joined, JsonStr;
    assert |NormalAll(s)| == |s| && |NormalAll(t)| == |t|;
    forall i | 0 <= i < |s|
      ensures TagTexts(s)[i] == TagTexts(t)[i]
    {
      assert NormalAll(s)[i] == NormalAll(t)[i];
      NormalItems(s[i]);
      NormalItems(t[i]);
    }
  }

  /** Without explicit tags the text of the tags determines them, but for `[]` and `[null]`. */
  lemma TagsTextIff(a: Event, b: Event)
    requires a.explicitTags == None && b.explicitTags == None
    ensures TagsText(a) == TagsText(b) <==> NormalAll(a.tags) == NormalAll(b.tags)
  {
    hide Joined, TagTexts, NormalAll;
    if TagsText(a) == TagsText(b) {
      Bracketed(Joined(TagTexts(a.tags)), Joined(TagTexts(b.tags)));
      TagListPrefix(a.tags, [], b.tags, []);
    }
    if NormalAll(a.tags) == NormalAll(b.tags) {
      SameTagText(a.tags, b.tags);
    }
  }

  lemma Bracketed(x: seq<bv8>, y: seq<bv8>)
    requires [OPEN] + x + [CLOSE] == [OPEN] + y + [CLOSE]
    ensures x + ([CLOSE] + []) == y + ([CLOSE] + [])
  {
    assert [OPEN] + x + [CLOSE] == [OPEN] + (x + ([CLOSE] + []));
    assert [OPEN] + y + [CLOSE] == [OPEN] + (y + ([CLOSE] + []));
    DropFirst(OPEN, x + ([CLOSE] + []), y + ([CLOSE] + []));
  }

  /** Everything the serialization says about an event without explicit tags. */
  datatype Meaning = Meaning(pubkey: seq<bv8>, stamp: nat, kind: int, tags: seq<Tag>, content: Option<CString>)

  function MeaningOf(ev: Event): Meaning {
    Meaning(ev.pubkey, Stamp(ev.createdAt), ev.kind, NormalAll(ev.tags), ev.content)
  }

  /** Two such events print alike exactly when they mean the same. */
  lemma CommitmentInjective(a: Event, b: Event)
    requires a.Valid() && b.Valid() && a.explicitTags == None && b.explicitTags == None
    ensures Commitment(a) == Commitment(b) <==> MeaningOf(a) == MeaningOf(b)
  {
    hide Commitment, Stamp, TagsText, NormalAll;
    CommitmentIff(a, b);
    TagsTextIff(a, b);
  }

  /** In particular, within the range of the buffers and without null strings, nothing is lost. */
  lemma CommitmentDetermines(a: Event, b: Event)
    requires a.Valid() && b.Valid() && a.explicitTags == None && b.explicitTags == None
    requires a.createdAt < STAMP_LIMIT && b.createdAt < STAMP_LIMIT
    requires forall i | 0 <= i < |a.tags| :: a.tags[i] != [None]
    requires forall i | 0 <= i < |b.tags| :: b.tags[i] != [None]
    ensures Commitment(a) == Commitment(b) <==> a == b
  {
    hide Commitment, Stamp;
    CommitmentInjective(a, b);
    if Commitment(a) == Commitment(b) {
      assert |a.tags| == |NormalAll(a.tags)| == |NormalAll(b.tags)| == |b.tags|;
      forall i | 0 <= i < |a.tags|
        ensures a.tags[i] == b.tags[i]
      {
        assert NormalAll(a.tags)[i] == NormalAll(b.tags)[i];
      }
    }
  }

  // ---------- What is lost ----------

  /** Explicit tags are told from a list exactly when they are not its text. */
  lemma ExplicitTagsCollide(ev: Event, text: CString)
    requires ev.Valid() && ev.explicitTags == None
    ensures Commitment(ev.(explicitTags := Some(text))) == Commitment(ev) <==> text == TagsText(ev)
  {
    hide Commitment, Stamp, TagTexts, Joined;
    CommitmentIff(ev.(explicitTags := Some(text)), ev);
  }

  const NOTE: Event := Event(seq(32, _ => 0), 0, 1, None, [], Some([]))

  /** A note without tags, and the same note with the explicit tags "[]". */
  lemma ExplicitTagsExample()
    ensures var other := NOTE.(explicitTags := Some([OPEN, CLOSE]));
            NOTE.Valid() && other.Valid() && other != NOTE && Commitment(other) == Commitment(NOTE)
  {
    hide Commitment;
    assert TagsText(NOTE) == [OPEN, CLOSE];
    ExplicitTagsCollide(NOTE, [OPEN, CLOSE]);
  }

  /** Two late timestamps with the same 15 leading digits. */
  lemma LateNotesCollide()
    ensures var a, b := NOTE.(createdAt := 1_000_000_000_000_000), NOTE.(createdAt := 1_000_000_000_000_001);
            a.Valid() && b.Valid() && a != b && Commitment(a) == Commitment(b)
  {
    hide Commitment;
    var a, b := NOTE.(createdAt := 1_000_000_000_000_000), NOTE.(createdAt := 1_000_000_000_000_001);
    assert Stamp(a.createdAt) == Stamp(b.createdAt) == 100_000_000_000_000;
    CommitmentIff(a, b);
  }

  /** A tag without elements, and a tag whose only element is a null pointer. */
  lemma EmptyTagsCollide()
    ensures var a, b := NOTE.(tags := [[]]), NOTE.(tags := [[None]]);
            a.Valid() && b.Valid() && a != b && Commitment(a) == Commitment(b)
  {
    hide Commitment, Stamp;
    var a, b := NOTE.(tags := [[]]), NOTE.(tags := [[None]]);
    assert NormalAll(a.tags) == NormalAll(b.tags) == [[None]];
    CommitmentInjective(a, b);
  }
}
