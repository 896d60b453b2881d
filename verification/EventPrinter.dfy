/**
  `event_commitment` and its helpers in src/nostril/nostri.c: the serialization is written through a
  bounds-checked cursor, and is either complete or reported as a failure.
 */
module EventPrinter {
  import Hex
  import opened Cursors
  import opened EventText
  import opened Memory
  import opened Options
  import opened Sequences

  /**
    The common contract of the printing steps: with room to spare the text is appended; success means
    the whole text is there; failure means there was no room to spare. Either way nothing is written
    past the end.
   */
  twostate predicate Prints(cur: Cursor, text: seq<bv8>, ok: bool)
    requires old(cur.Valid()) && cur.Valid()
    reads cur, cur.buf
  {
    && (ok ==> cur.Written() == old(cur.Written()) + text)
    && (!ok ==> old(cur.p) + |text| >= cur.end)
    && cur.buf[cur.end..] == old(cur.buf[cur.end..])
  }

  method PushEscapedChar(cur: Cursor, c: bv8) returns (ok: bool)
    requires cur.Valid()
    modifies cur, cur.buf
    ensures cur.Valid() && Prints(cur, Escaped(c), ok)
  {
    if c == QUOTE {
      ok := cur.Push([BACKSLASH, QUOTE]);
    } else if c == BACKSLASH {
      ok := cur.Push([BACKSLASH, BACKSLASH]);
    } else if c == 0x08 {
      ok := cur.Push([BACKSLASH, 0x62]);
    } else if c == 0x0c {
      ok := cur.Push([BACKSLASH, 0x66]);
    } else if c == 0x0a {
      ok := cur.Push([BACKSLASH, 0x6e]);
    } else if c == 0x0d {
      ok := cur.Push([BACKSLASH, 0x72]);
    } else if c == 0x09 {
      ok := cur.Push([BACKSLASH, 0x74]);
    } else {
      ok := cur.PushByte(c);
    }
  }

  /** What is still to be printed brings the text up to `target`. */
  ghost predicate Remaining(cur: Cursor, rest: seq<bv8>, target: seq<bv8>)
    reads cur, cur.buf
  {
    cur.Valid() && cur.Written() + rest == target
  }

  lemma EscapedFrom(s: seq<bv8>, i: nat)
    requires i < |s|
    ensures EscapedAll(s[i..]) + [QUOTE] == Escaped(s[i]) + (EscapedAll(s[i + 1..]) + [QUOTE])
  {
    hide Escaped;
    assert s[i..][1..] == s[i + 1..];
    Assoc(Escaped(s[i]), EscapedAll(s[i + 1..]), [QUOTE]);
  }

  method PushJsonStr(cur: Cursor, str: Option<CString>) returns (ok: bool)
    requires cur.Valid()
    modifies cur, cur.buf
    ensures cur.Valid() && Prints(cur, JsonStr(str), ok)
  {
    hide Escaped, EscapedAll;
    // The content can be null.
    if str.None? {
      return true;
    }
    var s := str.value;
    ghost var start := cur.Written();
    ghost var target := start + JsonStr(str);
    assert s[0..] == s;
    ok := cur.PushByte(QUOTE);
    if !ok {
      return;
    }
    Assoc(start, [QUOTE], EscapedAll(s) + [QUOTE]);
    Assoc([QUOTE], EscapedAll(s), [QUOTE]);
    for i := 0 to |s|
      invariant Remaining(cur, EscapedAll(s[i..]) + [QUOTE], target)
      invariant cur.buf[cur.end..] == old(cur.buf[cur.end..])
    {
      ghost var now := cur.Written();
      EscapedFrom(s, i);
      Assoc(now, Escaped(s[i]), EscapedAll(s[i + 1..]) + [QUOTE]);
      ok := PushEscapedChar(cur, s[i]);
      if !ok {
        return;
      }
    }
    NothingLeft(s);
    ok := cur.PushByte(QUOTE);
  }

  lemma NothingLeft(s: seq<bv8>)
    ensures EscapedAll(s[|s|..]) + [QUOTE] == [QUOTE]
  {}

  /** The rest of a list from item `i` on. */
  function ListFrom(items: seq<seq<bv8>>, i: nat): seq<bv8>
    requires i <= |items|
  {
    Joined(items[i..]) + [CLOSE]
  }

  lemma ListStep(items: seq<seq<bv8>>, i: nat)
    requires i < |items|
    ensures ListFrom(items, i)
         == items[i] + (if i == |items| - 1 then ListFrom(items, i + 1) else [COMMA] + ListFrom(items, i + 1))
  {
    var rest := items[i..];
    assert rest[1..] == items[i + 1..];
    if i < |items| - 1 {
      Assoc(items[i] + [COMMA], Joined(items[i + 1..]), [CLOSE]);
      Assoc(items[i], [COMMA], Joined(items[i + 1..]) + [CLOSE]);
    }
  }

  lemma ListEnds(items: seq<seq<bv8>>)
    ensures ListFrom(items, |items|) == [CLOSE]
    ensures [OPEN] + ListFrom(items, 0) == [OPEN] + Joined(items) + [CLOSE]
  {
    assert items[0..] == items;
    Assoc([OPEN], Joined(items), [CLOSE]);
  }

  method PushTag(cur: Cursor, tag: Tag) returns (ok: bool)
    requires cur.Valid()
    modifies cur, cur.buf
    ensures cur.Valid() && Prints(cur, TagText(tag), ok)
  {
    hide ListFrom, JsonStr;
    ghost var start, items := cur.Written(), TagItems(tag);
    ghost var target := start + TagText(tag);
    ListEnds(items);
    Assoc(start, [OPEN], ListFrom(items, 0));
    ok := cur.PushByte(OPEN);
    if !ok {
      return;
    }
    for i := 0 to |tag|
      invariant Remaining(cur, ListFrom(items, i), target)
      invariant cur.buf[cur.end..] == old(cur.buf[cur.end..])
    {
      ghost var now := cur.Written();
      ListStep(items, i);
      Assoc(now, items[i], [COMMA] + ListFrom(items, i + 1));
      Assoc(now, items[i], ListFrom(items, i + 1));
      Assoc(now + items[i], [COMMA], ListFrom(items, i + 1));
      ok := PushJsonStr(cur, tag[i]);
      if !ok {
        return;
      }
      if i != |tag| - 1 {
        ok := cur.PushByte(COMMA);
        if !ok {
          return;
        }
      }
    }
    ok := cur.PushByte(CLOSE);
  }

  method PushTags(cur: Cursor, ev: Event) returns (ok: bool)
    requires cur.Valid()
    modifies cur, cur.buf
    ensures cur.Valid() && Prints(cur, TagsText(ev), ok)
  {
    hide ListFrom, TagText;
    if ev.explicitTags.Some? {
      ok := cur.Push(ev.explicitTags.value);
      return;
    }
    ghost var start, items := cur.Written(), TagTexts(ev.tags);
    ghost var target := start + TagsText(ev);
    ListEnds(items);
    Assoc(start, [OPEN], ListFrom(items, 0));
    ok := cur.PushByte(OPEN);
    if !ok {
      return;
    }
    for i := 0 to |ev.tags|
      invariant Remaining(cur, ListFrom(items, i), target)
      invariant cur.buf[cur.end..] == old(cur.buf[cur.end..])
    {
      ghost var now := cur.Written();
      ListStep(items, i);
      Assoc(now, items[i], [COMMA] + ListFrom(items, i + 1));
      Assoc(now, items[i], ListFrom(items, i + 1));
      Assoc(now + items[i], [COMMA], ListFrom(items, i + 1));
      ok := PushTag(cur, ev.tags[i]);
      if !ok {
        return;
      }
      if i != |ev.tags| - 1 {
        ok := cur.Push([COMMA]);
        if !ok {
          return;
        }
      }
    }
    ok := cur.PushByte(CLOSE);
  }

  // The three stretches of the && chain in event_commitment.

  function Head(pubkey: seq<bv8>): seq<bv8> {
    [OPEN, 0x30, COMMA, QUOTE] + pubkey + [QUOTE, COMMA]
  }

  function Numbers(timebuf: seq<bv8>, kindbuf: seq<bv8>): seq<bv8> {
    timebuf + [COMMA] + kindbuf + [COMMA]
  }

  function Body(ev: Event): seq<bv8> {
    TagsText(ev) + [COMMA] + JsonStr(ev.content) + [CLOSE]
  }

  method PushHead(cur: Cursor, pubkey: seq<bv8>) returns (ok: bool)
    requires cur.Valid()
    modifies cur, cur.buf
    ensures cur.Valid() && Prints(cur, Head(pubkey), ok)
  {
    ok := cur.Push([OPEN, 0x30, COMMA, QUOTE]);
    if ok { ok := cur.Push(pubkey); }
    if ok { ok := cur.Push([QUOTE, COMMA]); }
  }

  method PushNumbers(cur: Cursor, timebuf: seq<bv8>, kindbuf: seq<bv8>) returns (ok: bool)
    requires cur.Valid()
    modifies cur, cur.buf
    ensures cur.Valid() && Prints(cur, Numbers(timebuf, kindbuf), ok)
  {
    ok := cur.Push(timebuf);
    if ok { ok := cur.Push([COMMA]); }
    if ok { ok := cur.Push(kindbuf); }
    if ok { ok := cur.Push([COMMA]); }
  }

  method PushBody(cur: Cursor, ev: Event) returns (ok: bool)
    requires cur.Valid()
    modifies cur, cur.buf
    ensures cur.Valid() && Prints(cur, Body(ev), ok) && (ok ==> cur.p < cur.end)
  {
    hide TagsText, JsonStr;
    ok := PushTags(cur, ev);
    if ok { ok := cur.Push([COMMA]); }
    if ok { ok := PushJsonStr(cur, ev.content); }
    if ok { ok := cur.Push([CLOSE]); }
  }

  lemma CommitmentStretches(ev: Event)
    ensures Commitment(ev)
         == Head(Hex.Encode(ev.pubkey))
            + Numbers(Snprintf(16, Decimal(ev.createdAt)), Snprintf(16, SignedDecimal(ev.kind))) + Body(ev)
  {
    hide Hex.Encode, Decimal, SignedDecimal, JsonStr, TagsText, Snprintf;
    Regroup([OPEN, 0x30, COMMA, QUOTE], Hex.Encode(ev.pubkey), [QUOTE, COMMA], Snprintf(16, Decimal(ev.createdAt)),
            [COMMA], Snprintf(16, SignedDecimal(ev.kind)), [COMMA], TagsText(ev), [COMMA], JsonStr(ev.content), [CLOSE]);
  }

  lemma Regroup<T>(a: seq<T>, b: seq<T>, c: seq<T>, d: seq<T>, e: seq<T>, f: seq<T>, g: seq<T>, h: seq<T>,
                   i: seq<T>, j: seq<T>, k: seq<T>)
    ensures a + b + c + d + e + f + g + h + i + j + k == (a + b + c) + (d + e + f + g) + (h + i + j + k)
  {}

  /** The number of bytes written, or 0 if the whole text and one more byte do not fit. */
  method EventCommitment(ev: Event, buf: array<bv8>, buflen: nat) returns (n: nat)
    requires ev.Valid() && buflen <= buf.Length
    modifies buf
    ensures n == if |Commitment(ev)| < buflen then |Commitment(ev)| else 0
    ensures n > 0 ==> buf[..n] == Commitment(ev)
    ensures buf[buflen..] == old(buf[buflen..])
  {
    hide Commitment, Head, Numbers, Body, Hex.Encode, Decimal, SignedDecimal, Snprintf;
    var pubkey := PubkeyText(ev.pubkey);
    CommitmentStretches(ev);
    var cur := new Cursor(buf, buflen);
    var timebuf := Snprintf(16, Decimal(ev.createdAt));
    var kindbuf := Snprintf(16, SignedDecimal(ev.kind));
    var ok := PushHead(cur, pubkey);
    if ok { ok := PushNumbers(cur, timebuf, kindbuf); }
    if ok { ok := PushBody(cur, ev); }
    if !ok {
      return 0;
    }
    n := cur.Length();
  }

  /** The contents of the 65-byte local buffer, up to its NUL. */
  method PubkeyText(pubkey: seq<bv8>) returns (text: seq<bv8>)
    requires |pubkey| == 32
    ensures text == Hex.Encode(pubkey)
  {
    var dest := new bv8[65](_ => 0);
    var ok := Hex.HexEncode(pubkey, dest);
    HexText(dest[..], pubkey);
    text := dest[..64];
  }

  lemma HexText(arr: seq<bv8>, pubkey: seq<bv8>)
    requires |pubkey| == 32 && |arr| == 65
    requires exists before :: |before| == 65 && arr == Splice(before, 0, Hex.Encode(pubkey) + [0])
    ensures arr[..64] == Hex.Encode(pubkey)
  {}
}
