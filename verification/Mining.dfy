/**
  `ensure_nonce_tag`, `generate_event_id` and `mine_event` of src/nostril/nostri.c: try one nonce
  after the other until the id, the SHA-256 digest of the serialized event, has enough zero bits.
 */
module Mining {
  import opened Bits
  import opened EventInjective
  import opened EventPrinter
  import EventReads
  import opened EventText
  import Fips180
  import Json
  import opened Options
  import opened ProofOfWork
  import Sha256

  const MAX_TAGS: nat := 32
  const ID_BUFFER: nat := 102400
  const NONCE_LIMIT: nat := 0x1_0000_0000_0000_0000

  const NONCE: CString := [0x6e, 0x6f, 0x6e, 0x63, 0x65] // "nonce"
  const ZERO: CString := [0x30]                          // "0"

  /** The comparison in the source dereferences the first string of every two-element tag. */
  ghost predicate Comparable(tags: seq<Tag>) {
    forall i | 0 <= i < |tags| && |tags[i]| == 2 :: tags[i][0].Some?
  }

  predicate IsPairNonce(tag: Tag) {
    |tag| == 2 && tag[0] == Some(NONCE)
  }

  lemma {:induction false} DecimalIsCString(n: nat)
    ensures 0 !in Decimal(n)
  {
    if n >= 10 {
      DecimalIsCString(n / 10);
    }
  }

  /** snprintf of the nonce into 32 bytes; 20 digits always fit. */
  function NonceText(n: nat): (s: CString)
    requires n < NONCE_LIMIT
    ensures s == Decimal(n)
  {
    NonceFits(n);
    DecimalIsCString(n);
    Snprintf(32, Decimal(n))
  }

  lemma NonceFits(n: nat)
    requires n < NONCE_LIMIT
    ensures |Decimal(n)| <= 20
  {
    StampLimit();
    assert Pow10(20) == 100_000 * Pow10(15);
    DecimalLength(n, 20);
  }

  /** snprintf of the difficulty into 7 bytes keeps six characters. */
  function TargetText(difficulty: int): CString {
    DecimalIsCString(if difficulty < 0 then -difficulty else difficulty);
    Snprintf(7, SignedDecimal(difficulty))
  }

  function NonceTag(n: nat, difficulty: int): Tag
    requires n < NONCE_LIMIT
  {
    [Some(NONCE), Some(NonceText(n)), Some(TargetText(difficulty))]
  }

  /** The first `k` digits of a number that has more. */
  function Leading(n: nat, k: nat): (m: nat)
    requires k > 0
    ensures m < Pow10(k) && (m == n <==> n < Pow10(k)) && (n > 0 ==> m > 0)
  {
    Pow10Grows(k);
    if n < Pow10(k) then n else Leading(n / 10, k)
  }

  lemma {:induction false} Pow10Grows(k: nat)
    ensures k > 0 ==> Pow10(k) >= 10
  {
    if k > 1 {
      Pow10Grows(k - 1);
    }
  }

  lemma {:induction false} LeadingText(n: nat, k: nat)
    requires k > 0
    ensures Snprintf(k + 1, Decimal(n)) == Decimal(Leading(n, k))
    decreases n
  {
    hide Digit;
    Pow10Grows(k);
    DecimalLength(n, k);
    if n >= Pow10(k) {
      LeadingText(n / 10, k);
      var s, t := Decimal(n), Decimal(n / 10);
      assert s == t + [Digit(n % 10)];
      assert Snprintf(k + 1, s) == Snprintf(k + 1, t);
    }
  }

  /** The number that six characters of a difficulty can hold. */
  function Shown(difficulty: int): int {
    var m: int := if difficulty >= 0 then Leading(difficulty, 6) else Leading(-difficulty, 5);
    if difficulty >= 0 then m else -m
  }

  lemma TargetIsShown(difficulty: int)
    ensures TargetText(difficulty) == SignedDecimal(Shown(difficulty))
  {
    hide Decimal, Leading;
    if difficulty >= 0 {
      LeadingText(difficulty, 6);
    } else {
      var s := Decimal(-difficulty);
      LeadingText(-difficulty, 5);
      assert Snprintf(7, [MINUS] + s) == [MINUS] + Snprintf(6, s);
    }
  }

  lemma SmallPowers()
    ensures Pow10(5) == 100_000 && Pow10(6) == 1_000_000
  {
    assert Pow10(3) == 1000;
  }

  /**
    What a reader finds in the nonce tag: the name, the nonce, and the difficulty if it has at most six
    characters, and otherwise the number that its first six characters are.
   */
  lemma NonceTagReads(n: nat, difficulty: int)
    requires n < NONCE_LIMIT
    ensures var tag := NonceTag(n, difficulty);
            && |tag| == 3 && tag[0].Some? && tag[1].Some? && tag[2].Some?
            && tag[0].value == Ascii("nonce")
            && Json.ReadNumber(tag[1].value) == Json.Reading(n, [])
            && Json.ReadNumber(tag[2].value) == Json.Reading(Shown(difficulty), [])
    ensures Shown(difficulty) == difficulty <==> -99_999 <= difficulty <= 999_999
  {
    hide Decimal, Json.ReadNumber;
    AsciiIs("nonce", NONCE);
    EventReads.NumberRead(n, []);
    assert Decimal(n) + [] == Decimal(n);
    TargetIsShown(difficulty);
    EventReads.NumberRead(Shown(difficulty), []);
    assert SignedDecimal(Shown(difficulty)) + [] == SignedDecimal(Shown(difficulty));
    SmallPowers();
  }

  function WithNonce(ev: Event, n: nat, difficulty: int): Event
    requires n < NONCE_LIMIT
  {
    ev.(tags := ev.tags + [NonceTag(n, difficulty)])
  }

  /** The event with this nonce fits the buffer that the id is computed from. */
  predicate Fits(ev: Event) {
    |Commitment(ev)| < ID_BUFFER
  }

  function IdOf(ev: Event): (id: seq<bv8>)
    requires Fits(ev)
    ensures |id| == 32
  {
    Fips180.Digest(Commitment(ev))
  }

  lemma IdIs(ev: Event)
    requires Fits(ev)
    ensures |Commitment(ev)| < ID_BUFFER && IdOf(ev) == Fips180.Digest(Commitment(ev))
  {
    hide Commitment, Fips180.Digest;
  }

  lemma TagsAre(ev: Event, n: nat, difficulty: int)
    requires n < NONCE_LIMIT
    ensures WithNonce(ev, n, difficulty) == ev.(tags := ev.tags + [NonceTag(n, difficulty)])
  {
    hide NonceTag;
  }

  /** The event can be hashed, and its id does not reach the difficulty. */
  ghost predicate FallsShort(ev: Event, difficulty: int) {
    Fits(ev) && LeadingZeros(IdOf(ev)) < difficulty
  }

  ghost predicate AllFallShort(ev: Event, difficulty: int, limit: nat)
    requires limit <= NONCE_LIMIT
  {
    forall n | 0 <= n < limit :: FallsShort(WithNonce(ev, n, difficulty), difficulty)
  }

  /**
    How `mine_event` can end: it returns 1, it returns 0, an assertion stops the program, or it has
    tried every 64-bit nonce and starts again from the first, for ever.
   */
  datatype Outcome = Mined | Failed | Aborted | Endless

  class NostrEvent {
    var id: seq<bv8>
    var pubkey: seq<bv8>
    var createdAt: nat
    var kind: int
    var explicitTags: Option<CString>
    var tags: seq<Tag>
    var content: Option<CString>

    function View(): Event
      reads this
    {
      Event(pubkey, createdAt, kind, explicitTags, tags, content)
    }

    /** nostr_add_tag_n */
    method AddTag(tag: Tag) returns (ok: bool)
      requires View().Valid() && |tag| <= 16
      modifies this`tags
      ensures View().Valid()
      ensures ok == (|old(tags)| + 1 <= MAX_TAGS)
      ensures tags == if ok then old(tags) + [tag] else old(tags)
    {
      if |tags| + 1 > MAX_TAGS {
        return false;
      }
      tags := tags + [tag];
      ok := true;
    }

    /** generate_event_id */
    method GenerateEventId() returns (ok: bool)
      requires View().Valid()
      modifies this`id
      ensures ok == Fits(View()) == (|Commitment(View())| < ID_BUFFER)
      ensures ok ==> id == IdOf(View()) == Fips180.Digest(Commitment(View()))
      ensures !ok ==> id == old(id)
    {
      hide Commitment, Fips180.Digest;
      var buf := new bv8[ID_BUFFER](_ => 0);
      var len := EventCommitment(View(), buf, ID_BUFFER);
      CommitmentNotEmpty(View());
      if len == 0 {
        return false;
      }
      id := Sha256.Sha256(buf[..len]);
      ok := true;
    }

    /** ensure_nonce_tag: the index of a two-element nonce tag, or of a new three-element one. */
    method EnsureNonceTag(target: int) returns (ok: bool, index: nat)
      requires View().Valid() && Comparable(tags)
      modifies this`tags
      ensures View().Valid()
      ensures (exists i | 0 <= i < |old(tags)| :: IsPairNonce(old(tags)[i])) ==>
                ok && tags == old(tags) && index < |tags| && IsPairNonce(tags[index])
      ensures !(exists i | 0 <= i < |old(tags)| :: IsPairNonce(old(tags)[i])) ==>
                && ok == (|old(tags)| < MAX_TAGS)
                && index == |old(tags)|
                && tags == if ok then old(tags) + [[Some(NONCE), Some(ZERO), Some(TargetText(target))]] else old(tags)
    {
      for i := 0 to |tags|
        invariant forall j | 0 <= j < i :: !IsPairNonce(tags[j])
      {
        if |tags[i]| == 2 && tags[i][0].value == NONCE {
          return true, i;
        }
      }
      index := |tags|;
      ok := AddTag([Some(NONCE), Some(ZERO), Some(TargetText(target))]);
    }

    /** The body of the search loop. */
    method TryNonce(index: nat, nonce: nat, ghost start: Event, ghost difficulty: int) returns (ok: bool, res: int)
      requires View().Valid() && nonce < NONCE_LIMIT
      requires index == |start.tags| && Searching(View(), start, difficulty)
      modifies this`tags, this`id
      ensures View().Valid() && Searching(View(), start, difficulty)
      ensures View() == WithNonce(start, nonce, difficulty)
      ensures ok == Fits(View())
      ensures ok ==> id == IdOf(View()) && res == LeadingZeros(id)
    {
      hide Fits, IdOf, LeadingZeros, NonceText, NonceTag, TargetText, Commitment, Fips180.Digest;
      res := 0;
      var tag := tags[index];
      ReplaceNonce(tag, nonce, difficulty);
      ReplaceLast(tags, start.tags, NonceTag(nonce, difficulty));
      tags := tags[index := tag[1 := Some(NonceText(nonce))]];
      ok := GenerateEventId();
      if ok {
        res := CountLeadingZeroBits(id);
      }
    }

    /** mine_event, with the nonce at which it stopped. */
    method MineEvent(difficulty: int) returns (outcome: Outcome, nonce: nat)
      requires View().Valid() && Comparable(tags)
      modifies this`tags, this`id
      ensures outcome == Aborted <==> exists i | 0 <= i < |old(tags)| :: IsPairNonce(old(tags)[i])
      ensures outcome == Mined ==>
                && nonce < NONCE_LIMIT && View() == WithNonce(old(View()), nonce, difficulty)
                && tags == old(tags) + [NonceTag(nonce, difficulty)]
                && |Commitment(View())| < ID_BUFFER && id == Fips180.Digest(Commitment(View()))
                && LeadingZeros(id) >= difficulty
                && AllFallShort(old(View()), difficulty, nonce)
      ensures outcome == Failed && |old(tags)| < MAX_TAGS ==>
                && nonce < NONCE_LIMIT && !Fits(WithNonce(old(View()), nonce, difficulty))
                && AllFallShort(old(View()), difficulty, nonce)
      ensures outcome != Aborted && |old(tags)| == MAX_TAGS ==> outcome == Failed && View() == old(View())
      ensures outcome == Endless ==> AllFallShort(old(View()), difficulty, NONCE_LIMIT)
    {
      nonce := 0;
      ghost var start := View();
      var ok, index := EnsureNonceTag(difficulty);
      if !ok {
        return Failed, 0;
      }
      var tag := tags[index];
      if |tag| != 3 {
        return Aborted, 0;
      }
      hide AllFallShort, Fits, IdOf, WithNonce, LeadingZeros, TargetText, Commitment, Fips180.Digest;
      outcome, nonce := Search(index, difficulty, start);
      if outcome == Mined {
        IdIs(View());
        TagsAre(start, nonce, difficulty);
      }
    }

    /** The search loop. */
    method Search(index: nat, difficulty: int, ghost start: Event) returns (outcome: Outcome, nonce: nat)
      requires View().Valid() && index == |start.tags| && Searching(View(), start, difficulty)
      modifies this`tags, this`id
      ensures outcome != Aborted && nonce <= NONCE_LIMIT && AllFallShort(start, difficulty, nonce)
      ensures outcome == Endless <==> nonce == NONCE_LIMIT
      ensures outcome == Mined ==>
                && View() == WithNonce(start, nonce, difficulty)
                && Fits(View()) && id == IdOf(View()) && LeadingZeros(id) >= difficulty
      ensures outcome == Failed ==> !Fits(WithNonce(start, nonce, difficulty))
    {
      hide Fits, IdOf, LeadingZeros, WithNonce, FallsShort, Searching;
      nonce := 0;
      while nonce < NONCE_LIMIT
        invariant nonce <= NONCE_LIMIT && View().Valid() && Searching(View(), start, difficulty)
        invariant AllFallShort(start, difficulty, nonce)
      {
        var ok, res := TryNonce(index, nonce, start, difficulty);
        if !ok {
          return Failed, nonce;
        }
        if res >= difficulty {
          return Mined, nonce;
        }
        ShortAgain(View(), difficulty);
        nonce := nonce + 1;
      }
      outcome := Endless;
    }
  }

  lemma ReplaceNonce(tag: Tag, n: nat, difficulty: int)
    requires n < NONCE_LIMIT && |tag| == 3 && tag[0] == Some(NONCE) && tag[2] == Some(TargetText(difficulty))
    ensures tag[1 := Some(NonceText(n))] == NonceTag(n, difficulty)
  {
    hide NonceText, TargetText;
  }

  lemma ReplaceLast<T>(s: seq<T>, front: seq<T>, x: T)
    requires |s| == |front| + 1 && s[..|front|] == front
    ensures s[|front| := x] == front + [x]
  {}

  /** During the search: the event as it was, and a nonce tag after its other tags. */
  ghost predicate Searching(now: Event, start: Event, difficulty: int) {
    var k := |start.tags|;
    && now.(tags := start.tags) == start
    && |now.tags| == k + 1 && now.tags[..k] == start.tags
    && |now.tags[k]| == 3 && now.tags[k][0] == Some(NONCE) && now.tags[k][2] == Some(TargetText(difficulty))
  }

  lemma ShortAgain(ev: Event, difficulty: int)
    requires Fits(ev) && LeadingZeros(IdOf(ev)) < difficulty
    ensures FallsShort(ev, difficulty)
  {
    hide Fits, IdOf;
  }

  lemma CommitmentNotEmpty(ev: Event)
    ensures |Commitment(ev)| > 0
  {
    hide Decimal, SignedDecimal, TagsText, JsonStr, Snprintf;
  }

  /** In terms of the hash as a number: a mined id is below 2^(256 - difficulty), and only such an id is. */
  lemma MinedIdBound(ev: Event, difficulty: nat)
    requires Fits(ev) && difficulty <= 256
    ensures LeadingZeros(IdOf(ev)) >= difficulty <==> Value(IdOf(ev)) < Pow2(256 - difficulty)
  {
    hide Fits, IdOf;
    LeadingZerosIff(IdOf(ev), difficulty);
  }

  /** Different nonces are different events, and hashed as such. */
  lemma NoncesDiffer(ev: Event, m: nat, n: nat, difficulty: int)
    requires m < NONCE_LIMIT && n < NONCE_LIMIT && m != n
    requires WithNonce(ev, m, difficulty).Valid() && WithNonce(ev, n, difficulty).Valid() && ev.explicitTags == None
    ensures Commitment(WithNonce(ev, m, difficulty)) != Commitment(WithNonce(ev, n, difficulty))
  {
    hide Commitment, Decimal;
    var a, b := WithNonce(ev, m, difficulty), WithNonce(ev, n, difficulty);
    var k := |ev.tags|;
    CommitmentInjective(a, b);
    if Decimal(m) == Decimal(n) {
      DecimalInjective(m, n);
    }
    assert NormalAll(a.tags)[k] == a.tags[k] && NormalAll(b.tags)[k] == b.tags[k];
    assert a.tags[k][1] != b.tags[k][1];
  }

  /** With explicit tags the nonce is never printed: if the first one falls short, all of them do. */
  lemma ExplicitTagsDefeatMining(ev: Event, n: nat, difficulty: int)
    requires ev.explicitTags.Some? && n < NONCE_LIMIT
    ensures FallsShort(WithNonce(ev, n, difficulty), difficulty) <==> FallsShort(WithNonce(ev, 0, difficulty), difficulty)
  {
    hide Decimal, SignedDecimal, JsonStr, Snprintf, NonceTag, Fips180.Digest;
    assert Commitment(WithNonce(ev, n, difficulty)) == Commitment(WithNonce(ev, 0, difficulty));
  }
}
