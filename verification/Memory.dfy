/** memcpy and memset on byte arrays: a run of bytes is overwritten, everything else stays. */
module Memory {

  /** `s` with the bytes from `off` on overwritten by `part`. */
  function Splice<T>(s: seq<T>, off: nat, part: seq<T>): (r: seq<T>)
    requires off + |part| <= |s|
    ensures |r| == |s|
    ensures r[off..off + |part|] == part
  {
    s[..off] + part + s[off + |part|..]
  }

  lemma SpliceAgain<T>(s: seq<T>, off: nat, part: seq<T>, again: seq<T>)
    requires off + |part| <= |s| && |again| == |part|
    ensures Splice(Splice(s, off, part), off, again) == Splice(s, off, again)
  {}

  lemma SpliceAt<T>(s: seq<T>, off: nat, part: seq<T>, r: seq<T>)
    requires off + |part| <= |s| == |r|
    requires forall k | 0 <= k < |s| :: r[k] == if off <= k < off + |part| then part[k - off] else s[k]
    ensures r == Splice(s, off, part)
  {}

  lemma SplicePrefix<T>(s: seq<T>, off: nat, part: seq<T>)
    requires off + |part| <= |s|
    ensures Splice(s, off, part)[..off + |part|] == s[..off] + part
  {}

  lemma SpliceEnd<T>(s: seq<T>, off: nat, part: seq<T>)
    requires off + |part| == |s|
    ensures Splice(s, off, part) == s[..off] + part
  {}

  // ---------- Decoding into a buffer ----------

  method Copy(dest: array<bv8>, off: nat, src: seq<bv8>)
    requires off + |src| <= dest.Length
    modifies dest
    ensures dest[..] == Splice(old(dest[..]), off, src)
  {
    forall i | 0 <= i < |src| {
      dest[off + i] := src[i];
    }
  }

  method Fill(dest: array<bv8>, off: nat, value: bv8, count: nat)
    requires off + count <= dest.Length
    modifies dest
    ensures dest[..] == Splice(old(dest[..]), off, seq(count, _ => value))
  {
    forall i | off <= i < off + count {
      dest[i] := value;
    }
  }
}
