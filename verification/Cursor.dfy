/**
  src/nostril/cursor.h: a bounds-checked write cursor. The source's `start`, `p` and `end` pointers
  are offsets 0, `p` and `end` into `buf`. A single byte may fill the last place, while a string
  push always leaves at least one place free.
 */
module Cursors {
  import opened Memory

  class Cursor {
    const buf: array<bv8>
    const end: nat
    var p: nat

    ghost predicate Valid()
      reads this
    {
      p <= end <= buf.Length
    }

    /** What has been written so far. */
    ghost function Written(): seq<bv8>
      requires Valid()
      reads this, buf
    {
      buf[..p]
    }

    /** make_cursor */
    constructor (buf: array<bv8>, end: nat)
      requires end <= buf.Length
      ensures Valid() && p == 0 && this.buf == buf && this.end == end
    {
      this.buf := buf;
      this.end := end;
      p := 0;
    }

    /** cursor_push_byte */
    method PushByte(c: bv8) returns (ok: bool)
      requires Valid()
      modifies this, buf
      ensures Valid()
      ensures ok == (old(p) + 1 <= end)
      ensures Written() == old(Written()) + (if ok then [c] else [])
      ensures buf[end..] == old(buf[end..])
    {
      if p + 1 > end {
        return false;
      }
      buf[p] := c;
      p := p + 1;
      ok := true;
    }

    /** cursor_push, and cursor_push_str on the characters before the NUL. */
    method Push(data: seq<bv8>) returns (ok: bool)
      requires Valid()
      modifies this, buf
      ensures Valid()
      ensures ok == (old(p) + |data| < end)
      ensures Written() == old(Written()) + (if ok then data else [])
      ensures buf[end..] == old(buf[end..])
    {
      if p + |data| >= end {
        return false;
      }
      Copy(buf, p, data);
      p := p + |data|;
      ok := true;
    }

    /** cursor_len */
    function Length(): (n: nat)
      requires Valid()
      reads this, buf
      ensures n == |Written()|
    {
      p
    }
  }
}
