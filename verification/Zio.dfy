/** Buffered input: the reader hands out chunks, luaZ_read joins them. */
module Zio {
  import opened Options
  import opened Codec

  /** What the reader will give; an empty chunk ends the stream. */
  function Joined(chunks: seq<seq<Byte>>): seq<Byte> {
    if chunks == [] || chunks[0] == [] then [] else chunks[0] + Joined(chunks[1..])
  }

  class Stream {
    var cur: seq<Byte>
    var chunks: seq<seq<Byte>>

    constructor (chunks: seq<seq<Byte>>)
      ensures Left() == Joined(chunks)
    {
      cur := [];
      this.chunks := chunks;
    }

    /** The bytes that are still to be read. */
    ghost function Left(): seq<Byte>
      reads this
    {
      cur + Joined(chunks)
    }

    /** luaZ_lookahead without its result: false is EOZ. */
    method Lookahead() returns (more: bool)
      modifies this
      ensures Left() == old(Left()) && (more <==> cur != []) && (!more ==> Left() == [])
      ensures more ==> |chunks| <= |old(chunks)|
    {
      if cur == [] {
        if chunks == [] || chunks[0] == [] { return false; }
        cur := chunks[0];
        chunks := chunks[1..];
      }
      return true;
    }

    /** luaZ_read: None if bytes are missing. */
    method Read(n: nat) returns (b: Option<seq<Byte>>)
      modifies this
      ensures b.Some? <==> n <= |old(Left())|
      ensures b.Some? ==> b.value == old(Left())[..n] && Left() == old(Left())[n..]
    {
      var data: seq<Byte>, left := [], n;
      ghost var all := Left();
      hide Joined;
      while left > 0
        invariant 0 <= left <= n && |data| == n - left && all == data + Left()
        decreases left
      {
        var more := Lookahead();
        if !more { return None; }
        var m := if left <= |cur| then left else |cur|;
        Moves(data, cur, m, Joined(chunks));
        data := data + cur[..m];
        cur := cur[m..];
        left := left - m;
      }
      CutAt(all, data, Left());
      return Some(data);
    }
  }

  lemma CutAt(all: seq<Byte>, a: seq<Byte>, b: seq<Byte>)
    requires all == a + b
    ensures all[..|a|] == a && all[|a|..] == b
  {
  }

  lemma Moves(data: seq<Byte>, cur: seq<Byte>, m: nat, more: seq<Byte>)
    requires m <= |cur|
    ensures data + (cur + more) == (data + cur[..m]) + (cur[m..] + more)
  {
  }
}
