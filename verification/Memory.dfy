/** The memory operations of the hash code: memcpy and word stores into byte buffers. */
module Memory {
  import opened Words

  /** memcpy from memory that is not part of dst. */
  method Memcpy(dst: array<byte>, at: nat, src: seq<byte>)
    requires at + |src| <= dst.Length
    modifies dst
    ensures forall k :: 0 <= k < dst.Length ==>
              dst[k] == if at <= k < at + |src| then src[k - at] else old(dst[k])
  {
    for i := 0 to |src|
      invariant forall k :: 0 <= k < i ==> dst[at + k] == src[k]
      invariant forall k :: 0 <= k < dst.Length && !(at <= k < at + i) ==> dst[k] == old(dst[k])
    {
      dst[at + i] := src[i];
    }
  }

  /** memcpy within one buffer; its effect is undefined when the two regions overlap. */
  method MemcpyWithin(buf: array<byte>, to: nat, from: nat, n: nat)
    requires to + n <= buf.Length && from + n <= buf.Length
    requires to + n <= from || from + n <= to
    modifies buf
    ensures forall k :: 0 <= k < buf.Length ==>
              buf[k] == if to <= k < to + n then old(buf[k - to + from]) else old(buf[k])
    ensures buf[to..to + n] == old(buf[from..from + n])
  {
    for i := 0 to n
      invariant forall k :: to <= k < to + i ==> buf[k] == old(buf[k - to + from])
      invariant forall k :: 0 <= k < buf.Length && !(to <= k < to + i) ==> buf[k] == old(buf[k])
    {
      buf[to + i] := buf[from + i];
    }
  }

  /** words[i] = w, seen as bytes. */
  method StoreWord(order: ByteOrder, buf: array<byte>, i: nat, w: word)
    requires 4 * i + 4 <= buf.Length
    modifies buf
    ensures forall k :: 0 <= k < buf.Length ==>
              buf[k] == if 4 * i <= k < 4 * i + 4 then Stored32(order, w)[k - 4 * i] else old(buf[k])
  {
    hide Stored32;
    Memcpy(buf, 4 * i, Stored32(order, w));
  }

  /** doublewords[i] = t, seen as bytes. */
  method StoreDoubleword(order: ByteOrder, buf: array<byte>, i: nat, t: dword)
    requires 8 * i + 8 <= buf.Length
    modifies buf
    ensures forall k :: 0 <= k < buf.Length ==>
              buf[k] == if 8 * i <= k < 8 * i + 8 then Stored64(order, t)[k - 8 * i] else old(buf[k])
  {
    hide Stored64;
    Memcpy(buf, 8 * i, Stored64(order, t));
  }
}
