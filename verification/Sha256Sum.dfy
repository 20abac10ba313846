/** The checksum object around the SHA-256 context: its life cycle, copies and streams. */
module Sha256Sums {
  import opened Words
  import opened Blocks
  import opened Sha256Spec
  import Sha256

  class Sha256Sum {
    const target: Target
    const sum: array<byte>
    var p: Sha256.Context?

    // True after finish and finishForReuse, until the next reset
    ghost var finished: bool

    ghost predicate Valid()
      reads this, p
    {
      && sum.Length == 32
      && (p != null ==> p.Allocated() && p.target == target && p.buffer != sum)
    }

    /** The object accepts updates. */
    ghost predicate Hashing()
      reads this, p, if p == null then {} else {p.H}
    {
      Valid() && p != null && !finished && p.Valid()
    }

    ghost function Message(): seq<byte>
      requires Hashing()
      reads this, p, p.H, p.buffer
    {
      p.Message()
    }

    /** No storage was replaced. */
    twostate predicate SameObjects()
      reads this, p
    {
      p == old(p) && (p != null ==> p.H == old(p.H) && p.buffer == old(p.buffer))
    }

    /** Two objects share no storage. */
    ghost predicate Apart(md: Sha256Sum)
      reads this, p, md, md.p
    {
      md != this && sum != md.sum
      && (p != null && md.p != null ==> p != md.p && p.H != md.p.H)
      && (p != null ==> p.buffer != md.sum && (md.p != null ==> p.buffer != md.p.buffer))
      && (md.p != null ==> md.p.buffer != sum)
    }

    constructor (target: Target)
      ensures this.target == target
      ensures Hashing() && Message() == []
      ensures fresh(sum) && fresh(p) && fresh(p.H) && fresh(p.buffer)
    {
      this.target := target;
      sum := new byte[32];
      p := new Sha256.Context(target);
      finished := false;
      new;
      p.Init();
    }

    /** Ready for a new message, whatever was hashed before and whatever the buffer holds. */
    method Reset()
      requires Valid()
      modifies this, p, if p == null then {} else {p.H, p.buffer}
      ensures Hashing() && Message() == []
      ensures if old(p) == null then fresh(p) && fresh(p.H) && fresh(p.buffer) else SameObjects()
    {
      if p == null {
        p := new Sha256.Context(target);
      }
      p.Init();
      finished := false;
    }

    method Update(mem: seq<byte>, address: nat)
      requires Hashing()
      modifies p, p.H, p.buffer
      ensures Hashing() && Message() == old(Message()) + mem && SameObjects()
    {
      p.ProcessBytes(mem, address);
    }

    method Finish()
      requires Hashing()
      modifies this, sum, p, p.H, p.buffer
      ensures Valid() && finished && p == null
      ensures sum[..] == Digest(old(Message()))
    {
      p.Finish(sum);
      p := null;
      finished := true;
      assert sum[..] == sum[..32];
    }

    method FinishForReuse()
      requires Hashing()
      modifies this, sum, p, p.H, p.buffer
      ensures Valid() && finished && SameObjects()
      ensures sum[..] == Digest(old(Message()))
    {
      p.Finish(sum);
      finished := true;
      assert sum[..] == sum[..32];
    }

    /** The copy constructor. */
    constructor Copy(md: Sha256Sum)
      requires md.Valid()
      ensures Valid() && target == md.target
      ensures fresh(sum) && (p != null ==> fresh(p) && fresh(p.H) && fresh(p.buffer))
      ensures finished == md.finished && (p == null <==> md.p == null)
      ensures md.p == null ==> sum[..] == md.sum[..]
      ensures md.Hashing() ==> Hashing() && Message() == md.Message()
    {
      target := md.target;
      sum := new byte[32];
      finished := md.finished;
      p := null;
      new;
      if md.p == null {
        forall i | 0 <= i < 32 { sum[i] := md.sum[i]; }
      } else {
        p := new Sha256.Context(target);
        p.CopyFrom(md.p);
      }
    }

    /** operator=, which must work with self-assignment.  The digest is copied only from an
        object without a context: one that was finish()ed, not finishForReuse()d. */
    method Assign(md: Sha256Sum)
      requires Valid() && md.Valid() && target == md.target
      requires md == this || Apart(md)
      modifies this, sum, p, if p == null then {} else {p.H, p.buffer}
      ensures Valid()
      ensures p == null || SameObjects() || (fresh(p) && fresh(p.H) && fresh(p.buffer))
      ensures finished == old(md.finished) && (p == null <==> old(md.p) == null)
      ensures sum[..] == if old(md.p) == null then old(md.sum[..]) else old(sum[..])
      ensures old(md.Hashing()) ==> Hashing() && Message() == old(md.Message())
    {
      hide Sha256.Context.Folded;
      finished := md.finished;
      if md.p == null {
        p := null;
        forall i | 0 <= i < 32 { sum[i] := md.sum[i]; }
      } else {
        if p == null {
          p := new Sha256.Context(target);
        }
        p.CopyFrom(md.p);
      }
    }

    /** Read up to size bytes from s in pieces of at most bufSize bytes, which land at address. */
    method UpdateFromStream(s: InputStream, size: uint64, bufSize: nat, address: nat) returns (bytesRead: uint64)
      requires Hashing() && s.Valid()
      requires bufSize > 0
      modifies p, p.H, p.buffer, s
      ensures Hashing() && SameObjects() && s.Valid()
      ensures bytesRead == if old(s.Good()) then Min(size, old(s.Available())) else 0
      ensures s.position == old(s.position) + bytesRead
      ensures Message() == old(Message()) + s.content[old(s.position)..s.position]
      ensures bytesRead == size || !s.Good()
    {
      hide Sha256.Context.Folded, Message;
      assert Message() + [] == Message();
      var toRead := size;
      bytesRead := 0;
      var buffer := new byte[bufSize];
      while s.Good() && toRead > 0
        invariant Hashing() && SameObjects() && s.Valid()
        invariant bytesRead + toRead == size
        invariant s.position == old(s.position) + bytesRead
        invariant Message() == old(Message()) + s.content[old(s.position)..s.position]
        invariant bytesRead <= if old(s.Good()) then Min(size, old(s.Available())) else 0
        invariant s.Good() || bytesRead == if old(s.Good()) then Min(size, old(s.Available())) else 0
        decreases s.Good(), toRead
      {
        var n := Min(toRead, bufSize);
        ghost var before := s.position;
        var gcount := s.Read(buffer, n);
        Update(buffer[..gcount], address);
        Splice(old(Message()), s.content[old(s.position)..], before - old(s.position), s.position - old(s.position));
        bytesRead := bytesRead + gcount;
        toRead := toRead - gcount;
      }
    }
  }

  function Min(a: nat, b: nat): (m: nat)
    ensures m <= a && m <= b && (m == a || m == b)
  {
    if a < b then a else b
  }

  /** A byte stream that ends, or fails at some position; a short read sets eof or fail. */
  class InputStream {
    const content: seq<byte>
    const failsAt: nat
    var position: nat
    var eof: bool
    var fail: bool

    constructor (content: seq<byte>, failsAt: nat)
      ensures Valid() && this.content == content && this.failsAt == failsAt && position == 0 && Good()
    {
      this.content, this.failsAt := content, failsAt;
      position, eof, fail := 0, false, false;
    }

    ghost predicate Valid()
      reads this
    {
      position <= Min(|content|, failsAt)
    }

    predicate Good()
      reads this
    {
      !eof && !fail
    }

    function Available(): nat
      requires Valid()
      reads this
    {
      Min(|content|, failsAt) - position
    }

    method Read(buf: array<byte>, n: nat) returns (gcount: nat)
      requires Valid() && n <= buf.Length
      modifies this`position, this`eof, this`fail, buf
      ensures Valid() && gcount == Min(n, old(Available()))
      ensures position == old(position) + gcount
      ensures buf[..gcount] == content[old(position)..position]
      ensures Good() <==> old(Good()) && gcount == n
    {
      gcount := Min(n, Available());
      forall i | 0 <= i < gcount { buf[i] := content[position + i]; }
      position := position + gcount;
      if gcount < n {
        if position < |content| { fail := true; } else { eof := true; }
      }
    }
  }

  // ----- whole computations

  /** However the message is cut up and wherever the pieces lie, the digest is that of FIPS 180-2. */
  method HashPieces(target: Target, pieces: seq<Piece>) returns (digest: seq<byte>)
    ensures digest == Digest(Joined(pieces))
  {
    hide Digest, Joined, Sha256Sum.Hashing, Sha256Sum.Message, Sha256Sum.Valid;
    AllPieces(pieces);
    var s := new Sha256Sum(target);
    var i := 0;
    while i < |pieces|
      invariant i <= |pieces|
      invariant s.Hashing() && fresh(s) && fresh(s.sum) && fresh(s.p) && fresh(s.p.H) && fresh(s.p.buffer)
      invariant s.Message() + Joined(pieces[i..]) == Joined(pieces)
    {
      JoinedNext(s.Message(), pieces, i);
      s.Update(pieces[i].data, pieces[i].address);
      i := i + 1;
    }
    assert s.Message() + [] == s.Message();
    s.Finish();
    digest := s.sum[..];
  }

  /** A copy of an unfinished object goes its own way. */
  method HashFork(target: Target, common: Piece, left: Piece, right: Piece)
    returns (leftDigest: seq<byte>, rightDigest: seq<byte>)
    ensures leftDigest == Digest(common.data + left.data)
    ensures rightDigest == Digest(common.data + right.data)
  {
    hide Digest, Sha256Sum.Hashing, Sha256Sum.Message, Sha256Sum.Valid;
    var s := new Sha256Sum(target);
    s.Update(common.data, common.address);
    assert [] + common.data == common.data;
    var c := new Sha256Sum.Copy(s);
    s.Update(left.data, left.address);
    c.Update(right.data, right.address);
    s.FinishForReuse();
    c.Finish();
    leftDigest, rightDigest := s.sum[..], c.sum[..];
  }
}
