/** The limited reader of server/flow_limit.go: a small buffer between a reader and a limiter. */
module LimitedReader {
  import opened Bytes
  import opened FlowLimit
  import opened Prelude
  import opened ReaderValue

  /** Any reader: the results it will give, one per call, and end of file ever after. */
  class Upstream {
    var script: seq<Piece>

    constructor (pieces: seq<Piece>)
      ensures script == pieces
    {
      script := pieces;
    }

    function Next(): Piece
      reads this
    {
      NextOf(script)
    }

    /** A reader returns no more than fits; what it leaves in the rest of the buffer is its own business. */
    method Read(buf: array<byte>) returns (n: nat, err: Option<Error>)
      requires |Next().data| <= buf.Length
      modifies this, buf
      ensures n == |old(Next()).data| <= buf.Length && err == old(Next()).err
      ensures buf[..n] == old(Next()).data
      ensures script == RestOf(old(script))
    {
      var piece := Next();
      n, err := |piece.data|, piece.err;
      script := if script == [] then [] else script[1..];
      for k := 0 to n
        modifies buf
        invariant buf[..k] == piece.data[..k]
      {
        buf[k] := piece.data[k];
      }
    }
  }

  class LimitedReader {
    const r: Upstream
    const action: LimitedReaderAction
    const tempbuf: array<byte>
    var off: nat                   // where the remaining buffer starts
    var llen: int                  // how much of it is data

    ghost var consumed: bytes      // everything taken from below
    ghost var delivered: bytes     // everything handed to callers

    ghost function Value(): Buffer
      reads this, tempbuf
    {
      Buffer(tempbuf[..], off, llen, consumed, delivered)
    }

    ghost predicate Valid()
      reads this, tempbuf, r, action, action.slimitArray
    {
      Shaped(Value()) && action.Valid() && AllFit(r.script)
    }

    constructor (r: Upstream, action: LimitedReaderAction)
      requires action.Valid() && AllFit(r.script)
      ensures Valid() && fresh(tempbuf) && this.r == r && this.action == action
      ensures Sound(Value()) && llen == 0 && consumed == delivered == [] && tempbuf.Length == 2048
    {
      this.r, this.action := r, action;
      tempbuf := new byte[BUFFER];
      off, llen := 0, 0;
      consumed, delivered := [], [];
    }

    /** Reads from below once the buffer is used up; an error keeps the bytes that came with it. */
    method Fill() returns (err: Option<Error>)
      requires Valid() && llen == 0
      modifies this, tempbuf, r
      ensures Valid() && err == old(r.Next()).err && r.script == RestOf(old(r.script))
      ensures var data := old(r.Next()).data;
        |data| <= BUFFER && Value() == Filled(old(Value()), data, tempbuf[|data|..])
      ensures unchanged(action) && action.Value() == old(action.Value())
    {
      off := 0;
      llen, err := r.Read(tempbuf);
      consumed := consumed + tempbuf[..llen];
      assert tempbuf[..] == tempbuf[..llen] + tempbuf[llen..];
    }

    /** Copies the next `k` bytes of the buffer, data or not, to the front of `p`. */
    method Take(p: array<byte>, k: nat)
      requires Valid() && k <= BUFFER - off && k <= p.Length && p != tempbuf
      modifies this, p
      ensures Valid() && Drained(old(Value()), k) == Some(Value())
      ensures p[k..] == old(p[k..]) && delivered == old(delivered) + p[..k]
      ensures unchanged(action) && unchanged(action.slimitArray) && unchanged(r)
    {
      for i := 0 to k
        modifies p
        invariant p[..i] == tempbuf[off..off + i]
        invariant p[k..] == old(p[k..])
      {
        p[i] := tempbuf[off + i];
      }
      delivered := delivered + p[..k];
      off, llen := off + k, llen - k;
    }

    /**
     Delivers what the limiter's answer allows and `p` can hold, whatever the answer is. The call
     does not panic and loses and invents no byte if and only if that much is buffered.
     */
    method Deliver(p: array<byte>, grant: int) returns (n: nat, panicked: bool)
      requires Valid() && llen > 0 && p != tempbuf
      modifies this, p
      ensures Valid() && (panicked <==> Size(p.Length, grant) > BUFFER - old(off))
      ensures n == if panicked then 0 else Size(p.Length, grant)
      ensures !panicked && grant <= 0 && p.Length >= 1 ==> n == 1
      ensures !panicked && grant >= 1 ==> n == if p.Length <= grant then p.Length else grant
      ensures Value() == if panicked then old(Value()) else Drained(old(Value()), n).value
      ensures n <= p.Length && p[n..] == old(p[n..]) && delivered == old(delivered) + p[..n]
      ensures old(Sound(Value())) ==> (!panicked && Sound(Value()) <==> Size(p.Length, grant) <= old(llen))
      ensures unchanged(action) && unchanged(action.slimitArray) && unchanged(r)
    {
      n, panicked := Size(p.Length, grant), false;
      if Sound(Value()) {
        SoundIff(Value(), n);
      }
      if n > BUFFER - off {
        return 0, true;
      }
      Take(p, n);
    }

    /** How much is buffered when the limiter is asked. */
    ghost function Offered(): int
      reads this, r
    {
      if llen != 0 then llen else |r.Next().data|
    }

    /** How a call fails before the limiter is asked, if it does. */
    ghost function Fault(cancelled: bool): Option<Error>
      reads this, r
    {
      FaultOf(llen, r.Next(), cancelled)
    }

    /** Makes sure that something is buffered, or fails; the limiter is not asked. */
    method Prepare(cancelled: bool) returns (err: Option<Error>)
      requires Valid()
      modifies this, tempbuf, r
      ensures Valid() && err == old(Fault(cancelled)) && delivered == old(delivered)
      ensures if cancelled || old(llen) != 0 then Value() == old(Value()) && r.script == old(r.script)
              else consumed == old(consumed) + old(r.Next()).data && r.script == RestOf(old(r.script))
      ensures err.None? ==> llen == old(Offered()) > 0
      ensures old(Sound(Value())) ==> Sound(Value())
      ensures action.cc == old(action.cc) && action.Value() == old(action.Value())
    {
      if cancelled {
        return Some(Cancelled);
      }
      if llen == 0 {
        ghost var before := Value();
        err := Fill();
        if Sound(before) {
          FillKeepsSound(before, tempbuf[..llen], tempbuf[llen..]);
        }
        if err.Some? {
          return err;
        }
      }
      return if llen <= 0 then Some(EndOfFile) else None;
    }

    /**
     One call, whatever `answer` the limiter gives to the question for all that is buffered. If it
     is asked, the call delivers that much at most, or one byte if it was refused; else nothing is
     delivered and the call fails. Delivered + buffered = consumed is kept, without a panic, if and
     only if the call delivers no more than is buffered. If it does deliver more, the caller gets
     bytes that were never consumed, and every call after that reports the end of the file.
     */
    method Read(p: array<byte>, cancelled: bool, answer: int)
      returns (n: nat, err: Option<Error>, asked: bool, panicked: bool)
      requires Valid() && p != tempbuf
      modifies this, tempbuf, p, r
      ensures Valid() && n <= p.Length && p[n..] == old(p[n..]) && delivered == old(delivered) + p[..n]
      ensures err == old(Fault(cancelled)) && (asked <==> err.None?)
      ensures n == if asked && !panicked then Size(p.Length, answer) else 0
      ensures asked && !panicked && answer <= 0 && p.Length >= 1 ==> n == 1
      ensures asked && !panicked && answer >= 1 ==> n == if p.Length <= answer then p.Length else answer
      ensures consumed == old(consumed) + if cancelled || old(llen) != 0 then [] else old(r.Next()).data
      ensures old(Sound(Value())) ==>
        (!panicked && Sound(Value()) <==> !asked || Size(p.Length, answer) <= old(Offered()))
      ensures old(Sound(Value())) && asked && Size(p.Length, answer) > old(Offered()) ==>
        panicked || (llen < 0 && !(delivered <= consumed))
      ensures old(llen) < 0 ==> err.Some? && Value() == old(Value()) && (!cancelled ==> err == Some(EndOfFile))
    {
      err := Prepare(cancelled);
      if err.Some? {
        return 0, err, false, false;
      }
      ghost var ready := Value();
      asked := true;
      n, panicked := Deliver(p, answer);
      if Sound(ready) {
        SoundIff(ready, Size(p.Length, answer));
      }
    }

    /** Asked for `k` bytes at `now`, the limiter that was `before` answered `grant` and took that from its shard. */
    ghost predicate Answered(before: Limit, now: int, k: nat, grant: int)
      requires |before.shards| == SHARDS
      reads this, action, action.slimitArray
    {
      var i := action.cc % SHARDS;
      var l := Topped(before, i, now);
      grant == GrantOf(l, i, k) && action.Value() == Drawn(l, i, k)
    }

    /**
     One call whose question to the limiter nobody interferes with: the answer is within what is
     buffered, so the call does not panic and keeps delivered + buffered = consumed. A call that
     fails leaves the limiter alone.
     */
    method ReadUndisturbed(p: array<byte>, cancelled: bool, now: int)
      returns (n: nat, err: Option<Error>, grant: Option<int>)
      requires Valid() && Sound(Value()) && p != tempbuf
      modifies this, tempbuf, p, r, action, action.slimitArray
      ensures Valid() && Sound(Value())
      ensures n <= p.Length && p[n..] == old(p[n..]) && delivered == old(delivered) + p[..n]
      ensures consumed == old(consumed) + if cancelled || old(llen) != 0 then [] else old(r.Next()).data
      ensures err == old(Fault(cancelled)) && (grant.Some? <==> err.None?)
      ensures n == if grant.None? then 0 else Size(p.Length, grant.value)
      ensures grant.Some? && grant.value <= 0 && p.Length >= 1 ==> n == 1
      ensures grant.Some? && grant.value >= 1 ==> n == if p.Length <= grant.value then p.Length else grant.value
      ensures grant.Some? ==> Answered(old(action.Value()), now, old(Offered()), grant.value)
      ensures action.cc == if grant.Some? then (old(action.cc) + 1) % TWO_TO_THE_64 else old(action.cc)
      ensures grant.None? ==> action.Value() == old(action.Value())
    {
      err := Prepare(cancelled);
      if err.Some? {
        return 0, err, None;
      }
      var size := action.GetReadSize(llen, now);
      var panicked;
      n, panicked := Deliver(p, size);
      return n, None, Some(size);
    }
  }
}
