/** What one call of the limited reader of server/flow_limit.go does to the reader's buffer. */
module ReaderValue {
  import opened Bytes
  import opened FlowLimit
  import opened Prelude

  const BUFFER: nat := 2 * 1024

  datatype Error = EndOfFile | Cancelled | Failure(code: int)

  /** What one call of the underlying reader yields; bytes may come together with an error. */
  datatype Piece = Piece(data: bytes, err: Option<Error>)

  /** What a reader yields next: its results in order, and end of file ever after. */
  function NextOf(script: seq<Piece>): Piece {
    if script == [] then Piece([], Some(EndOfFile)) else script[0]
  }

  function RestOf(script: seq<Piece>): seq<Piece> {
    if script == [] then [] else script[1..]
  }

  predicate AllFit(script: seq<Piece>) {
    forall i :: 0 <= i < |script| ==> |script[i].data| <= BUFFER
  }

  datatype Buffer = Buffer(
    temp: bytes,           // the whole buffer
    off: nat,              // where what remains of it starts
    llen: int,             // how much of that is data
    consumed: bytes,       // everything taken from below
    delivered: bytes)      // everything handed to callers

  predicate Shaped(b: Buffer) {
    |b.temp| == BUFFER && b.off <= BUFFER && b.off + b.llen <= BUFFER
  }

  function Buffered(b: Buffer): bytes
    requires Shaped(b) && b.llen >= 0
  {
    b.temp[b.off..b.off + b.llen]
  }

  /** What was delivered, followed by what is buffered, is what was consumed. */
  predicate Sound(b: Buffer) {
    Shaped(b) && b.llen >= 0 && b.consumed == b.delivered + Buffered(b)
  }

  /** After a read from below; `scratch` is what the reader left behind its data. */
  function Filled(b: Buffer, data: bytes, scratch: bytes): Buffer {
    b.(temp := data + scratch, off := 0, llen := |data|, consumed := b.consumed + data)
  }

  /** How many bytes a grant lets through: a refusal still lets one through, after a wait. */
  function Allowed(grant: int): int {
    if grant <= 0 then 1 else grant
  }

  /** How many bytes go to a caller with room for `room`. */
  function Size(room: nat, grant: int): (k: nat)
    ensures grant <= 0 && room >= 1 ==> k == 1
    ensures grant >= 1 ==> k <= room && k <= grant && (k == room || k == grant)
    ensures room == 0 ==> k == 0
  {
    Min(room, Allowed(grant))
  }

  /** After handing `k` bytes to a caller. The slice is checked against the end of the buffer only: past it, a panic. */
  function Drained(b: Buffer, k: nat): Option<Buffer>
    requires Shaped(b)
  {
    if k > |b.temp| - b.off then None
    else Some(b.(off := b.off + k, llen := b.llen - k, delivered := b.delivered + b.temp[b.off..b.off + k]))
  }

  /** How a call fails before the limiter is asked, if it does; `piece` is what comes next from below. */
  function FaultOf(llen: int, piece: Piece, cancelled: bool): Option<Error> {
    if cancelled then Some(Cancelled)
    else if llen > 0 then None
    else if llen < 0 then Some(EndOfFile)
    else if piece.err.Some? then piece.err
    else if piece.data == [] then Some(EndOfFile)
    else None
  }

  /** When a call fails: cancelled first; never while something is buffered; else with the error from below, or at the
      end of the file if nothing came. */
  lemma FaultIff(llen: int, piece: Piece, cancelled: bool)
    ensures FaultOf(llen, piece, cancelled).None? <==>
            !cancelled && (llen > 0 || (llen == 0 && piece.err.None? && piece.data != []))
    ensures FaultOf(llen, piece, true) == Some(Cancelled)
    ensures !cancelled && llen == 0 && piece.err.Some? ==> FaultOf(llen, piece, cancelled) == piece.err
    ensures !cancelled && llen <= 0 && (llen < 0 || (piece.err.None? && piece.data == [])) ==>
            FaultOf(llen, piece, cancelled) == Some(EndOfFile)
  {
  }

  lemma FillKeepsSound(b: Buffer, data: bytes, scratch: bytes)
    requires Sound(b) && b.llen == 0 && |data| + |scratch| == BUFFER
    ensures Sound(Filled(b, data, scratch)) && Buffered(Filled(b, data, scratch)) == data
  {
    assert (data + scratch)[0..|data|] == data;
  }

  /**
   The exact condition: handing out `k` bytes does not panic and keeps delivered + buffered =
   consumed if and only if that many are buffered; else more is delivered than was consumed.
   */
  lemma SoundIff(b: Buffer, k: nat)
    requires Sound(b)
    ensures Drained(b, k).Some? && Sound(Drained(b, k).value) <==> k <= b.llen
    ensures Drained(b, k).Some? && Drained(b, k).value.delivered <= b.consumed <==> k <= b.llen
  {
    if k <= b.llen {
      var b' := Drained(b, k).value;
      assert Buffered(b) == b.temp[b.off..b.off + k] + Buffered(b');
    }
  }

  /** More than is buffered, but within the buffer: stale bytes follow the good ones, and the length goes below zero. */
  lemma StaleBytes(b: Buffer, k: nat)
    requires Sound(b) && b.llen < k <= BUFFER - b.off
    ensures var b' := Drained(b, k).value;
      && Drained(b, k).Some? && b'.llen < 0
      && b'.delivered == b.consumed + b.temp[b.off + b.llen..b.off + k]
  {
    assert b.temp[b.off..b.off + k] == Buffered(b) + b.temp[b.off + b.llen..b.off + k];
  }

  /** At the end of the buffer it is a panic: so for any excess once all of a full read but `llen` is delivered. */
  lemma PanicsAtTheEnd(b: Buffer, k: nat)
    requires Sound(b) && b.off + b.llen == BUFFER
    ensures Drained(b, k).None? <==> k > b.llen
  {
  }
}
