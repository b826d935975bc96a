/**
 The flow limiter of server/flow_limit.go: eight shards hold balances that are filled from one
 pool, and the pool is filled once a second.
 */
module FlowLimit {
  import opened Sums

  const SHARDS: nat := 8
  const TWO_TO_THE_64: nat := 0x1_0000_0000_0000_0000
  const DEFAULT_RATE: int := 1024 * 30
  const DEFAULT_BURST: int := 1024 * 100000

  function Min(a: int, b: int): int {
    if a <= b then a else b
  }

  /** The least of a request, a rate and a balance. */
  function Least(want: nat, rate: int, balance: int): (least: int)
    ensures least <= want && least <= rate && least <= balance
    ensures least == want || least == rate || least == balance
  {
    Min(want, Min(rate, balance))
  }

  /** The numbers of a limiter; shards and pool are in bytes. */
  datatype Limit = Limit(rate: int, burst: int, stamp: int, pool: int, maxFlow: int, shards: seq<int>)

  function OrDefault(n: int, default: int): int {
    if n <= 0 then default else n
  }

  function Fresh(rate: int, burst: int, now: int): Limit {
    var b := OrDefault(burst, DEFAULT_BURST);
    Limit(OrDefault(rate, DEFAULT_RATE), b, now, b, b / SHARDS, seq(SHARDS, _ => b / SHARDS))
  }

  function Updated(l: Limit, rate: int, burst: int): Limit {
    var b := OrDefault(burst, DEFAULT_BURST);
    l.(rate := OrDefault(rate, DEFAULT_RATE), burst := b, pool := b, maxFlow := b / SHARDS)
  }

  /** The pool as a refill at time `now` finds it. */
  function PoolAt(l: Limit, now: int): int {
    if l.stamp != now then l.burst else l.pool
  }

  /** An empty shard takes its part of the pool, as much as there is. */
  function Refilled(l: Limit, i: nat, now: int): Limit
    requires i < |l.shards|
  {
    var part := Min(PoolAt(l, now), l.maxFlow);
    l.(stamp := now, pool := PoolAt(l, now) - part, shards := l.shards[i := part])
  }

  /** The shard that a call sees: refilled if it was empty. */
  function Topped(l: Limit, i: nat, now: int): Limit
    requires i < |l.shards|
  {
    if l.shards[i] <= 0 then Refilled(l, i, now) else l
  }

  function GrantOf(l: Limit, i: nat, want: nat): int
    requires i < |l.shards|
  {
    Min(want, Min(l.rate, l.shards[i]))
  }

  function Drawn(l: Limit, i: nat, want: nat): Limit
    requires i < |l.shards|
  {
    l.(shards := l.shards[i := l.shards[i] - GrantOf(l, i, want)])
  }

  ghost predicate Sane(l: Limit) {
    && l.rate >= 1 && l.burst >= 1 && l.maxFlow == l.burst / SHARDS
    && l.pool >= 0 && |l.shards| == SHARDS
    && forall i :: 0 <= i < |l.shards| ==> l.shards[i] >= 0
  }

  /** All that is left to grant without a refill. */
  function Stock(l: Limit): int {
    Sum(l.shards) + l.pool
  }

  /** A refill of an empty shard changes the stock only by a reset of the pool. */
  lemma RefillConserves(l: Limit, i: nat, now: int)
    requires Sane(l) && i < |l.shards| && l.shards[i] == 0
    ensures Sane(Refilled(l, i, now))
    ensures Stock(Refilled(l, i, now)) == Stock(l) - l.pool + PoolAt(l, now)
  {
    SumOfUpdate(l.shards, i, Min(PoolAt(l, now), l.maxFlow));
  }

  /** A grant is never negative, never more than the balance, and leaves the stock in full. */
  lemma GrantConserves(l: Limit, i: nat, want: nat)
    requires Sane(l) && i < |l.shards|
    ensures Sane(Drawn(l, i, want)) && 0 <= GrantOf(l, i, want) <= want
    ensures Stock(Drawn(l, i, want)) + GrantOf(l, i, want) == Stock(l)
  {
    SumOfUpdate(l.shards, i, l.shards[i] - GrantOf(l, i, want));
  }

  /** A whole call: what it returns is what shards and pool lose, apart from a reset of the pool. */
  lemma CallConserves(l: Limit, i: nat, now: int, want: nat)
    requires Sane(l) && i < |l.shards|
    ensures var t := Topped(l, i, now);
      Stock(Drawn(t, i, want)) + GrantOf(t, i, want)
      == Stock(l) + if l.shards[i] == 0 then PoolAt(l, now) - l.pool else 0
  {
    if l.shards[i] == 0 {
      RefillConserves(l, i, now);
    }
    GrantConserves(Topped(l, i, now), i, want);
  }

  /** A call gets something exactly if it wants something and its shard has or gets some: a burst of fewer than eight
      bytes leaves nothing for a shard. */
  lemma GrantsIff(l: Limit, i: nat, now: int, want: nat)
    requires Sane(l) && i < |l.shards|
    ensures GrantOf(Topped(l, i, now), i, want) >= 1 <==>
            want >= 1 && (l.shards[i] >= 1 || (l.burst >= SHARDS && PoolAt(l, now) >= 1))
  {
    assert l.maxFlow >= 1 <==> l.burst >= SHARDS;
  }

  class LimitedReaderAction {
    var readRate: int
    var readBurst: int
    var nowTimeUnix: int
    var residReadueBurst: int
    var cc: nat
    const slimitArray: array<int>
    var slimitMaxFlow: int

    ghost function Value(): Limit
      reads this, slimitArray
    {
      Limit(readRate, readBurst, nowTimeUnix, residReadueBurst, slimitMaxFlow, slimitArray[..])
    }

    ghost predicate Valid()
      reads this, slimitArray
    {
      Sane(Value())
    }

    constructor (rate: int, burst: int, now: int)
      ensures Valid() && fresh(slimitArray) && cc == 0
      ensures Value() == Fresh(rate, burst, now)
      ensures readRate == if rate <= 0 then 30720 else rate
      ensures readBurst == residReadueBurst == if burst <= 0 then 102400000 else burst
      ensures slimitArray.Length == 8 && forall k :: 0 <= k < 8 ==> slimitArray[k] == slimitMaxFlow == readBurst / 8
    {
      readRate := OrDefault(rate, DEFAULT_RATE);
      var b := OrDefault(burst, DEFAULT_BURST);
      readBurst, residReadueBurst := b, b;
      nowTimeUnix := now;
      slimitMaxFlow := b / SHARDS;
      cc := 0;
      slimitArray := new int[SHARDS];
      new;
      for i := 0 to SHARDS
        modifies slimitArray
        invariant forall k :: 0 <= k < i ==> slimitArray[k] == slimitMaxFlow
      {
        slimitArray[i] := slimitMaxFlow;
      }
      assert slimitArray[..] == Fresh(rate, burst, now).shards;
    }

    method UpdateParameter(rate: int, burst: int)
      requires Valid()
      modifies this`readRate, this`readBurst, this`residReadueBurst, this`slimitMaxFlow
      ensures Valid() && Value() == Updated(old(Value()), rate, burst)
      ensures readRate == if rate <= 0 then 30720 else rate
      ensures readBurst == residReadueBurst == if burst <= 0 then 102400000 else burst
      ensures slimitMaxFlow == readBurst / 8
    {
      readRate := OrDefault(rate, DEFAULT_RATE);
      readBurst := OrDefault(burst, DEFAULT_BURST);
      residReadueBurst := readBurst;
      slimitMaxFlow := readBurst / SHARDS;
    }

    /** What a refill at time `now` finds in the pool, which starts afresh with every second. */
    ghost function Found(now: int): int
      reads this
    {
      if nowTimeUnix != now then readBurst else residReadueBurst
    }

    /** The refill of shard `idx`; false when the pool has nothing left for this second. Otherwise the shard gets an
        eighth of the burst, or what is left if that is less. */
    method Refill(idx: nat, now: int) returns (ok: bool)
      requires Valid() && idx < SHARDS && slimitArray[idx] <= 0
      modifies this`nowTimeUnix, this`residReadueBurst, slimitArray
      ensures Valid() && Value() == Refilled(old(Value()), idx, now)
      ensures nowTimeUnix == now && (ok <==> old(Found(now)) != 0)
      ensures var found := old(Found(now));
        && slimitArray[idx] == (if found <= readBurst / 8 then found else readBurst / 8)
        && residReadueBurst == found - slimitArray[idx]
      ensures forall k :: 0 <= k < SHARDS && k != idx ==> slimitArray[k] == old(slimitArray[k])
    {
      if nowTimeUnix != now {
        nowTimeUnix := now;
        residReadueBurst := readBurst;
      }
      if residReadueBurst == 0 {
        assert slimitArray[..] == old(slimitArray[..])[idx := 0];
        return false;
      }
      if residReadueBurst >= slimitMaxFlow {
        residReadueBurst := residReadueBurst - slimitMaxFlow;
        slimitArray[idx] := slimitMaxFlow;
      } else {
        slimitArray[idx] := residReadueBurst;
        residReadueBurst := 0;
      }
      assert slimitArray[..] == old(slimitArray[..])[idx := slimitArray[idx]];
      ok := true;
    }

    /** Takes from shard `idx` what the balance and the rate allow. */
    method Draw(idx: nat, dataLen: nat) returns (size: int)
      requires Valid() && idx < SHARDS
      modifies slimitArray
      ensures Valid() && size == GrantOf(old(Value()), idx, dataLen)
      ensures Value() == Drawn(old(Value()), idx, dataLen)
      ensures size == Least(dataLen, readRate, old(slimitArray[idx]))
      ensures slimitArray[idx] == old(slimitArray[idx]) - size
      ensures forall k :: 0 <= k < SHARDS && k != idx ==> slimitArray[k] == old(slimitArray[k])
    {
      var available := slimitArray[idx];
      ghost var before := slimitArray[..];
      if readRate >= available {
        if dataLen >= available {
          size := available;
          slimitArray[idx] := 0;
        } else {
          slimitArray[idx] := slimitArray[idx] - dataLen;
          size := dataLen;
        }
      } else if readRate >= dataLen {
        slimitArray[idx] := slimitArray[idx] - dataLen;
        size := dataLen;
      } else {
        slimitArray[idx] := slimitArray[idx] - readRate;
        size := readRate;
      }
      assert slimitArray[..] == before[idx := before[idx] - size];
    }

    /** One call with nobody interfering: the grant is the least of request, rate and balance after refill. */
    method GetReadSize(dataLen: nat, now: int) returns (size: int)
      requires Valid()
      modifies this`cc, this`nowTimeUnix, this`residReadueBurst, slimitArray
      ensures Valid() && cc == (old(cc) + 1) % TWO_TO_THE_64
      ensures var l := Topped(old(Value()), cc % SHARDS, now);
        size == GrantOf(l, cc % SHARDS, dataLen) && Value() == Drawn(l, cc % SHARDS, dataLen)
      ensures 0 <= size <= dataLen
      ensures var i := cc % 8; var found := old(Found(now)); var empty := old(slimitArray[i]) <= 0;
        var balance := if !empty then old(slimitArray[i]) else if found <= readBurst / 8 then found else readBurst / 8;
        && size == Least(dataLen, readRate, balance) && slimitArray[i] == balance - size
        && residReadueBurst == (if empty then found - balance else old(residReadueBurst))
        && forall k :: 0 <= k < SHARDS && k != i ==> slimitArray[k] == old(slimitArray[k])
      ensures var i := cc % SHARDS; var l := old(Value());
        Stock(Value()) + size == Stock(l) + if l.shards[i] == 0 then PoolAt(l, now) - l.pool else 0
    {
      CallConserves(Value(), (cc + 1) % TWO_TO_THE_64 % SHARDS, now, dataLen);
      cc := (cc + 1) % TWO_TO_THE_64;
      var idx := cc % SHARDS;
      if slimitArray[idx] <= 0 {
        var ok := Refill(idx, now);
        if !ok {
          assert slimitArray[..][idx := 0] == slimitArray[..];
          return 0;
        }
      }
      size := Draw(idx, dataLen);
    }
  }
}
