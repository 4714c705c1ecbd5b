/** The token bucket that the rate limiter stores per visitor: Limiter of golang.org/x/time/rate with
  * one token per fixed interval, over exact arithmetic. Only Allow is used, with one token per call.
  */
module TokenBucket {

  datatype Key = Key(text: string)

  datatype Rate = Rate(interval: int, burst: int)

  datatype Bucket = Bucket(tokens: real, last: int)

  const SECOND := 1_000_000_000

  // Division that truncates towards zero
  function Quotient(a: int, b: int): int
    requires b != 0
  {
    if a >= 0 then a / b else -(-a / b)
  }

  // newRateLimiter's parameters: the window is shared out evenly among limit tokens
  function RateOf(limit: int, window: int): Rate
    requires limit != 0
  {
    Rate(if Quotient(window, limit) <= 0 then SECOND else Quotient(window, limit), limit)
  }

  // The interval is the whole part of window over limit, if that is positive, and else a second.
  lemma IntervalMeans(limit: int, window: int)
    requires limit != 0
    ensures RateOf(limit, window).burst == limit
    ensures var interval := RateOf(limit, window).interval;
            if 0 < limit <= window then interval * limit <= window < (interval + 1) * limit
            else if window <= limit < 0 then interval * -limit <= -window < (interval + 1) * -limit
            else interval == 1_000_000_000
  {
    if limit > 0 {
      QuotientMeans(if window >= 0 then window else -window, limit);
    } else {
      QuotientMeans(if window >= 0 then window else -window, -limit);
      if window >= 0 {
        OppositeSigns(window, -limit);
      } else {
        OppositeSigns(-window, -limit);
      }
    }
  }

  lemma QuotientMeans(a: nat, b: int)
    requires b > 0
    ensures 0 <= a / b && a / b * b <= a < (a / b + 1) * b && (a / b == 0 <==> a < b)
  {
    assert a == a / b * b + a % b;
  }

  lemma OppositeSigns(a: nat, b: int)
    requires b > 0
    ensures a / -b == -(a / b)
  {
  }

  function Full(r: Rate): Bucket {
    Bucket(r.burst as real, 0)
  }

  function Refilled(r: Rate, b: Bucket, now: int): real
    requires r.interval > 0
  {
    var elapsed := if now < b.last then 0 else now - b.last;
    var tokens := b.tokens + elapsed as real / r.interval as real;
    if tokens > r.burst as real then r.burst as real else tokens
  }

  function Take(r: Rate, b: Bucket, now: int): (bool, Bucket)
    requires r.interval > 0
  {
    if r.burst >= 1 && Refilled(r, b, now) >= 1.0
    then (true, Bucket(Refilled(r, b, now) - 1.0, now))
    else (false, b)
  }

  class Limiter {
    const rate: Rate
    ghost const owner: Key // the only visitor it is made for
    var tokens: real
    var last: int

    constructor (rate: Rate, ghost owner: Key)
      ensures this.rate == rate && this.owner == owner && Value() == Full(rate)
    {
      this.rate, this.owner := rate, owner;
      tokens, last := rate.burst as real, 0;
    }

    function Value(): Bucket
      reads this
    {
      Bucket(tokens, last)
    }

    method Allow(now: int) returns (ok: bool)
      requires rate.interval > 0
      modifies `tokens, `last
      ensures (ok, Value()) == Take(rate, old(Value()), now)
    {
      var available := Refilled(rate, Bucket(tokens, last), now);
      ok := rate.burst >= 1 && available >= 1.0;
      if ok {
        tokens, last := available - 1.0, now;
      }
    }
  }
}
