/**
 The per-chat resend rate limiter: one lazily refilled token bucket per chat, a rate that can be
 retuned at any time, and a count of dropped resends. Time and tokens are reals.
 */
module ResendRateLimiter {
  type Chat = string

  datatype Bucket = Bucket(tokens: real, lastRefill: real)

  function Min(x: real, y: real): real {
    if x <= y then x else y
  }

  /** Time since the last access; the source's subtraction saturates at zero. */
  function Elapsed(b: Bucket, now: real): real {
    if now >= b.lastRefill then now - b.lastRefill else 0.0
  }

  function Earns(b: Bucket, now: real, rate: real): real {
    Elapsed(b, now) * rate
  }

  function Refilled(b: Bucket, now: real, burst: real, rate: real): real {
    Min(b.tokens + Earns(b, now, rate), burst)
  }

  predicate Allows(b: Bucket, now: real, burst: real, rate: real) {
    Refilled(b, now, burst, rate) >= 1.0
  }

  function Take(b: Bucket, now: real, burst: real, rate: real): Bucket {
    var tokens := Refilled(b, now, burst, rate);
    Bucket(if tokens >= 1.0 then tokens - 1.0 else tokens, now)
  }

  class TokenBucket {
    var tokens: real
    var lastRefill: real

    constructor (initial: real, now: real)
      ensures View() == Bucket(initial, now)
    {
      tokens := initial;
      lastRefill := now;
    }

    function View(): Bucket
      reads this
    {
      Bucket(tokens, lastRefill)
    }

    method TryTake(now: real, burst: real, refillPerSec: real) returns (allowed: bool)
      modifies this
      ensures View() == Take(old(View()), now, burst, refillPerSec)
      ensures allowed == Allows(old(View()), now, burst, refillPerSec)
    {
      var elapsed := if now >= lastRefill then now - lastRefill else 0.0;
      tokens := Min(tokens + elapsed * refillPerSec, burst);
      lastRefill := now;
      if tokens >= 1.0 {
        tokens := tokens - 1.0;
        allowed := true;
      } else {
        allowed := false;
      }
    }
  }

  // -- The limiter over all chats --

  /** What the limiter knows: a bucket per chat it remembers, and how many resends it dropped. */
  datatype Snapshot = Snapshot(buckets: map<Chat, Bucket>, throttled: nat)

  function Rate(perMin: nat): real {
    perMin as real / 60.0
  }

  /** A rate per minute is one: a minute earns an empty bucket exactly that many tokens, as far as the
      burst lets it hold them, and half a minute half as many. */
  lemma MinuteEarnsRate(perMin: nat, burst: nat, now: real)
    ensures Refilled(Bucket(0.0, now), now + 60.0, burst as real, Rate(perMin)) == Min(perMin as real, burst as real)
    ensures Refilled(Bucket(0.0, now), now + 30.0, burst as real, Rate(perMin)) == Min(perMin as real / 2.0, burst as real)
  {
    SixtiethOf(60.0, perMin as real);
    SixtiethOf(30.0, perMin as real);
  }

  /** The chat's bucket as an acquire finds it; a new one is full. */
  function BucketFor(v: Snapshot, chat: Chat, now: real, burst: nat): Bucket {
    if chat in v.buckets then v.buckets[chat] else Bucket(burst as real, now)
  }

  predicate Permits(v: Snapshot, chat: Chat, now: real, burst: nat, perMin: nat) {
    burst == 0 || Allows(BucketFor(v, chat, now, burst), now, burst as real, Rate(perMin))
  }

  /** One uninterrupted acquire. */
  function Acquire(v: Snapshot, chat: Chat, now: real, burst: nat, perMin: nat): Snapshot {
    if burst == 0 then v
    else
      Snapshot(
        v.buckets[chat := Take(BucketFor(v, chat, now, burst), now, burst as real, Rate(perMin))],
        if Permits(v, chat, now, burst, perMin) then v.throttled else v.throttled + 1)
  }

  lemma Updated(before: map<Chat, Bucket>, after: map<Chat, Bucket>, chat: Chat)
    requires after.Keys == before.Keys + {chat}
    requires forall c :: c in before && c != chat ==> after[c] == before[c]
    ensures after == before[chat := after[chat]]
  {
  }

  class Limiter {
    var buckets: map<Chat, TokenBucket>
    var burst: nat
    var refillPerMin: nat
    var throttledTotal: nat

    /** No two chats share a bucket. */
    ghost predicate Valid()
      reads this
    {
      forall c, d :: c in buckets && d in buckets && c != d ==> buckets[c] != buckets[d]
    }

    ghost function View(): Snapshot
      reads this, buckets.Values
    {
      Snapshot(map c | c in buckets :: buckets[c].View(), throttledTotal)
    }

    constructor (burst: nat, refillPerMin: nat)
      ensures Valid() && View() == Snapshot(map[], 0)
      ensures this.burst == burst && this.refillPerMin == refillPerMin
    {
      this.buckets := map[];
      this.burst := burst;
      this.refillPerMin := refillPerMin;
      this.throttledTotal := 0;
    }

    method SetRate(burst: nat, refillPerMin: nat)
      requires Valid()
      modifies this`burst, this`refillPerMin
      ensures Valid() && View() == old(View())
      ensures this.burst == burst && this.refillPerMin == refillPerMin
    {
      this.burst := burst;
      this.refillPerMin := refillPerMin;
    }

    /** The chat's bucket, created full when there is none. */
    method GetBucket(chat: Chat, now: real) returns (bucket: TokenBucket)
      requires Valid()
      modifies this`buckets
      ensures Valid() && buckets == old(buckets)[chat := bucket]
      ensures if chat in old(buckets) then bucket == old(buckets)[chat] else fresh(bucket)
      ensures bucket.View() == BucketFor(old(View()), chat, now, burst)
    {
      if chat !in buckets {
        bucket := new TokenBucket(burst as real, now);
        buckets := buckets[chat := bucket];
      }
      bucket := buckets[chat];
    }

    /** Takes from the chat's bucket and from no other. */
    method TakeFrom(chat: Chat, now: real) returns (allowed: bool)
      requires Valid()
      modifies this`buckets, buckets.Values
      ensures Valid()
      ensures var b := BucketFor(old(View()), chat, now, burst);
              && View().buckets == old(View()).buckets[chat := Take(b, now, burst as real, Rate(refillPerMin))]
              && allowed == Allows(b, now, burst as real, Rate(refillPerMin))
    {
      ghost var before := View().buckets;
      var refillPerSec := Rate(refillPerMin);
      var bucket := GetBucket(chat, now);
      allowed := bucket.TryTake(now, burst as real, refillPerSec);
      assert forall c :: c in before && c != chat ==> buckets[c].View() == before[c];
      Updated(before, View().buckets, chat);
    }

    method TryAcquire(chat: Chat, now: real) returns (allowed: bool)
      requires Valid()
      modifies this`buckets, this`throttledTotal, buckets.Values
      ensures Valid()
      ensures View() == Acquire(old(View()), chat, now, burst, refillPerMin)
      ensures allowed == Permits(old(View()), chat, now, burst, refillPerMin)
      ensures burst == 0 ==> allowed && View() == old(View())
      ensures throttledTotal == old(throttledTotal) + (if allowed then 0 else 1)
      ensures forall c :: c != chat ==> (c in View().buckets <==> c in old(View()).buckets)
      ensures forall c :: c != chat && c in View().buckets ==> View().buckets[c] == old(View()).buckets[c]
    {
      if burst == 0 {
        return true;
      }
      allowed := TakeFrom(chat, now);
      if !allowed {
        throttledTotal := throttledTotal + 1;
      }
    }
  }

  // -- Facts about one bucket --

  /** Tokens earned over a stretch of time. */
  function Worth(from: real, to: real, rate: real): real {
    (to - from) * rate
  }

  lemma WorthAdds(from: real, mid: real, to: real, rate: real)
    ensures Worth(from, to, rate) == Worth(from, mid, rate) + Worth(mid, to, rate)
    ensures from <= to && rate >= 0.0 ==> Worth(from, to, rate) >= 0.0
  {
  }

  lemma RefillIsSane(b: Bucket, now: real, burst: real, rate: real)
    requires b.tokens >= 0.0 && b.lastRefill <= now && burst >= 0.0 && rate >= 0.0
    ensures Earns(b, now, rate) == Worth(b.lastRefill, now, rate) >= 0.0
    ensures 0.0 <= Refilled(b, now, burst, rate) <= burst
    ensures Refilled(b, now, burst, rate) <= b.tokens + Worth(b.lastRefill, now, rate)
    ensures Take(b, now, burst, rate).tokens >= 0.0
  {
    WorthAdds(b.lastRefill, b.lastRefill, now, rate);
  }

  /** A minute's worth of the rate, spread over its seconds. */
  lemma SixtiethOf(seconds: real, perMin: real)
    ensures 60.0 * (seconds * (perMin / 60.0)) == seconds * perMin
  {
    var rate := perMin / 60.0;
    assert perMin == 60.0 * rate;
    assert 60.0 * (seconds * rate) == seconds * (60.0 * rate);
  }

  lemma EarnsSixtieth(b: Bucket, now: real, perMin: nat)
    requires b.lastRefill <= now
    ensures 60.0 * Earns(b, now, Rate(perMin)) == Worth(b.lastRefill, now, perMin as real)
  {
    SixtiethOf(now - b.lastRefill, perMin as real);
  }

  lemma AtLeastOneToken(tokens: real, earned: real, burst: nat)
    ensures Min(tokens + earned, burst as real) >= 1.0 <==> burst >= 1 && 60.0 * tokens + 60.0 * earned >= 60.0
  {
  }

  /** When an acquire is allowed, in the settings' own units: with a positive burst, exactly when what was
      left and what each second since earned, a sixtieth of the rate per minute, make a whole token. */
  lemma AllowsIffTokenEarned(b: Bucket, now: real, burst: nat, perMin: nat)
    requires b.lastRefill <= now
    ensures Allows(b, now, burst as real, Rate(perMin)) <==>
            burst >= 1 && 60.0 * b.tokens + Worth(b.lastRefill, now, perMin as real) >= 60.0
  {
    EarnsSixtieth(b, now, perMin);
    AtLeastOneToken(b.tokens, Earns(b, now, Rate(perMin)), burst);
  }

  /** A refill loses tokens only by overflow, and then leaves the bucket full. */
  lemma RefillLosesOnlyOverflow(b: Bucket, now: real, burst: real, rate: real)
    requires b.lastRefill <= now
    ensures var all := b.tokens + Worth(b.lastRefill, now, rate);
            Refilled(b, now, burst, rate) == if all <= burst then all else burst
  {
  }

  function One(b: bool): nat {
    if b then 1 else 0
  }

  /** What takes at one instant allow, one after the other. */
  function AllowedAtOnce(b: Bucket, now: real, burst: real, rate: real, takes: nat): nat
    decreases takes
  {
    if takes == 0 then 0
    else One(Allows(b, now, burst, rate)) + AllowedAtOnce(Take(b, now, burst, rate), now, burst, rate, takes - 1)
  }

  /** A bucket with whole tokens allows exactly that many takes at one instant, and no more: a full
      one exactly its burst. */
  lemma {:induction false} BurstIsExact(b: Bucket, left: nat, burst: nat, rate: real, takes: nat)
    requires left <= burst && b.tokens == left as real
    ensures AllowedAtOnce(b, b.lastRefill, burst as real, rate, takes) == if takes <= left then takes else left
    decreases takes
  {
    if takes == 0 {
    } else {
      assert Earns(b, b.lastRefill, rate) == 0.0;
      var b' := Take(b, b.lastRefill, burst as real, rate);
      BurstIsExact(b', if left > 0 then left - 1 else 0, burst, rate, takes - 1);
    }
  }
}
