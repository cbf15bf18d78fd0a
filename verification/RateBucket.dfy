/** The token bucket in front of the management endpoints: five tokens a client, one back every
    six seconds, idle buckets evicted lazily. Times are integer nanoseconds of a clock that does
    not go back; token counts are reals. */
module RateBucket {
  import opened Collections

  const CAPACITY := 5.0
  const REFILL := 6_000_000_000
  const TTL := 600_000_000_000
  const MAX_IDLE := 1024
  const GLOBAL := "_global"

  datatype Bucket = Bucket(tokens: real, lastSeen: int)
  type Buckets = map<string, Bucket>
  datatype Call = Call(ip: string, at: int)

  function Client(ip: string): string {
    if ip == "" then GLOBAL else ip
  }

  function Refill(elapsed: int): real {
    elapsed as real / REFILL as real
  }

  /** The tokens a client has when it calls; a client without a bucket starts full. */
  function Level(b: Option<Bucket>, now: int): real {
    if b.None? then CAPACITY
    else
      var tokens := b.value.tokens + Refill(now - b.value.lastSeen);
      if tokens > CAPACITY then CAPACITY else tokens
  }

  function Spend(level: real, now: int): Bucket {
    Bucket(if level < 1.0 then level else level - 1.0, now)
  }

  function Find(t: Buckets, ip: string): Option<Bucket> {
    if ip in t then Some(t[ip]) else None
  }

  predicate Allows(t: Buckets, c: Call) {
    Level(Find(t, Client(c.ip)), c.at) >= 1.0
  }

  function Evict(t: Buckets, now: int): Buckets {
    map k | k in t && now - t[k].lastSeen <= TTL :: t[k]
  }

  function Take(t: Buckets, c: Call): Buckets {
    var ip := Client(c.ip);
    var next := t[ip := Spend(Level(Find(t, ip), c.at), c.at)];
    if Allows(t, c) && |next| > MAX_IDLE then Evict(next, c.at) else next
  }

  class Limiter {
    var buckets: Buckets

    constructor ()
      ensures buckets == map[]
    {
      buckets := map[];
    }

    method Allow(ip: string, now: int) returns (allowed: bool)
      modifies this
      ensures allowed == Allows(old(buckets), Call(ip, now))
      ensures buckets == Take(old(buckets), Call(ip, now))
    {
      var key := if ip == "" then GLOBAL else ip;
      var b := if key in buckets then buckets[key] else Bucket(CAPACITY, now);
      var tokens := b.tokens + Refill(now - b.lastSeen);
      if tokens > CAPACITY { tokens := CAPACITY; }
      buckets := buckets[key := Bucket(tokens, now)];
      if tokens < 1.0 { return false; }
      buckets := buckets[key := Bucket(tokens - 1.0, now)];
      if |buckets| > MAX_IDLE { EvictIdle(now); }
      return true;
    }

    method EvictIdle(now: int)
      modifies this
      ensures buckets == Evict(old(buckets), now)
    {
      var rest := buckets.Keys;
      while rest != {}
        invariant rest <= old(buckets).Keys
        invariant buckets == map k | k in old(buckets) && (k in rest || now - old(buckets)[k].lastSeen <= TTL)
          :: old(buckets)[k]
        decreases rest
      {
        var k :| k in rest;
        if now - buckets[k].lastSeen > TTL { buckets := buckets - {k}; }
        rest := rest - {k};
      }
    }
  }

  // ----- every run of calls

  ghost predicate Monotone(calls: seq<Call>) {
    forall i, j | 0 <= i < j < |calls| :: calls[i].at <= calls[j].at
  }

  function Play(calls: seq<Call>): Buckets {
    if calls == [] then map[] else Take(Play(calls[..|calls| - 1]), calls[|calls| - 1])
  }

  /** The reference: one client alone, with a bucket that is never evicted. */
  function Own(calls: seq<Call>, ip: string): Option<Bucket> {
    if calls == [] then None
    else
      var own := Own(calls[..|calls| - 1], ip);
      var c := calls[|calls| - 1];
      if Client(c.ip) == ip then Some(Spend(Level(own, c.at), c.at)) else own
  }

  /** A client's bucket is its own, or it was evicted and its own would be full by now. */
  ghost predicate Agrees(t: Buckets, own: Option<Bucket>, ip: string, now: int) {
    && (own.Some? ==> 0.0 <= own.value.tokens <= CAPACITY && own.value.lastSeen <= now)
    && (ip in t ==> own == Some(t[ip]))
    && (ip !in t && own.Some? ==> now - own.value.lastSeen > TTL)
  }

  lemma AgreesMeansSameLevel(t: Buckets, own: Option<Bucket>, ip: string, before: int, now: int)
    requires Agrees(t, own, ip, before) && before <= now
    ensures Level(Find(t, ip), now) == Level(own, now)
    ensures 0.0 <= Level(own, now) <= CAPACITY
  {
  }

  lemma {:induction false} EveryClientAgrees(calls: seq<Call>, ip: string)
    requires Monotone(calls) && calls != []
    ensures Agrees(Play(calls), Own(calls, ip), ip, calls[|calls| - 1].at)
  {
    var init, c := calls[..|calls| - 1], calls[|calls| - 1];
    if init == [] {
      assert Play(init) == map[];
    } else {
      EveryClientAgrees(init, ip);
      AgreesMeansSameLevel(Play(init), Own(init, ip), ip, init[|init| - 1].at, c.at);
    }
  }

  /** Evicting idle buckets and sharing the table change no decision: every call is decided as if
      the client had always been alone. */
  lemma DecidedAlone(calls: seq<Call>, c: Call)
    requires Monotone(calls + [c])
    ensures Allows(Play(calls), c) <==> Level(Own(calls, Client(c.ip)), c.at) >= 1.0
  {
    if calls != [] {
      MonotonePrefix(calls, c);
      EveryClientAgrees(calls, Client(c.ip));
      AgreesMeansSameLevel(Play(calls), Own(calls, Client(c.ip)), Client(c.ip), calls[|calls| - 1].at, c.at);
    }
  }

  /** The calls of one client allowed within a closed interval of time. */
  function AllowedIn(calls: seq<Call>, ip: string, from: int, to: int): nat {
    if calls == [] then 0
    else
      var init, c := calls[..|calls| - 1], calls[|calls| - 1];
      AllowedIn(init, ip, from, to) + if Client(c.ip) == ip && from <= c.at <= to && Allows(Play(init), c) then 1 else 0
  }

  /** What has been allowed and what is left never exceed a full bucket and the refill since the
      interval began. */
  lemma {:induction false} SpentAndLeft(calls: seq<Call>, ip: string, from: int, to: int)
    requires Monotone(calls)
    ensures var own := Own(calls, ip);
      && (own.Some? ==>
            && 0.0 <= own.value.tokens <= CAPACITY
            && exists i :: 0 <= i < |calls| && own.value.lastSeen == calls[i].at)
      && (own.None? || own.value.lastSeen < from ==> AllowedIn(calls, ip, from, to) == 0)
      && (own.Some? && from <= own.value.lastSeen <= to ==>
            AllowedIn(calls, ip, from, to) as real + own.value.tokens <= CAPACITY + Refill(own.value.lastSeen - from))
      && (from <= to ==> AllowedIn(calls, ip, from, to) as real <= CAPACITY + Refill(to - from))
  {
    hide Play, Take, Level, Spend, Refill, Allows, Client, Monotone;
    if from <= to { RefillGrows(0, to - from); }
    if calls != [] {
      var init, c := calls[..|calls| - 1], calls[|calls| - 1];
      assert init + [c] == calls;
      MonotonePrefix(init, c);
      SpentAndLeft(init, ip, from, to);
      var own := Own(init, ip);
      if own.Some? {
        var i :| 0 <= i < |init| && own.value.lastSeen == init[i].at;
        assert calls[i] == init[i];
      }
      if Client(c.ip) == ip {
        DecidedAlone(init, c);
        assert calls[|calls| - 1].at == c.at;
      }
      if from <= c.at <= to { RefillGrows(c.at - from, to - from); }
      SpendBounds(own, from, to, c.at, AllowedIn(init, ip, from, to));
    }
  }

  lemma SpendBounds(own: Option<Bucket>, from: int, to: int, now: int, spent: nat)
    requires own.Some? ==> 0.0 <= own.value.tokens <= CAPACITY && own.value.lastSeen <= now
    requires own.None? || own.value.lastSeen < from ==> spent == 0
    requires own.Some? && from <= own.value.lastSeen <= to ==>
      spent as real + own.value.tokens <= CAPACITY + Refill(own.value.lastSeen - from)
    ensures var level := Level(own, now);
      var more := spent + if level >= 1.0 then 1 else 0;
      && 0.0 <= Spend(level, now).tokens <= CAPACITY && Spend(level, now).lastSeen == now
      && (from <= now <= to ==> more as real + Spend(level, now).tokens <= CAPACITY + Refill(now - from))
  {
  }

  lemma RefillGrows(a: int, b: int)
    requires a <= b
    ensures Refill(0) == 0.0 && Refill(a) <= Refill(b)
  {
  }

  /** The bound the limiter is for: in any interval a client is allowed at most five calls and
      one more for every six seconds. */
  lemma AllowedAtMost(calls: seq<Call>, ip: string, from: int, to: int)
    requires Monotone(calls) && from <= to
    ensures AllowedIn(calls, ip, from, to) as real <= 5.0 + (to - from) as real / 6_000_000_000.0
  {
    SpentAndLeft(calls, ip, from, to);
  }

  /** Two addresses are of one client when they are equal; all calls without one are of one client,
      which shares its bucket with the name "_global". */
  predicate SameClient(a: string, b: string) {
    a == b || (a in ["", "_global"] && b in ["", "_global"])
  }

  lemma SameClientExactly(a: string, b: string)
    ensures SameClient(a, b) <==> Client(a) == Client(b)
  {
  }

  /** How often a client has called. */
  function CallsBy(calls: seq<Call>, ip: string): nat {
    if calls == [] then 0
    else CallsBy(calls[..|calls| - 1], ip) + if SameClient(calls[|calls| - 1].ip, ip) then 1 else 0
  }

  /** Five calls at once: a client that has called less than five times is allowed, however fast it
      called and whatever the others did. */
  lemma BurstIsAllowed(calls: seq<Call>, c: Call)
    requires Monotone(calls + [c]) && CallsBy(calls, c.ip) < 5
    ensures Allows(Play(calls), c)
  {
    DecidedAlone(calls, c);
    MonotonePrefix(calls, c);
    OwnAfterCalls(calls, c.ip);
    if calls != [] { EveryClientAgrees(calls, Client(c.ip)); }
    hide Play, Allows, CallsBy, Own;
  }

  lemma {:induction false} OwnAfterCalls(calls: seq<Call>, ip: string)
    requires Monotone(calls)
    ensures var own := Own(calls, Client(ip));
      if own.Some? then own.value.tokens >= 5.0 - CallsBy(calls, ip) as real else CallsBy(calls, ip) == 0
  {
    hide Monotone, Level, Spend, Client, Agrees, Play, SameClient;
    if calls != [] {
      var init, c := calls[..|calls| - 1], calls[|calls| - 1];
      assert init + [c] == calls;
      MonotonePrefix(init, c);
      OwnAfterCalls(init, ip);
      SpendsOne(init, Client(ip), c);
      SameClientExactly(c.ip, ip);
    }
  }

  /** A call takes at most one token off what the client had, and time only adds to it. */
  lemma SpendsOne(calls: seq<Call>, ip: string, c: Call)
    requires Monotone(calls + [c])
    ensures var own := Own(calls, ip);
      Spend(Level(own, c.at), c.at).tokens >= (if own.Some? then own.value.tokens else 5.0) - 1.0
  {
    MonotonePrefix(calls, c);
    hide Monotone, Own, Play;
    if calls != [] { EveryClientAgrees(calls, ip); }
    NothingOwned(ip);
  }

  lemma NothingOwned(ip: string)
    ensures Own([], ip).None?
  {
  }

  /** And no more: the sixth of six calls at the same time is refused. */
  lemma SixthIsRefused(calls: seq<Call>, c: Call)
    requires Monotone(calls + [c]) && CallsBy(calls, c.ip) == 5
    requires forall i | 0 <= i < |calls| && SameClient(calls[i].ip, c.ip) :: calls[i].at == c.at
    ensures !Allows(Play(calls), c)
  {
    hide *;
    DecidedAlone(calls, c);
    OwnAtOnce(calls, c.ip, c.at);
    NothingLeft(c.at);
    assert Own(calls, Client(c.ip)) == Some(Bucket(0.0, c.at));
  }

  lemma NothingLeft(at: int)
    ensures Level(Some(Bucket(0.0, at)), at) == 0.0
  {
  }

  lemma {:induction false} OwnAtOnce(calls: seq<Call>, ip: string, at: int)
    requires CallsBy(calls, ip) <= 5
    requires forall i | 0 <= i < |calls| && SameClient(calls[i].ip, ip) :: calls[i].at == at
    ensures var own := Own(calls, Client(ip));
      if own.Some? then CallsBy(calls, ip) > 0 && own.value == Bucket(5.0 - CallsBy(calls, ip) as real, at)
      else CallsBy(calls, ip) == 0
  {
    if calls != [] {
      OwnAtOnce(calls[..|calls| - 1], ip, at);
      SameClientExactly(calls[|calls| - 1].ip, ip);
    }
  }

  /** Only buckets idle for more than ten minutes go, and only after an allowed call that leaves more
      than 1024 of them. */
  lemma EvictedExactly(t: Buckets, c: Call, ip: string)
    requires ip in t && ip != Client(c.ip)
    ensures ip !in Take(t, c) <==>
      Allows(t, c) && c.at - t[ip].lastSeen > 600_000_000_000 && |t.Keys + {Client(c.ip)}| > 1024
    ensures ip in Take(t, c) ==> Take(t, c)[ip] == t[ip]
  {
    var next := t[Client(c.ip) := Spend(Level(Find(t, Client(c.ip)), c.at), c.at)];
    assert next.Keys == t.Keys + {Client(c.ip)} && |next.Keys| == |next|;
    hide Level, Spend;
  }

  /** And nobody is starved: a client that has been silent for six seconds is allowed, whatever
      the others did. */
  lemma SilenceIsRewarded(calls: seq<Call>, c: Call)
    requires Monotone(calls + [c])
    requires forall i | 0 <= i < |calls| && SameClient(calls[i].ip, c.ip) :: c.at - calls[i].at >= 6_000_000_000
    ensures Allows(Play(calls), c)
  {
    hide Play, Allows, Own, Level;
    forall i | 0 <= i < |calls| && Client(calls[i].ip) == Client(c.ip) ensures c.at - calls[i].at >= REFILL {
      SameClientExactly(calls[i].ip, c.ip);
    }
    hide *;
    DecidedAlone(calls, c);
    OwnIsQuiet(calls, c);
    QuietRefills(Own(calls, Client(c.ip)), c.at);
  }

  lemma QuietRefills(own: Option<Bucket>, now: int)
    requires own.Some? ==> own.value.tokens >= 0.0 && now - own.value.lastSeen >= REFILL
    ensures Level(own, now) >= 1.0
  {
  }

  lemma OwnIsQuiet(calls: seq<Call>, c: Call)
    requires Monotone(calls + [c])
    requires forall i | 0 <= i < |calls| && Client(calls[i].ip) == Client(c.ip) :: c.at - calls[i].at >= REFILL
    ensures var own := Own(calls, Client(c.ip));
      own.Some? ==> own.value.tokens >= 0.0 && c.at - own.value.lastSeen >= REFILL
  {
    hide Own, Play, Client;
    var own := Own(calls, Client(c.ip));
    if own.Some? {
      OwnIsACall(calls, Client(c.ip));
      MonotonePrefix(calls, c);
      hide Monotone;
      EveryClientAgrees(calls, Client(c.ip));
    }
  }

  lemma MonotonePrefix(calls: seq<Call>, c: Call)
    requires Monotone(calls + [c])
    ensures Monotone(calls) && forall i | 0 <= i < |calls| :: calls[i].at <= c.at
  {
    assert forall i | 0 <= i < |calls| :: (calls + [c])[i] == calls[i];
    assert (calls + [c])[|calls|] == c;
  }

  lemma {:induction false} OwnIsACall(calls: seq<Call>, ip: string)
    requires Own(calls, ip).Some?
    ensures exists i :: 0 <= i < |calls| && Client(calls[i].ip) == ip && Own(calls, ip).value.lastSeen == calls[i].at
  {
    var init, c := calls[..|calls| - 1], calls[|calls| - 1];
    if Client(c.ip) != ip {
      OwnIsACall(init, ip);
      var i :| 0 <= i < |init| && Client(init[i].ip) == ip && Own(init, ip).value.lastSeen == init[i].at;
      assert calls[i] == init[i];
    }
  }
}
