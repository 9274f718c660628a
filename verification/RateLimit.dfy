/** core/security/ratelimit.py: the in-memory token bucket, the Lua/Redis bucket whose key
    expires, and the fail-over wrapper. Floats are reals; a clock reading is a parameter. */
module RateLimit {
  import opened Bounds
  import opened Wrappers

  /** One bucket per (key, capacity, refill rate). */
  datatype BucketKey = BucketKey(key: string, capacity: nat, refill: real)

  datatype Bucket = Bucket(tokens: real, last: real)

  // ---------- one bucket ----------

  /** What the bucket gains while the clock moves by dt. */
  function Gain(k: BucketKey, dt: real): real {
    dt * k.refill
  }

  lemma GainMono(k: BucketKey, a: real, b: real)
    requires k.refill >= 0.0 && a <= b
    ensures Gain(k, a) <= Gain(k, b)
  {
  }

  lemma GainAdd(k: BucketKey, a: real, b: real)
    ensures Gain(k, a + b) == Gain(k, a) + Gain(k, b)
    ensures Gain(k, 0.0) == 0.0
  {
  }

  /** A bucket gains its refill rate in every second, in proportion to the time. */
  lemma RefillPerSecond(k: BucketKey, dt: real)
    ensures Gain(k, 1.0) == k.refill && Gain(k, dt) == dt * Gain(k, 1.0)
  {
    assert Gain(k, 1.0) == k.refill;
  }

  function Level(b: Option<Bucket>, k: BucketKey, now: real): real {
    match b
    case None => k.capacity as real
    case Some(s) => MaxReal(0.0, MinReal(k.capacity as real, s.tokens + Gain(k, now - s.last)))
  }

  function Take(b: Option<Bucket>, k: BucketKey, now: real): (Bucket, bool) {
    var tokens := Level(b, k, now);
    if tokens >= 1.0 then (Bucket(tokens - 1.0, now), true) else (Bucket(tokens, now), false)
  }

  ghost predicate Filled(b: Option<Bucket>, k: BucketKey) {
    b.Some? ==> 0.0 <= b.value.tokens <= k.capacity as real
  }

  class InMemoryTokenBucket {
    var buckets: map<BucketKey, Bucket>

    constructor ()
      ensures buckets == map[]
    {
      buckets := map[];
    }

    /** `now` is the clock reading taken before the lock: readings may arrive out of order. */
    method Allow(key: string, capacity: nat, refill: real, now: real) returns (ok: bool)
      modifies this
      ensures var k := BucketKey(key, capacity, refill);
              var t := Take(Get(old(buckets), k), k, now);
              ok == t.1 && buckets == old(buckets)[k := t.0]
    {
      var k := BucketKey(key, capacity, refill);
      var tokens: real;
      if k !in buckets {
        tokens := capacity as real;
      } else {
        var s := buckets[k];
        tokens := MaxReal(0.0, MinReal(capacity as real, s.tokens + Gain(k, now - s.last)));
      }
      if tokens >= 1.0 {
        buckets := buckets[k := Bucket(tokens - 1.0, now)];
        return true;
      }
      buckets := buckets[k := Bucket(tokens, now)];
      return false;
    }
  }

  // ---------- runs of one bucket ----------

  /** The bucket after calls at the given times. */
  function After(b: Option<Bucket>, k: BucketKey, times: seq<real>): Option<Bucket> {
    if times == [] then b
    else Some(Take(After(b, k, times[..|times| - 1]), k, times[|times| - 1]).0)
  }

  function Decision(b: Option<Bucket>, k: BucketKey, times: seq<real>, i: nat): bool
    requires i < |times|
  {
    Take(After(b, k, times[..i]), k, times[i]).1
  }

  /** How many of the calls are admitted. */
  function Admitted(b: Option<Bucket>, k: BucketKey, times: seq<real>): nat {
    if times == [] then 0
    else Admitted(b, k, times[..|times| - 1]) + if Decision(b, k, times, |times| - 1) then 1 else 0
  }

  /** How far the clock moves forward over the calls; steps back count nothing. */
  ghost function Forward(times: seq<real>): real {
    if |times| < 2 then 0.0
    else Forward(times[..|times| - 1]) + MaxReal(0.0, times[|times| - 1] - times[|times| - 2])
  }

  lemma {:induction false} StaysFilled(b: Option<Bucket>, k: BucketKey, times: seq<real>)
    requires Filled(b, k)
    ensures Filled(After(b, k, times), k)
    decreases |times|
  {
    if times != [] {
      StaysFilled(b, k, times[..|times| - 1]);
    }
  }

  /** A call finds at most what was left plus what the clock's forward movement refills. */
  lemma Refills(b: Option<Bucket>, k: BucketKey, now: real)
    requires Filled(b, k) && b.Some? && k.refill >= 0.0
    ensures Level(b, k, now) <= b.value.tokens + Gain(k, MaxReal(0.0, now - b.value.last))
  {
    hide Gain;
    GainMono(k, 0.0, MaxReal(0.0, now - b.value.last));
    GainAdd(k, 0.0, 0.0);
    GainMono(k, now - b.value.last, MaxReal(0.0, now - b.value.last));
  }

  /** Upper bound, from any state the bucket can be in and for any timestamps: calls admitted
      are at most the capacity plus what the forward movement of the clock refills. */
  lemma {:induction false} UpperBound(b: Option<Bucket>, k: BucketKey, times: seq<real>)
    requires Filled(b, k) && k.refill >= 0.0
    ensures Admitted(b, k, times) as real <= k.capacity as real + Gain(k, Forward(times))
    ensures times != [] ==>
              Admitted(b, k, times) as real + After(b, k, times).value.tokens
              <= k.capacity as real + Gain(k, Forward(times))
              && After(b, k, times).value.last == times[|times| - 1]
    decreases |times|
  {
    hide Gain;
    StaysFilled(b, k, times);
    GainAdd(k, 0.0, 0.0);
    if |times| >= 2 {
      var init, now := times[..|times| - 1], times[|times| - 1];
      UpperBound(b, k, init);
      StaysFilled(b, k, init);
      Refills(After(b, k, init), k, now);
      GainAdd(k, Forward(init), MaxReal(0.0, now - times[|times| - 2]));
    } else if |times| == 1 {
      assert times[..0] == [];
    }
  }

  // ---------- the bucket is exact on a monotone clock ----------

  ghost predicate Monotone(times: seq<real>) {
    forall i, j :: 0 <= i <= j < |times| ==> times[i] <= times[j]
  }

  /** What the quota since call j leaves at call i: capacity plus refill since then, minus what
      has been admitted since then. */
  ghost function Room(k: BucketKey, times: seq<real>, j: nat, i: nat): real
    requires j <= i < |times|
  {
    k.capacity as real + Gain(k, times[i] - times[j])
    - (Admitted(None, k, times[..i]) - Admitted(None, k, times[..j])) as real
  }

  ghost function Spent(k: BucketKey, times: seq<real>, i: nat): real
    requires i < |times|
  {
    if Decision(None, k, times, i) then 1.0 else 0.0
  }

  lemma Prefix(k: BucketKey, times: seq<real>, i: nat)
    requires 0 < i < |times|
    ensures times[..i][..i - 1] == times[..i - 1] && times[..i][i - 1] == times[i - 1]
    ensures After(None, k, times[..i]) == Some(Take(After(None, k, times[..i - 1]), k, times[i - 1]).0)
    ensures Admitted(None, k, times[..i]) as real == Admitted(None, k, times[..i - 1]) as real + Spent(k, times, i - 1)
  {
    hide Take;
    assert times[..i][..i - 1] == times[..i - 1];
  }

  lemma RoomMoves(k: BucketKey, times: seq<real>, j: nat, i: nat)
    requires j < i < |times|
    ensures Room(k, times, j, i) == Room(k, times, j, i - 1) - Spent(k, times, i - 1) + Gain(k, times[i] - times[i - 1])
  {
    hide Gain, Spent, Admitted;
    Prefix(k, times, i);
    GainAdd(k, times[i] - times[i - 1], times[i - 1] - times[j]);
  }

  lemma RoomNow(k: BucketKey, times: seq<real>, i: nat)
    requires i < |times|
    ensures Room(k, times, i, i) == k.capacity as real
  {
    GainAdd(k, 0.0, 0.0);
  }

  lemma RoomAtStart(k: BucketKey, times: seq<real>)
    requires |times| > 0
    ensures Room(k, times, 0, 0) == Level(After(None, k, times[..0]), k, times[0]) == k.capacity as real
  {
    RoomNow(k, times, 0);
    assert times[..0] == [];
  }

  lemma LevelMoves(k: BucketKey, times: seq<real>, i: nat)
    requires Monotone(times) && k.refill >= 0.0 && 0 < i < |times|
    ensures Level(After(None, k, times[..i]), k, times[i])
            == MinReal(k.capacity as real,
                   Level(After(None, k, times[..i - 1]), k, times[i - 1])
                   - Spent(k, times, i - 1) + Gain(k, times[i] - times[i - 1]))
  {
    hide Gain, Admitted;
    Prefix(k, times, i);
    StaysFilled(None, k, times[..i]);
    GainMono(k, 0.0, times[i] - times[i - 1]);
    GainAdd(k, 0.0, 0.0);
  }

  /** On a monotone clock the token level is the least room over all earlier calls. */
  lemma {:induction false} LevelIsLeastRoom(k: BucketKey, times: seq<real>, i: nat) returns (best: nat)
    requires Monotone(times) && k.refill >= 0.0 && i < |times|
    ensures best <= i && Room(k, times, best, i) == Level(After(None, k, times[..i]), k, times[i])
    ensures forall j :: 0 <= j <= i ==> Level(After(None, k, times[..i]), k, times[i]) <= Room(k, times, j, i)
    decreases i
  {
    hide Gain, Admitted, Spent, Level, After;
    if i == 0 {
      best := 0;
      RoomAtStart(k, times);
    } else {
      best := LevelIsLeastRoom(k, times, i - 1);
      LevelMoves(k, times, i);
      forall j | 0 <= j < i
        ensures Room(k, times, j, i)
                == Room(k, times, j, i - 1) - Spent(k, times, i - 1) + Gain(k, times[i] - times[i - 1])
      {
        RoomMoves(k, times, j, i);
      }
      RoomNow(k, times, i);
      if Level(After(None, k, times[..i]), k, times[i]) == k.capacity as real {
        best := i;
      }
    }
  }

  /** Exactness: on a monotone clock a request is admitted if and only if admitting it keeps the
      number admitted since every earlier call within capacity plus refill since that call. */
  lemma AdmitsExactly(k: BucketKey, times: seq<real>, i: nat)
    requires Monotone(times) && k.refill >= 0.0 && i < |times|
    ensures Decision(None, k, times, i) <==> forall j :: 0 <= j <= i ==> Room(k, times, j, i) >= 1.0
  {
    var best := LevelIsLeastRoom(k, times, i);
    assert Decision(None, k, times, i) <==> Level(After(None, k, times[..i]), k, times[i]) >= 1.0;
  }

  lemma LevelFloor(k: BucketKey, times: seq<real>, i: nat)
    requires 0 < i < |times|
    ensures Level(After(None, k, times[..i]), k, times[i])
            >= MinReal(k.capacity as real,
                       Level(After(None, k, times[..i - 1]), k, times[i - 1])
                       - Spent(k, times, i - 1) + Gain(k, times[i] - times[i - 1]))
  {
    hide Gain, Admitted;
    Prefix(k, times, i);
  }

  /** For arbitrary timestamps the level is never below the least room. */
  lemma {:induction false} LevelAboveSomeRoom(k: BucketKey, times: seq<real>, i: nat) returns (best: nat)
    requires i < |times|
    ensures best <= i && Room(k, times, best, i) <= Level(After(None, k, times[..i]), k, times[i])
    decreases i
  {
    hide Gain, Admitted, Spent, Level, After;
    if i == 0 {
      best := 0;
      RoomAtStart(k, times);
    } else {
      best := LevelAboveSomeRoom(k, times, i - 1);
      LevelFloor(k, times, i);
      RoomMoves(k, times, best, i);
      RoomNow(k, times, i);
      if Level(After(None, k, times[..i]), k, times[i]) >= k.capacity as real {
        best := i;
      }
    }
  }

  /** No call is denied without a quota that it would break, also when the clock steps back. */
  lemma NeverDeniesEarly(k: BucketKey, times: seq<real>, i: nat)
    requires i < |times| && forall j :: 0 <= j <= i ==> Room(k, times, j, i) >= 1.0
    ensures Decision(None, k, times, i)
  {
    var best := LevelAboveSomeRoom(k, times, i);
    assert Room(k, times, best, i) >= 1.0;
  }

  // ---------- runs over many buckets ----------

  /** A call with its clock reading; `gone` says that the server finds the key expired. */
  datatype Call = Call(k: BucketKey, now: real, gone: bool)

  function Store(calls: seq<Call>): map<BucketKey, Bucket> {
    if calls == [] then map[]
    else
      var m, c := Store(calls[..|calls| - 1]), calls[|calls| - 1];
      m[c.k := Take(Get(m, c.k), c.k, c.now).0]
  }

  function Allows(calls: seq<Call>, i: nat): bool
    requires i < |calls|
  {
    Take(Get(Store(calls[..i]), calls[i].k), calls[i].k, calls[i].now).1
  }

  /** How many calls for bucket k are admitted. */
  function AdmittedFor(calls: seq<Call>, k: BucketKey): nat {
    if calls == [] then 0
    else AdmittedFor(calls[..|calls| - 1], k)
         + if calls[|calls| - 1].k == k && Allows(calls, |calls| - 1) then 1 else 0
  }

  /** The clock readings of the calls for bucket k. */
  function TimesOf(calls: seq<Call>, k: BucketKey): seq<real> {
    if calls == [] then []
    else TimesOf(calls[..|calls| - 1], k) + if calls[|calls| - 1].k == k then [calls[|calls| - 1].now] else []
  }

  lemma OneMore(k: BucketKey, ts: seq<real>, now: real)
    ensures After(None, k, ts + [now]) == Some(Take(After(None, k, ts), k, now).0)
    ensures Admitted(None, k, ts + [now])
            == Admitted(None, k, ts) + if Take(After(None, k, ts), k, now).1 then 1 else 0
  {
    hide Take;
    assert (ts + [now])[..|ts|] == ts;
  }

  /** Buckets do not affect each other: in a run over many buckets, each one behaves as it does
      alone on its own calls. */
  lemma {:induction false} BucketsIndependent(calls: seq<Call>, k: BucketKey)
    ensures Get(Store(calls), k) == After(None, k, TimesOf(calls, k))
    ensures AdmittedFor(calls, k) == Admitted(None, k, TimesOf(calls, k))
    decreases |calls|
  {
    hide Take;
    if calls != [] {
      var init, c := calls[..|calls| - 1], calls[|calls| - 1];
      BucketsIndependent(init, k);
      var ts := TimesOf(init, k);
      if c.k == k {
        OneMore(k, ts, c.now);
      } else {
        assert ts + [] == ts;
      }
    }
  }

  /** Over any run and any timestamps, including steps back. */
  lemma AdmittedIsBounded(calls: seq<Call>, k: BucketKey)
    requires k.refill >= 0.0
    ensures AdmittedFor(calls, k) as real <= k.capacity as real + Gain(k, Forward(TimesOf(calls, k)))
    ensures k in Store(calls) ==> 0.0 <= Store(calls)[k].tokens <= k.capacity as real
  {
    BucketsIndependent(calls, k);
    UpperBound(None, k, TimesOf(calls, k));
    StaysFilled(None, k, TimesOf(calls, k));
  }

  // ---------- the Lua bucket and key expiry ----------

  datatype Entry = Entry(tokens: real, ts: real, expireAt: real)

  function Ttl(k: BucketKey): int {
    if k.refill > 0.0 then (k.capacity as real / k.refill * 2.0).Floor + 60 else 86400
  }

  /** The script: an expired or absent key reads as nil; every call sets the expiry again. */
  function LuaTake(e: Option<Entry>, k: BucketKey, now: real): (Entry, bool) {
    var tokens := match e
      case None => k.capacity as real
      case Some(s) => MaxReal(0.0, MinReal(k.capacity as real, s.tokens + Gain(k, now - s.ts)));
    var ok := tokens >= 1.0;
    (Entry(if ok then tokens - 1.0 else tokens, now, now + Ttl(k) as real), ok)
  }

  function Live(db: map<BucketKey, Entry>, c: Call): Option<Entry> {
    if c.gone then None else Get(db, c.k)
  }

  class RedisTokenBucket {
    var db: map<BucketKey, Entry>

    constructor ()
      ensures db == map[]
    {
      db := map[];
    }

    method Allow(key: string, capacity: nat, refill: real, now: real, gone: bool) returns (ok: bool)
      modifies this
      ensures var c := Call(BucketKey(key, capacity, refill), now, gone);
              var t := LuaTake(Live(old(db), c), c.k, now);
              ok == t.1 && db == old(db)[c.k := t.0]
    {
      var k := BucketKey(key, capacity, refill);
      if gone {
        db := db - {k};
      }
      var tokens, n := capacity as real, 0;
      if k in db {
        var s := db[k];
        tokens := MaxReal(0.0, MinReal(capacity as real, s.tokens + Gain(k, now - s.ts)));
      }
      if tokens >= 1.0 {
        tokens := tokens - 1.0;
        n := 1;
      }
      db := db[k := Entry(tokens, now, now + Ttl(k) as real)];
      return n == 1;
    }
  }

  function LuaStore(calls: seq<Call>): map<BucketKey, Entry> {
    if calls == [] then map[]
    else
      var m, c := LuaStore(calls[..|calls| - 1]), calls[|calls| - 1];
      m[c.k := LuaTake(Live(m, c), c.k, c.now).0]
  }

  function LuaAllows(calls: seq<Call>, i: nat): bool
    requires i < |calls|
  {
    LuaTake(Live(LuaStore(calls[..i]), calls[i]), calls[i].k, calls[i].now).1
  }

  /** Keys disappear no earlier than their expiry time, on the clock the calls read. They may
      disappear later, or not at all. */
  ghost predicate ExpiresOnTime(calls: seq<Call>, i: nat)
    requires i < |calls|
  {
    var db := LuaStore(calls[..i]);
    calls[i].gone ==> calls[i].k in db && calls[i].now >= db[calls[i].k].expireAt
  }

  ghost predicate Legal(calls: seq<Call>) {
    forall i :: 0 <= i < |calls| ==> ExpiresOnTime(calls, i)
  }

  /** The two stores hold the same for bucket k. */
  ghost predicate SameBucket(m: map<BucketKey, Bucket>, db: map<BucketKey, Entry>, k: BucketKey) {
    && (k in m <==> k in db)
    && (k in m ==> m[k].tokens == db[k].tokens && m[k].last == db[k].ts && 0.0 <= m[k].tokens
                   && db[k].expireAt == db[k].ts + Ttl(k) as real)
  }

  /** A key that refills lives for twice the time an empty bucket takes to fill up and a minute, to
      the second below; one that does not for a day. */
  lemma KeyLifetime(k: BucketKey)
    requires k.refill >= 0.0
    ensures k.refill == 0.0 ==> Ttl(k) == 86400
    ensures k.refill > 0.0 ==> 59.0 < Ttl(k) as real - 2.0 * (k.capacity as real / k.refill) <= 60.0
  {
  }

  /** By the time a key may expire its bucket has filled up. */
  lemma RefilledByExpiry(k: BucketKey, dt: real)
    requires k.refill > 0.0 && dt >= Ttl(k) as real
    ensures Gain(k, dt) >= k.capacity as real
  {
    var full := k.capacity as real / k.refill;
    assert full >= 0.0;
    assert Ttl(k) as real >= full * 2.0 + 59.0;
    GainMono(k, full, dt);
    assert Gain(k, full) == k.capacity as real;
  }

  lemma LuaTakesTheSame(s: Option<Bucket>, e: Option<Entry>, k: BucketKey, now: real, gone: bool)
    requires k.refill > 0.0 || !gone
    requires s.Some? <==> e.Some?
    requires s.Some? ==> s.value.tokens == e.value.tokens && s.value.last == e.value.ts && 0.0 <= s.value.tokens
    requires gone ==> e.Some? && now >= e.value.ts + Ttl(k) as real
    ensures var t, u := Take(s, k, now), LuaTake(if gone then None else e, k, now);
            && t.1 == u.1 && t.0.tokens == u.0.tokens && t.0.last == u.0.ts == now && 0.0 <= t.0.tokens
            && u.0.expireAt == u.0.ts + Ttl(k) as real
  {
    hide Gain, Ttl;
    if gone {
      RefilledByExpiry(k, now - s.value.last);
    }
  }

  /** No call for bucket k finds its key expired, unless the bucket refills. */
  ghost predicate RefillsOrStays(calls: seq<Call>, k: BucketKey) {
    k.refill > 0.0 || forall c :: c in calls && c.k == k ==> !c.gone
  }

  /** Key expiry is unobservable for a bucket that refills: in every run over many buckets, of which
      others may lose their tokens, the Lua bucket makes the same decision as the bucket that never
      expires on every call for it, and holds the same tokens. */
  lemma {:induction false} ExpiryUnobservable(calls: seq<Call>, k: BucketKey, i: nat)
    requires Legal(calls) && i < |calls| && RefillsOrStays(calls, k)
    ensures calls[i].k == k ==> LuaAllows(calls, i) == Allows(calls, i)
    ensures SameBucket(Store(calls[..i + 1]), LuaStore(calls[..i + 1]), k)
    decreases i
  {
    hide Take, LuaTake, Ttl;
    if i > 0 {
      ExpiryUnobservable(calls, k, i - 1);
    } else {
      assert calls[..0] == [];
    }
    assert calls[..i + 1][..i] == calls[..i];
    assert ExpiresOnTime(calls, i);
    var m, db, c := Store(calls[..i]), LuaStore(calls[..i]), calls[i];
    assert SameBucket(m, db, k);
    if c.k == k {
      assert c in calls;
      LuaTakesTheSame(Get(m, c.k), Get(db, c.k), c.k, c.now, c.gone);
    }
  }

  /** The decisions of the Lua bucket and of the bucket that never expires agree on every call for k
      of every run. */
  ghost predicate AlwaysAgree(k: BucketKey) {
    forall calls: seq<Call>, i :: Legal(calls) && 0 <= i < |calls| && calls[i].k == k ==> SameDecision(calls, i)
  }

  ghost predicate SameDecision(calls: seq<Call>, i: nat)
    requires i < |calls|
  {
    LuaAllows(calls, i) == Allows(calls, i)
  }

  /** As many calls at time zero as the bucket holds, and one more. */
  function Burst(k: BucketKey, n: nat, late: Call): seq<Call> {
    seq(n, i => Call(k, 0.0, false)) + [late]
  }

  lemma {:induction false} BurstDrains(k: BucketKey, n: nat)
    requires k.refill == 0.0 && n <= k.capacity
    ensures var calls := seq(n, i => Call(k, 0.0, false));
            && (n > 0 ==> k in Store(calls) && Store(calls)[k] == Bucket((k.capacity - n) as real, 0.0))
            && (n == 0 ==> Store(calls) == map[])
            && (n > 0 ==> k in LuaStore(calls) && LuaStore(calls)[k].expireAt == 86400.0)
    decreases n
  {
    if n > 0 {
      BurstDrains(k, n - 1);
      var calls := seq(n, i => Call(k, 0.0, false));
      assert calls[..n - 1] == seq(n - 1, i => Call(k, 0.0, false));
      assert calls[n - 1] == Call(k, 0.0, false);
    }
  }

  /** Without refill, the key of a used-up bucket disappears after a day and the next call is
      admitted again, which the bucket that never expires would not do. */
  lemma ExpiryObservable(k: BucketKey)
    requires k.refill == 0.0 && k.capacity > 0
    ensures !AlwaysAgree(k)
  {
    hide Store, LuaStore;
    var n := k.capacity;
    var late := Call(k, 86400.0, true);
    var calls := Burst(k, n, late);
    var burst := seq(n, i => Call(k, 0.0, false));
    BurstDrains(k, n);
    assert calls[..n] == burst && calls[n] == late;
    forall i | 0 <= i < |calls| ensures ExpiresOnTime(calls, i) {
    }
    assert !SameDecision(calls, n);
  }

  /** Exactly when key expiry is unobservable: the bucket refills, or it never admits anything. */
  lemma ExpiryUnobservableIff(k: BucketKey)
    requires k.refill >= 0.0
    ensures AlwaysAgree(k) <==> k.refill > 0.0 || k.capacity == 0
  {
    hide Store, LuaStore;
    if k.refill > 0.0 {
      forall calls: seq<Call>, i | Legal(calls) && 0 <= i < |calls| && calls[i].k == k ensures SameDecision(calls, i) {
        ExpiryUnobservable(calls, k, i);
      }
    } else if k.capacity == 0 {
      forall calls: seq<Call>, i | Legal(calls) && 0 <= i < |calls| && calls[i].k == k ensures SameDecision(calls, i) {
      }
    } else {
      ExpiryObservable(k);
    }
  }

  // ---------- the fail-over wrapper ----------

  /** What happens to the call of the inner limiter: it answers, it fails without effect, or it
      takes effect and then fails, so that the answer is lost. */
  datatype Fault = Answers | FailsBefore | FailsAfter

  datatype LogEvent = FailOpen | Recovered

  datatype Guarded = Guarded(call: Call, fault: Fault, fallbackNow: real)

  datatype Guard = Guard(db: map<BucketKey, Entry>, mem: map<BucketKey, Bucket>, failing: bool, log: seq<LogEvent>)

  function FallbackCall(g: Guarded): Call {
    Call(g.call.k, g.fallbackNow, false)
  }

  function GuardStep(s: Guard, g: Guarded, hasFallback: bool): (Guard, bool) {
    var inner := LuaTake(Live(s.db, g.call), g.call.k, g.call.now);
    var db := if g.fault.FailsBefore? then s.db else s.db[g.call.k := inner.0];
    if g.fault.Answers? then
      (Guard(db, s.mem, false, if s.failing then s.log + [Recovered] else s.log), inner.1)
    else
      var log := if s.failing then s.log else s.log + [FailOpen];
      if hasFallback then
        var t := Take(Get(s.mem, g.call.k), g.call.k, g.fallbackNow);
        (Guard(db, s.mem[g.call.k := t.0], true, log), t.1)
      else
        (Guard(db, s.mem, true, log), true)
  }

  class FailOpenLimiter {
    const inner: RedisTokenBucket
    const fallback: InMemoryTokenBucket?
    var failing: bool
    var log: seq<LogEvent>

    constructor (inner: RedisTokenBucket, fallback: InMemoryTokenBucket?)
      ensures this.inner == inner && this.fallback == fallback && !failing && log == []
    {
      this.inner, this.fallback := inner, fallback;
      failing, log := false, [];
    }

    ghost function State(): Guard
      reads this, inner, fallback
    {
      Guard(inner.db, if fallback == null then map[] else fallback.buckets, failing, log)
    }

    method Allow(key: string, capacity: nat, refill: real, now: real, gone: bool, fault: Fault, fallbackNow: real)
      returns (ok: bool)
      modifies this, inner, fallback
      ensures (State(), ok)
              == GuardStep(old(State()), Guarded(Call(BucketKey(key, capacity, refill), now, gone), fault, fallbackNow),
                           fallback != null)
    {
      var raised := fault.FailsBefore?;
      if !raised {
        ok := inner.Allow(key, capacity, refill, now, gone);
        raised := fault.FailsAfter?;
      }
      if raised {
        if fallback != null {
          ok := fallback.Allow(key, capacity, refill, fallbackNow);
        } else {
          ok := true;
        }
        if !failing {
          failing := true;
          log := log + [FailOpen];
        }
        return;
      }
      if failing {
        failing := false;
        log := log + [Recovered];
      }
    }
  }

  function GuardRun(calls: seq<Guarded>, hasFallback: bool): Guard {
    if calls == [] then Guard(map[], map[], false, [])
    else GuardStep(GuardRun(calls[..|calls| - 1], hasFallback), calls[|calls| - 1], hasFallback).0
  }

  /** How many calls for bucket k the wrapper admits. */
  function GuardAdmits(calls: seq<Guarded>, hasFallback: bool, k: BucketKey): nat {
    if calls == [] then 0
    else
      var init, g := calls[..|calls| - 1], calls[|calls| - 1];
      GuardAdmits(init, hasFallback, k)
      + if g.call.k == k && GuardStep(GuardRun(init, hasFallback), g, hasFallback).1 then 1 else 0
  }

  /** The calls that reach the inner limiter. */
  function InnerCalls(calls: seq<Guarded>): seq<Call> {
    if calls == [] then []
    else
      var init, g := calls[..|calls| - 1], calls[|calls| - 1];
      if g.fault.FailsBefore? then InnerCalls(init) else InnerCalls(init) + [g.call]
  }

  /** The calls that reach the fallback. */
  function FallbackCalls(calls: seq<Guarded>): seq<Call> {
    if calls == [] then []
    else
      var init, g := calls[..|calls| - 1], calls[|calls| - 1];
      if g.fault.Answers? then FallbackCalls(init) else FallbackCalls(init) + [FallbackCall(g)]
  }

  function LuaAdmittedFor(calls: seq<Call>, k: BucketKey): nat {
    if calls == [] then 0
    else LuaAdmittedFor(calls[..|calls| - 1], k)
         + if calls[|calls| - 1].k == k && LuaAllows(calls, |calls| - 1) then 1 else 0
  }

  lemma {:induction false} LuaAdmitsTheSame(calls: seq<Call>, k: BucketKey)
    requires Legal(calls) && RefillsOrStays(calls, k)
    ensures LuaAdmittedFor(calls, k) == AdmittedFor(calls, k)
    decreases |calls|
  {
    hide Store, LuaStore;
    if calls != [] {
      var init := calls[..|calls| - 1];
      forall i | 0 <= i < |init| ensures ExpiresOnTime(init, i) {
        assert ExpiresOnTime(calls, i);
        assert init[..i] == calls[..i];
      }
      assert forall c :: c in init ==> c in calls;
      LuaAdmitsTheSame(init, k);
      ExpiryUnobservable(calls, k, |calls| - 1);
    }
  }

  lemma CallSnoc(calls: seq<Call>, c: Call, k: BucketKey)
    ensures Store(calls + [c]) == Store(calls)[c.k := Take(Get(Store(calls), c.k), c.k, c.now).0]
    ensures LuaStore(calls + [c]) == LuaStore(calls)[c.k := LuaTake(Live(LuaStore(calls), c), c.k, c.now).0]
    ensures Allows(calls + [c], |calls|) == Take(Get(Store(calls), c.k), c.k, c.now).1
    ensures LuaAllows(calls + [c], |calls|) == LuaTake(Live(LuaStore(calls), c), c.k, c.now).1
    ensures AdmittedFor(calls + [c], k)
            == AdmittedFor(calls, k) + if c.k == k && Take(Get(Store(calls), c.k), c.k, c.now).1 then 1 else 0
    ensures LuaAdmittedFor(calls + [c], k)
            == LuaAdmittedFor(calls, k) + if c.k == k && LuaTake(Live(LuaStore(calls), c), c.k, c.now).1 then 1 else 0
  {
    hide Take, LuaTake;
    assert (calls + [c])[..|calls|] == calls;
  }

  /** How many calls for bucket k find the inner limiter failing. */
  function FailedFor(calls: seq<Guarded>, k: BucketKey): nat {
    if calls == [] then 0
    else
      var init, g := calls[..|calls| - 1], calls[|calls| - 1];
      FailedFor(init, k) + if g.call.k == k && !g.fault.Answers? then 1 else 0
  }

  /** How many calls for bucket k the inner limiter answers with an admission. */
  function AnsweredFor(calls: seq<Guarded>, k: BucketKey): nat {
    if calls == [] then 0
    else
      var init, g := calls[..|calls| - 1], calls[|calls| - 1];
      AnsweredFor(init, k)
      + if g.call.k == k && g.fault.Answers? && LuaAllows(InnerCalls(init) + [g.call], |InnerCalls(init)|) then 1 else 0
  }

  /** The wrapper's limiters are driven by the calls that reach them, and it admits exactly what the
      inner one admits of the calls it answers, together with what the fallback admits of the calls
      that fail, or, without a fallback, all of these. */
  lemma {:induction false} GuardSplits(calls: seq<Guarded>, hasFallback: bool, k: BucketKey)
    ensures GuardRun(calls, hasFallback).db == LuaStore(InnerCalls(calls))
    ensures hasFallback ==> GuardRun(calls, hasFallback).mem == Store(FallbackCalls(calls))
    ensures GuardAdmits(calls, hasFallback, k)
            == AnsweredFor(calls, k)
               + if hasFallback then AdmittedFor(FallbackCalls(calls), k) else FailedFor(calls, k)
    decreases |calls|
  {
    hide Take, LuaTake, Store, LuaStore, AdmittedFor, LuaAdmittedFor, Allows, LuaAllows;
    if calls == [] {
      NoCalls(k);
    } else {
      var init, g := calls[..|calls| - 1], calls[|calls| - 1];
      GuardSplits(init, hasFallback, k);
      CallSnoc(InnerCalls(init), g.call, k);
      CallSnoc(FallbackCalls(init), FallbackCall(g), k);
    }
  }

  /** The decision of every call: that of the inner limiter over the calls that reached it, if it
      answers; otherwise that of the fallback over the calls that reached that, if there is one;
      otherwise the call passes. */
  lemma GuardDecides(calls: seq<Guarded>, g: Guarded, hasFallback: bool)
    ensures GuardStep(GuardRun(calls, hasFallback), g, hasFallback).1
            == if g.fault.Answers? then LuaAllows(InnerCalls(calls) + [g.call], |InnerCalls(calls)|)
               else if hasFallback then Allows(FallbackCalls(calls) + [FallbackCall(g)], |FallbackCalls(calls)|)
               else true
  {
    hide Take, LuaTake, Store, LuaStore, Allows, LuaAllows, GuardRun;
    GuardSplits(calls, hasFallback, g.call.k);
    CallSnoc(InnerCalls(calls), g.call, g.call.k);
    CallSnoc(FallbackCalls(calls), FallbackCall(g), g.call.k);
  }

  lemma {:induction false} AnsweredAreAdmitted(calls: seq<Guarded>, k: BucketKey)
    ensures AnsweredFor(calls, k) <= LuaAdmittedFor(InnerCalls(calls), k)
    decreases |calls|
  {
    hide Take, LuaTake, Store, LuaStore, LuaAllows, Allows, AdmittedFor, LuaAdmittedFor;
    if calls != [] {
      var init, g := calls[..|calls| - 1], calls[|calls| - 1];
      AnsweredAreAdmitted(init, k);
      CallSnoc(InnerCalls(init), g.call, k);
    }
  }

  lemma NoCalls(k: BucketKey)
    ensures Store([]) == map[] && LuaStore([]) == map[] && AdmittedFor([], k) == 0
  {
  }

  /** Fail-over: whatever fails and when, the calls admitted for a bucket are at most the bound of
      the inner limiter over the calls that reached it plus the bound of the fallback over the
      calls that reached that. */
  lemma FailOverBound(calls: seq<Guarded>, k: BucketKey)
    requires k.refill >= 0.0 && Legal(InnerCalls(calls)) && RefillsOrStays(InnerCalls(calls), k)
    ensures GuardAdmits(calls, true, k) as real
            <= k.capacity as real + Gain(k, Forward(TimesOf(InnerCalls(calls), k)))
               + k.capacity as real + Gain(k, Forward(TimesOf(FallbackCalls(calls), k)))
  {
    hide Gain, Forward, GuardAdmits, AdmittedFor, LuaAdmittedFor;
    GuardSplits(calls, true, k);
    AnsweredAreAdmitted(calls, k);
    LuaAdmitsTheSame(InnerCalls(calls), k);
    AdmittedIsBounded(InnerCalls(calls), k);
    AdmittedIsBounded(FallbackCalls(calls), k);
  }

  /** Without a fallback every call that fails is let through: the bound of the inner limiter plus the
      number of failed calls. */
  lemma FailOpenBound(calls: seq<Guarded>, k: BucketKey)
    requires k.refill >= 0.0 && Legal(InnerCalls(calls)) && RefillsOrStays(InnerCalls(calls), k)
    ensures GuardAdmits(calls, false, k) as real
            <= k.capacity as real + Gain(k, Forward(TimesOf(InnerCalls(calls), k))) + FailedFor(calls, k) as real
    ensures GuardAdmits(calls, false, k) >= FailedFor(calls, k)
  {
    hide Gain, Forward, GuardAdmits, AdmittedFor, LuaAdmittedFor;
    GuardSplits(calls, false, k);
    AnsweredAreAdmitted(calls, k);
    LuaAdmitsTheSame(InnerCalls(calls), k);
    AdmittedIsBounded(InnerCalls(calls), k);
  }

  /** The log alternates strictly, beginning with a failure, and its last entry tells whether the
      wrapper is failing: an outage is reported once when it starts and once when it ends. */
  lemma {:induction false} LogAlternates(calls: seq<Guarded>, hasFallback: bool)
    ensures var s := GuardRun(calls, hasFallback);
            && (forall i :: 0 <= i < |s.log| ==> s.log[i] == if i % 2 == 0 then FailOpen else Recovered)
            && (s.failing <==> |s.log| % 2 == 1)
            && (s.failing <==> calls != [] && !calls[|calls| - 1].fault.Answers?)
    decreases |calls|
  {
    if calls != [] {
      LogAlternates(calls[..|calls| - 1], hasFallback);
    }
  }
}
