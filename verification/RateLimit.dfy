/** The outbound token bucket: in process, and in Redis where an idle key expires. */
module RateLimit {
  import opened Options

  /** What is stored for a key: the tokens left and when they were counted. */
  datatype Bucket = Bucket(tokens: real, at: real)

  /** Seconds after which Redis drops an idle key. */
  const EXPIRY: real := 3600.0

  datatype Config = Config(capacity: nat, refill: real) {
    function Cap(): real { capacity as real }
  }

  function Min(a: real, b: real): real { if a <= b then a else b }

  /** The tokens refilled between two instants. */
  function Earned(from: real, to: real, refill: real): real { (to - from) * refill }

  lemma EarnedIsMonotone(from: real, mid: real, to: real, refill: real)
    requires from <= mid <= to && 0.0 <= refill
    ensures Earned(from, to, refill) == Earned(from, mid, refill) + Earned(mid, to, refill)
    ensures 0.0 <= Earned(from, mid, refill) && 0.0 <= Earned(mid, to, refill)
  {
  }

  lemma NothingEarnedInNoTime(now: real, refill: real)
    ensures Earned(now, now, refill) == 0.0
  {
  }

  /** The tokens there are at instant `now`. */
  function Refilled(c: Config, stored: Option<Bucket>, now: real): real {
    if stored.None? then c.Cap()
    else Min(c.Cap(), stored.value.tokens + Earned(stored.value.at, now, c.refill))
  }

  function After(c: Config, stored: Option<Bucket>, now: real): (r: (Bucket, bool)) {
    var tokens := Refilled(c, stored, now);
    if tokens < 1.0 then (Bucket(tokens, now), false) else (Bucket(tokens - 1.0, now), true)
  }

  /** Redis no longer has a key that was last touched `EXPIRY` ago. */
  function Unexpired(stored: Option<Bucket>, now: real): Option<Bucket> {
    if stored.Some? && now - stored.value.at >= EXPIRY then None else stored
  }

  datatype Call = Call(key: string, at: real)

  type Buckets = map<string, Bucket>

  function Lookup(b: Buckets, key: string): Option<Bucket> {
    if key in b then Some(b[key]) else None
  }

  /** One call of either limiter; `expires` says whether idle keys are forgotten. */
  function Step(c: Config, expires: bool, b: Buckets, call: Call): (Buckets, bool) {
    var stored := if expires then Unexpired(Lookup(b, call.key), call.at) else Lookup(b, call.key);
    var (bucket, granted) := After(c, stored, call.at);
    (b[call.key := bucket], granted)
  }

  class InMemoryTokenBucket {
    const config: Config
    var buckets: Buckets

    constructor (config: Config)
      ensures this.config == config && buckets == map[]
    {
      this.config := config;
      buckets := map[];
    }

    method Acquire(key: string, now: real) returns (granted: bool)
      modifies this
      ensures (buckets, granted) == Step(config, false, old(buckets), Call(key, now))
    {
      hide Earned;
      NothingEarnedInNoTime(now, config.refill);
      var stored := if key in buckets then buckets[key] else Bucket(config.Cap(), now);
      var tokens := Min(config.Cap(), stored.tokens + Earned(stored.at, now, config.refill));
      if tokens < 1.0 {
        buckets := buckets[key := Bucket(tokens, now)];
        return false;
      }
      buckets := buckets[key := Bucket(tokens - 1.0, now)];
      return true;
    }
  }

  /** The Lua script, on a store that forgets idle keys. */
  class RedisTokenBucket {
    const config: Config
    var hashes: Buckets

    constructor (config: Config)
      ensures this.config == config && hashes == map[]
    {
      this.config := config;
      hashes := map[];
    }

    method Acquire(key: string, now: real) returns (granted: bool)
      modifies this
      ensures (hashes, granted) == Step(config, true, old(hashes), Call(key, now))
    {
      hide Earned;
      NothingEarnedInNoTime(now, config.refill);
      var tokens, ts := config.Cap(), now;
      if key in hashes && now - hashes[key].at < EXPIRY {
        tokens, ts := hashes[key].tokens, hashes[key].at;
      }
      tokens := Min(config.Cap(), tokens + Earned(ts, now, config.refill));
      granted := false;
      if tokens >= 1.0 {
        tokens := tokens - 1.0;
        granted := true;
      }
      hashes := hashes[key := Bucket(tokens, now)];
    }
  }

  // ----- runs -----

  /** The clock never goes back. */
  predicate Ordered(calls: seq<Call>) {
    forall i, j :: 0 <= i < j < |calls| ==> calls[i].at <= calls[j].at
  }

  /** The answers of a run of calls, in order. */
  function Answers(c: Config, expires: bool, b: Buckets, calls: seq<Call>): seq<bool>
    decreases |calls|
  {
    if calls == [] then []
    else
      var (b', granted) := Step(c, expires, b, calls[0]);
      [granted] + Answers(c, expires, b', calls[1..])
  }

  /** How many of the calls for `key` made in [s, t] are granted. */
  function Grants(c: Config, expires: bool, b: Buckets, calls: seq<Call>, key: string, s: real, t: real): nat
    decreases |calls|
  {
    if calls == [] then 0
    else
      var (b', granted) := Step(c, expires, b, calls[0]);
      (if granted && calls[0].key == key && s <= calls[0].at <= t then 1 else 0)
      + Grants(c, expires, b', calls[1..], key, s, t)
  }

  // ----- the rate bound -----

  /** No bucket is over-full or was counted later than `now`. */
  predicate Sound(c: Config, b: Buckets, now: real) {
    forall key :: key in b ==> 0.0 <= b[key].tokens <= c.Cap() && b[key].at <= now
  }

  /** What a key can still be granted up to instant `t`, from instant `s` on. */
  function Allowance(c: Config, b: Buckets, key: string, s: real, t: real): real {
    if key in b && s <= b[key].at then b[key].tokens + Earned(b[key].at, t, c.refill)
    else c.Cap() + Earned(s, t, c.refill)
  }

  lemma StepIsSound(c: Config, b: Buckets, call: Call, now: real)
    requires 0.0 <= c.refill && Sound(c, b, now) && now <= call.at
    ensures Sound(c, Step(c, false, b, call).0, call.at)
  {
    hide Earned;
    if call.key in b { EarnedIsMonotone(b[call.key].at, call.at, call.at, c.refill); }
    var b' := Step(c, false, b, call).0;
    forall key | key in b' ensures 0.0 <= b'[key].tokens <= c.Cap() && b'[key].at <= call.at {
      if key != call.key { assert b'[key] == b[key]; }
    }
  }

  lemma StepSpendsAllowance(c: Config, b: Buckets, call: Call, now: real, s: real, t: real)
    requires 0.0 <= c.refill && Sound(c, b, now) && now <= call.at && s <= call.at <= t
    ensures var (b', granted) := Step(c, false, b, call);
            Allowance(c, b', call.key, s, t) + (if granted then 1.0 else 0.0) <= Allowance(c, b, call.key, s, t)
  {
    hide Earned;
    EarnedIsMonotone(s, call.at, t, c.refill);
    if call.key in b { EarnedIsMonotone(b[call.key].at, call.at, t, c.refill); }
  }

  lemma {:induction false} GrantsWithinAllowance(c: Config, b: Buckets, calls: seq<Call>, now: real, key: string,
                                                 s: real, t: real)
    requires 0.0 <= c.refill && Ordered(calls) && Sound(c, b, now) && s <= t
    requires calls != [] ==> now <= calls[0].at
    ensures Grants(c, false, b, calls, key, s, t) as real
            <= if key in b && t < b[key].at then 0.0 else Allowance(c, b, key, s, t)
    decreases |calls|
  {
    hide Earned;
    EarnedIsMonotone(s, t, t, c.refill);
    if key in b && b[key].at <= t { EarnedIsMonotone(b[key].at, t, t, c.refill); }
    if calls != [] {
      var call, rest := calls[0], calls[1..];
      var (b', granted) := Step(c, false, b, call);
      assert forall i :: 0 <= i < |rest| ==> rest[i] == calls[i + 1];
      StepIsSound(c, b, call, now);
      GrantsWithinAllowance(c, b', rest, call.at, key, s, t);
      if call.key == key && s <= call.at <= t { StepSpendsAllowance(c, b, call, now, s, t); }
    }
  }

  /** From an empty store, a key is granted at most its capacity plus what is refilled in any
      interval, whatever calls for other keys are mixed in. */
  lemma RateIsBounded(c: Config, calls: seq<Call>, key: string, s: real, t: real)
    requires 0.0 <= c.refill && Ordered(calls) && s <= t
    ensures Grants(c, false, map[], calls, key, s, t) as real <= c.Cap() + Earned(s, t, c.refill)
  {
    GrantsWithinAllowance(c, map[], calls, if calls == [] then 0.0 else calls[0].at, key, s, t);
  }

  // ----- nothing is refused that could be granted -----

  function Final(c: Config, expires: bool, b: Buckets, calls: seq<Call>): Buckets
    decreases |calls|
  {
    if calls == [] then b else Final(c, expires, Step(c, expires, b, calls[0]).0, calls[1..])
  }

  /** One more call at the end of a run. */
  lemma {:induction false} RunAppend(c: Config, b: Buckets, calls: seq<Call>, call: Call, key: string, s: real, t: real)
    ensures var (b', granted) := Step(c, false, Final(c, false, b, calls), call);
            && Final(c, false, b, calls + [call]) == b'
            && Answers(c, false, b, calls + [call]) == Answers(c, false, b, calls) + [granted]
            && Grants(c, false, b, calls + [call], key, s, t)
               == Grants(c, false, b, calls, key, s, t)
                  + if granted && call.key == key && s <= call.at <= t then 1 else 0
    decreases |calls|
  {
    hide Step;
    if calls == [] {
      assert calls + [call] == [call] && [call][1..] == [];
    } else {
      assert (calls + [call])[0] == calls[0] && (calls + [call])[1..] == calls[1..] + [call];
      RunAppend(c, Step(c, false, b, calls[0]).0, calls[1..], call, key, s, t);
    }
  }

  /** Past the last call a longer interval grants no more. */
  lemma {:induction false} LaterEnd(c: Config, b: Buckets, calls: seq<Call>, key: string, s: real, t: real, t': real)
    requires t <= t' && forall i :: 0 <= i < |calls| && calls[i].key == key ==> calls[i].at <= t
    ensures Grants(c, false, b, calls, key, s, t) == Grants(c, false, b, calls, key, s, t')
    decreases |calls|
  {
    hide Step;
    if calls != [] {
      assert forall i :: 0 <= i < |calls[1..]| ==> calls[1..][i] == calls[i + 1];
      LaterEnd(c, Step(c, false, b, calls[0]).0, calls[1..], key, s, t, t');
    }
  }

  /** Before its first call in the interval a key has been granted nothing in it. */
  lemma {:induction false} NoneYet(c: Config, b: Buckets, calls: seq<Call>, key: string, s: real, t: real)
    requires forall i :: 0 <= i < |calls| && calls[i].key == key ==> calls[i].at < s
    ensures Grants(c, false, b, calls, key, s, t) == 0
    decreases |calls|
  {
    hide Step;
    if calls != [] {
      assert forall i :: 0 <= i < |calls[1..]| ==> calls[1..][i] == calls[i + 1];
      NoneYet(c, Step(c, false, b, calls[0]).0, calls[1..], key, s, t);
    }
  }

  /** Since instant `s`, when it was full, the key's bucket has lost what was granted and nothing else. */
  ghost predicate FullAt(c: Config, calls: seq<Call>, key: string, s: real) {
    var b := Final(c, false, map[], calls);
    && key in b && s <= b[key].at
    && b[key].tokens
       == c.Cap() + Earned(s, b[key].at, c.refill) - Grants(c, false, map[], calls, key, s, b[key].at) as real
  }

  /** A key without a bucket has not been called for; one with a bucket was last called for when
      it was counted, and was full at some instant before. */
  ghost predicate Accounts(c: Config, calls: seq<Call>, key: string) {
    var b := Final(c, false, map[], calls);
    && (key !in b ==> forall i :: 0 <= i < |calls| ==> calls[i].key != key)
    && (key in b ==>
          && (forall i :: 0 <= i < |calls| && calls[i].key == key ==> calls[i].at <= b[key].at)
          && 0.0 <= b[key].tokens <= c.Cap() && (calls != [] ==> b[key].at <= calls[|calls| - 1].at)
          && exists s :: FullAt(c, calls, key, s))
  }

  /** Where a bucket that will hold `Refilled` tokens at `now` was last full. */
  lemma FullBefore(c: Config, calls: seq<Call>, key: string, now: real) returns (s: real)
    requires 0.0 <= c.refill && Accounts(c, calls, key) && (calls != [] ==> calls[|calls| - 1].at <= now)
    ensures s <= now
    ensures var b := Final(c, false, map[], calls);
            Refilled(c, Lookup(b, key), now)
            == c.Cap() + Earned(s, now, c.refill) - Grants(c, false, map[], calls, key, s, now) as real
  {
    hide Earned, Final, Grants;
    var b := Final(c, false, map[], calls);
    NothingEarnedInNoTime(now, c.refill);
    if key !in b {
      s := now;
      NoneYet(c, map[], calls, key, s, now);
    } else {
      if calls == [] { NoCalls(c); }
      var at := b[key].at;
      if c.Cap() < b[key].tokens + Earned(at, now, c.refill) {
        assert at != now;
        s := now;
        NoneYet(c, map[], calls, key, s, now);
      } else {
        s :| FullAt(c, calls, key, s);
        EarnedIsMonotone(s, at, now, c.refill);
        LaterEnd(c, map[], calls, key, s, at, now);
      }
    }
  }

  lemma NoCalls(c: Config)
    ensures Final(c, false, map[], []) == map[]
  {
  }

  lemma {:induction false} EveryRunAccounts(c: Config, calls: seq<Call>, key: string)
    requires 0.0 <= c.refill && Ordered(calls)
    ensures Accounts(c, calls, key)
    decreases |calls|
  {
    hide Earned, Grants, Final;
    if calls == [] {
      NoCalls(c);
    } else {
      var n := |calls| - 1;
      var before, call := calls[..n], calls[n];
      assert calls == before + [call];
      EveryRunAccounts(c, before, key);
      CallAccounts(c, before, call, key);
    }
  }

  lemma CallAccounts(c: Config, before: seq<Call>, call: Call, key: string)
    requires 0.0 <= c.refill && Accounts(c, before, key)
    requires forall i :: 0 <= i < |before| ==> before[i].at <= call.at
    ensures Accounts(c, before + [call], key)
  {
    hide Earned, Grants, Final;
    var calls, b := before + [call], Final(c, false, map[], before);
    assert forall i :: 0 <= i < |before| ==> calls[i] == before[i];
    var (b', granted) := Step(c, false, b, call);
    if before == [] { NoCalls(c); } else { assert before[|before| - 1].at <= call.at; }
    if call.key == key {
      var s := FullBefore(c, before, key, call.at);
      RunAppend(c, map[], before, call, key, s, call.at);
      if key in b { EarnedIsMonotone(b[key].at, call.at, call.at, c.refill); }
      assert FullAt(c, calls, key, s);
    } else {
      RunAppend(c, map[], before, call, key, 0.0, 0.0);
      assert key in b' <==> key in b;
      if key in b {
        var s :| FullAt(c, before, key, s);
        RunAppend(c, map[], before, call, key, s, b[key].at);
        assert FullAt(c, calls, key, s);
      }
    }
  }

  /** A call is refused exactly when granting it would break the bound: when, for some instant `s`
      up to the call, the key has been granted so much since `s` that one more would exceed the
      capacity plus what is refilled from `s` on. So the bound is not only kept, it is used up. */
  lemma RefusedExactlyOverTheRate(c: Config, calls: seq<Call>, call: Call)
    requires 0.0 <= c.refill && Ordered(calls + [call])
    ensures var answers := Answers(c, false, map[], calls + [call]);
            && answers != []
            && (!answers[|answers| - 1] <==>
                  exists s :: s <= call.at
                    && Grants(c, false, map[], calls, call.key, s, call.at) as real + 1.0
                       > c.Cap() + Earned(s, call.at, c.refill))
  {
    hide Earned, Grants, Final;
    var b := Final(c, false, map[], calls);
    assert forall i :: 0 <= i < |calls| ==> calls[i] == (calls + [call])[i];
    assert calls != [] ==> calls[|calls| - 1].at <= (calls + [call])[|calls|].at;
    EveryRunAccounts(c, calls, call.key);
    var full := FullBefore(c, calls, call.key, call.at);
    RunAppend(c, map[], calls, call, call.key, full, call.at);
    var (b', granted) := Step(c, false, b, call);
    if granted {
      forall s | s <= call.at
        ensures Grants(c, false, map[], calls, call.key, s, call.at) as real + 1.0
                <= c.Cap() + Earned(s, call.at, c.refill)
      {
        RunAppend(c, map[], calls, call, call.key, s, call.at);
        RateIsBounded(c, calls + [call], call.key, s, call.at);
      }
    }
  }

  // ----- expiry -----

  /** Forgetting idle keys never changes an answer. */
  ghost predicate ExpiryIsInvisible(c: Config) {
    forall calls: seq<Call> :: Ordered(calls) ==> Answers(c, true, map[], calls) == Answers(c, false, map[], calls)
  }

  /** An idle key is worth forgetting once it is full again. */
  predicate FullAfterExpiry(c: Config) {
    c.Cap() <= Earned(0.0, EXPIRY, c.refill)
  }

  lemma EarnedGrows(from: real, to: real, refill: real)
    requires EXPIRY <= to - from && 0.0 <= refill
    ensures Earned(0.0, EXPIRY, refill) <= Earned(from, to, refill)
  {
    assert Earned(from, to, refill) - Earned(0.0, EXPIRY, refill) == ((to - from) - EXPIRY) * refill;
  }

  lemma SameStep(c: Config, b: Buckets, call: Call, now: real)
    requires 0.0 <= c.refill && FullAfterExpiry(c) && Sound(c, b, now) && now <= call.at
    ensures Step(c, true, b, call) == Step(c, false, b, call)
  {
    hide Earned;
    if call.key in b && call.at - b[call.key].at >= EXPIRY { EarnedGrows(b[call.key].at, call.at, c.refill); }
  }

  lemma {:induction false} SameAnswers(c: Config, b: Buckets, calls: seq<Call>, now: real)
    requires 0.0 <= c.refill && FullAfterExpiry(c) && Sound(c, b, now) && Ordered(calls)
    requires calls != [] ==> now <= calls[0].at
    ensures Answers(c, true, b, calls) == Answers(c, false, b, calls)
    decreases |calls|
  {
    hide Earned;
    if calls != [] {
      var rest := calls[1..];
      assert forall i :: 0 <= i < |rest| ==> rest[i] == calls[i + 1];
      SameStep(c, b, calls[0], now);
      StepIsSound(c, b, calls[0], now);
      SameAnswers(c, Step(c, false, b, calls[0]).0, rest, calls[0].at);
    }
  }

  lemma {:induction false} SameGrants(c: Config, b: Buckets, calls: seq<Call>, now: real, key: string, s: real, t: real)
    requires 0.0 <= c.refill && FullAfterExpiry(c) && Sound(c, b, now) && Ordered(calls)
    requires calls != [] ==> now <= calls[0].at
    ensures Grants(c, true, b, calls, key, s, t) == Grants(c, false, b, calls, key, s, t)
    decreases |calls|
  {
    hide Earned;
    if calls != [] {
      var rest := calls[1..];
      assert forall i :: 0 <= i < |rest| ==> rest[i] == calls[i + 1];
      SameStep(c, b, calls[0], now);
      StepIsSound(c, b, calls[0], now);
      SameGrants(c, Step(c, false, b, calls[0]).0, rest, calls[0].at, key, s, t);
    }
  }

  // a burst of calls at one instant, to tell the two apart

  function Burst(key: string, n: nat, at: real): seq<Call> {
    if n == 0 then [] else [Call(key, at)] + Burst(key, n - 1, at)
  }

  predicate AllGranted(answers: seq<bool>) {
    forall i :: 0 <= i < |answers| ==> answers[i]
  }

  function Level(c: Config, expires: bool, b: Buckets, key: string, now: real): real {
    Refilled(c, if expires then Unexpired(Lookup(b, key), now) else Lookup(b, key), now)
  }

  /** A burst is granted as a whole exactly when there are tokens for all of it. */
  lemma {:induction false} BurstIsGranted(c: Config, expires: bool, b: Buckets, key: string, n: nat, at: real)
    requires 0 < n
    ensures var x, calls := Level(c, expires, b, key, at), Burst(key, n, at);
            && (AllGranted(Answers(c, expires, b, calls)) <==> n as real <= x)
            && (n as real <= x ==> Final(c, expires, b, calls) == b[key := Bucket(x - n as real, at)])
    decreases n
  {
    hide Earned;
    NothingEarnedInNoTime(at, c.refill);
    var x, calls := Level(c, expires, b, key, at), Burst(key, n, at);
    var call, rest := Call(key, at), Burst(key, n - 1, at);
    assert calls[0] == call && calls[1..] == rest;
    var (b', granted) := Step(c, expires, b, call);
    var more := Answers(c, expires, b', rest);
    assert Answers(c, expires, b, calls) == [granted] + more;
    assert AllGranted([granted] + more) <==> granted && AllGranted(more) by {
      if AllGranted([granted] + more) {
        assert ([granted] + more)[0];
        forall i | 0 <= i < |more| ensures more[i] { assert ([granted] + more)[i + 1]; }
      }
    }
    if 1 < n {
      BurstIsGranted(c, expires, b', key, n - 1, at);
      if granted {
        assert Level(c, expires, b', key, at) == x - 1.0;
        assert b'[key := Bucket(x - n as real, at)] == b[key := Bucket(x - n as real, at)];
      }
    }
  }

  lemma {:induction false} AnswersAppend(c: Config, expires: bool, b: Buckets, xs: seq<Call>, ys: seq<Call>)
    ensures Answers(c, expires, b, xs + ys)
            == Answers(c, expires, b, xs) + Answers(c, expires, Final(c, expires, b, xs), ys)
    decreases |xs|
  {
    hide Step;
    if xs == [] {
      assert xs + ys == ys;
    } else {
      assert (xs + ys)[1..] == xs[1..] + ys && (xs + ys)[0] == xs[0];
      AnswersAppend(c, expires, Step(c, expires, b, xs[0]).0, xs[1..], ys);
    }
  }

  lemma BurstCalls(key: string, n: nat, at: real)
    ensures |Burst(key, n, at)| == n && forall i :: 0 <= i < n ==> Burst(key, n, at)[i] == Call(key, at)
  {
  }

  const KEY: string := "dispatch:bucket"

  /** Two full bursts, the second when an idle key has just expired. */
  function TwoBursts(n: nat): seq<Call> { Burst(KEY, n, 0.0) + Burst(KEY, n, EXPIRY) }

  lemma TwoBurstsAnswers(c: Config, expires: bool)
    requires 0.0 <= c.refill && 0 < c.capacity
    ensures AllGranted(Answers(c, expires, map[], TwoBursts(c.capacity))) <==> expires || FullAfterExpiry(c)
  {
    var n := c.capacity;
    var first, second := Burst(KEY, n, 0.0), Burst(KEY, n, EXPIRY);
    BurstIsGranted(c, expires, map[], KEY, n, 0.0);
    var drained: Buckets := map[KEY := Bucket(0.0, 0.0)];
    assert Final(c, expires, map[], first) == drained;
    AnswersAppend(c, expires, map[], first, second);
    BurstIsGranted(c, expires, drained, KEY, n, EXPIRY);
    var p, q := Answers(c, expires, map[], first), Answers(c, expires, drained, second);
    assert AllGranted(p + q) <==> AllGranted(p) && AllGranted(q) by {
      if AllGranted(p + q) {
        forall i | 0 <= i < |q| ensures q[i] { assert (p + q)[|p| + i]; }
        forall i | 0 <= i < |p| ensures p[i] { assert (p + q)[i]; }
      }
    }
  }

  /** The expiring bucket gives the same answers as one that never forgets, on every sequence of
      calls, exactly when an hour refills it from empty. */
  lemma ExpiryIsInvisibleExactlyWhenFull(c: Config)
    requires 0.0 <= c.refill
    ensures ExpiryIsInvisible(c) <==> FullAfterExpiry(c)
  {
    if FullAfterExpiry(c) {
      forall calls: seq<Call> | Ordered(calls)
        ensures Answers(c, true, map[], calls) == Answers(c, false, map[], calls)
      {
        SameAnswers(c, map[], calls, if calls == [] then 0.0 else calls[0].at);
      }
    } else {
      EarnedIsMonotone(0.0, EXPIRY, EXPIRY, c.refill);
      var calls := TwoBursts(c.capacity);
      BurstCalls(KEY, c.capacity, 0.0);
      BurstCalls(KEY, c.capacity, EXPIRY);
      assert Ordered(calls);
      TwoBurstsAnswers(c, true);
      TwoBurstsAnswers(c, false);
      assert Answers(c, true, map[], calls) != Answers(c, false, map[], calls);
    }
  }

  /** A run whose every call is for `key`, inside the interval and granted, counts as it is long. */
  lemma {:induction false} AllGrantedCount(c: Config, expires: bool, b: Buckets, calls: seq<Call>, key: string,
                                           s: real, t: real)
    requires AllGranted(Answers(c, expires, b, calls))
    requires forall i :: 0 <= i < |calls| ==> calls[i].key == key && s <= calls[i].at <= t
    ensures Grants(c, expires, b, calls, key, s, t) == |calls|
    decreases |calls|
  {
    hide Step;
    if calls != [] {
      var (b', granted) := Step(c, expires, b, calls[0]);
      var answers := Answers(c, expires, b, calls);
      assert answers[0] == granted && answers[1..] == Answers(c, expires, b', calls[1..]);
      assert forall i :: 0 <= i < |answers[1..]| ==> answers[1..][i] == answers[i + 1];
      AllGrantedCount(c, expires, b', calls[1..], key, s, t);
    }
  }

  /** No key is ever granted more than its capacity plus the refill of an interval. */
  ghost predicate SharedRateIsBounded(c: Config) {
    forall calls: seq<Call>, key, s, t :: Ordered(calls) && s <= t ==>
      Grants(c, true, map[], calls, key, s, t) as real <= c.Cap() + Earned(s, t, c.refill)
  }

  /** The bucket two processes share keeps the bound exactly when an hour refills it from empty;
      otherwise two full bursts an hour apart are granted, more than the bound allows. */
  lemma SharedRateIsBoundedExactlyWhenFull(c: Config)
    requires 0.0 <= c.refill
    ensures SharedRateIsBounded(c) <==> FullAfterExpiry(c)
  {
    hide Earned;
    if FullAfterExpiry(c) {
      forall calls: seq<Call>, key, s, t | Ordered(calls) && s <= t
        ensures Grants(c, true, map[], calls, key, s, t) as real <= c.Cap() + Earned(s, t, c.refill)
      {
        RateIsBounded(c, calls, key, s, t);
        SameGrants(c, map[], calls, if calls == [] then 0.0 else calls[0].at, key, s, t);
      }
    } else {
      EarnedIsMonotone(0.0, EXPIRY, EXPIRY, c.refill);
      var calls := TwoBursts(c.capacity);
      BurstCalls(KEY, c.capacity, 0.0);
      BurstCalls(KEY, c.capacity, EXPIRY);
      TwoBurstsAnswers(c, true);
      AllGrantedCount(c, true, map[], calls, KEY, 0.0, EXPIRY);
      assert Ordered(calls) && Grants(c, true, map[], calls, KEY, 0.0, EXPIRY) == 2 * c.capacity;
    }
  }
}
