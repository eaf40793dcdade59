/** The token bucket (libs/cost-governor/src/rate-limiter.service.ts) over exact reals. The Redis
    script is atomic, so the calls of all workers on one provider form one history of clock
    readings; the theorems below are about every such history. */
module RateLimiter {
  import opened Wrappers

  datatype Bucket = Bucket(tokens: real, last: real)

  /** A provider's allowance: up to `max` calls saved up, refilled over `window` seconds. */
  datatype Limit = Limit(max: real, window: real)
  {
    // Tokens earned over a stretch of time
    function Gain(elapsed: real): real
      requires window > 0.0
    {
      elapsed / window * max
    }
  }

  type Positive = l: Limit | l.window > 0.0 witness Limit(0.0, 1.0)

  function Min(a: real, b: real): real { if a <= b then a else b }

  function Cost(granted: bool): real { if granted then 1.0 else 0.0 }

  /* ---- The script ---- */

  // The tokens in hand at `now`, before any is taken; a missing bucket starts full.
  function Refilled(l: Positive, bucket: Option<Bucket>, now: real): real {
    match bucket
    case None => Min(l.max, l.max + l.Gain(now - now))
    case Some(b) => Min(l.max, b.tokens + l.Gain(now - b.last))
  }

  method Script(l: Positive, bucket: Option<Bucket>, now: real) returns (granted: bool, stored: Bucket)
    ensures granted == Grants(l, bucket, now)
    ensures stored == Stored(l, bucket, now)
  {
    var tokens, last;
    if bucket.Some? {
      tokens, last := bucket.value.tokens, bucket.value.last;
    } else {
      tokens, last := l.max, now;
    }
    var elapsed := now - last;
    var refill := elapsed / l.window * l.max;
    tokens := Min(l.max, tokens + refill);
    last := now;
    if tokens >= 1.0 {
      tokens := tokens - 1.0;
      return true, Bucket(tokens, last);
    } else {
      return false, Bucket(tokens, last);
    }
  }

  predicate Grants(l: Positive, bucket: Option<Bucket>, now: real) {
    Refilled(l, bucket, now) >= 1.0
  }

  function Stored(l: Positive, bucket: Option<Bucket>, now: real): Bucket {
    Bucket(Refilled(l, bucket, now) - Cost(Grants(l, bucket, now)), now)
  }

  /* ---- Histories ---- */

  // The bucket after calls at the given times, starting without one.
  function After(l: Positive, times: seq<real>): Option<Bucket> {
    if times == [] then None
    else Some(Stored(l, After(l, times[..|times| - 1]), times[|times| - 1]))
  }

  // The answer to each of these calls.
  function Answers(l: Positive, times: seq<real>): (r: seq<bool>)
    ensures |r| == |times|
  {
    if times == [] then []
    else
      var init := times[..|times| - 1];
      Answers(l, init) + [Grants(l, After(l, init), times[|times| - 1])]
  }

  // How many calls from i up to but not including k were answered yes.
  function Count(answers: seq<bool>, i: nat, k: nat): (n: nat)
    requires i <= k <= |answers|
    ensures n <= k - i
  {
    if i == k then 0 else Count(answers, i, k - 1) + if answers[k - 1] then 1 else 0
  }

  // The calls j..k, were k admitted too, stay within the saved-up allowance plus what j..k earns.
  predicate Affordable(l: Positive, times: seq<real>, answers: seq<bool>, j: nat, k: nat)
    requires j <= k < |times| == |answers|
  {
    Count(answers, j, k) as real + 1.0 <= l.max + l.Gain(times[k] - times[j])
  }

  ghost predicate AlwaysAffordable(l: Positive, times: seq<real>, answers: seq<bool>, k: nat)
    requires k < |times| == |answers|
  {
    forall j: nat :: j <= k ==> Affordable(l, times, answers, j, k)
  }

  ghost predicate Nondecreasing(times: seq<real>) {
    forall i, j :: 0 <= i <= j < |times| ==> times[i] <= times[j]
  }

  /* ---- The level of tokens under any admission policy ---- */

  // The tokens in hand at call k when the calls before it were answered as given.
  function Level(l: Positive, times: seq<real>, answers: seq<bool>, k: nat): real
    requires k < |times| == |answers|
  {
    if k == 0 then l.max
    else Min(l.max, Level(l, times, answers, k - 1) - Cost(answers[k - 1]) + l.Gain(times[k] - times[k - 1]))
  }

  lemma GainAdds(l: Positive, a: real, b: real)
    ensures l.Gain(a) + l.Gain(b) == l.Gain(a + b)
  {
    assert a / l.window + b / l.window == (a + b) / l.window;
  }

  lemma GainOfNothing(l: Positive)
    ensures l.Gain(0.0) == 0.0
  {
  }

  lemma GainMonotone(l: Positive, a: real, b: real)
    requires a <= b && l.max >= 0.0
    ensures l.Gain(a) <= l.Gain(b)
  {
    assert a / l.window <= b / l.window;
  }

  // The level is the tightest of the bounds that past calls impose.
  lemma {:induction false} LevelIsTightest(l: Positive, times: seq<real>, answers: seq<bool>, k: nat)
      returns (tight: nat)
    requires k < |times| == |answers|
    ensures tight <= k
    ensures Level(l, times, answers, k) == Slack(l, times, answers, tight, k)
    ensures forall j: nat :: j <= k ==> Level(l, times, answers, k) <= Slack(l, times, answers, j, k)
  {
    GainOfNothing(l);
    if k == 0 {
      tight := 0;
    } else {
      tight := LevelIsTightest(l, times, answers, k - 1);
      forall j: nat | j < k
        ensures Slack(l, times, answers, j, k) ==
          Slack(l, times, answers, j, k - 1) - Cost(answers[k - 1]) + l.Gain(times[k] - times[k - 1])
      {
        GainAdds(l, times[k - 1] - times[j], times[k] - times[k - 1]);
      }
      if Level(l, times, answers, k) == l.max {
        tight := k;
      }
    }
  }

  function Slack(l: Positive, times: seq<real>, answers: seq<bool>, j: nat, k: nat): real
    requires j <= k < |times| == |answers|
  {
    l.max + l.Gain(times[k] - times[j]) - Count(answers, j, k) as real
  }

  // The script keeps the level of its own answers.
  lemma {:induction false} ScriptKeepsLevel(l: Positive, times: seq<real>, k: nat)
    requires k < |times|
    ensures Refilled(l, After(l, times[..k]), times[k]) == Level(l, times, Answers(l, times), k)
    ensures Answers(l, times)[k] <==> Level(l, times, Answers(l, times), k) >= 1.0
  {
    AnswerAt(l, times, k);
    if k == 0 {
      GainOfNothing(l);
    } else {
      ScriptKeepsLevel(l, times, k - 1);
      AnswerAt(l, times, k - 1);
    }
  }

  lemma AnswerAt(l: Positive, times: seq<real>, k: nat)
    requires k < |times|
    ensures Answers(l, times)[k] == Grants(l, After(l, times[..k]), times[k])
    ensures After(l, times[..k + 1]) == Some(Stored(l, After(l, times[..k]), times[k]))
  {
    AnswersPrefix(l, times, k + 1);
    assert times[..k + 1][..k] == times[..k];
    assert Answers(l, times[..k + 1])[k] == Answers(l, times)[k];
  }

  // Answers do not depend on later calls.
  lemma {:induction false} AnswersPrefix(l: Positive, times: seq<real>, k: nat)
    requires k <= |times|
    ensures Answers(l, times[..k]) == Answers(l, times)[..k]
  {
    if k < |times| {
      var init := times[..|times| - 1];
      AnswersPrefix(l, init, k);
      assert init[..k] == times[..k];
    } else {
      assert times[..k] == times;
    }
  }

  /* ---- The theorems ---- */

  /** Call k is granted exactly when no stretch of the history ending in it would exceed the
      saved-up allowance plus what the stretch earned. This holds for any clock, even one that
      runs backwards. */
  lemma GrantedExactlyWhen(l: Positive, times: seq<real>, k: nat)
    requires k < |times|
    ensures Answers(l, times)[k] <==> AlwaysAffordable(l, times, Answers(l, times), k)
  {
    var answers := Answers(l, times);
    ScriptKeepsLevel(l, times, k);
    var tight := LevelIsTightest(l, times, answers, k);
    forall j: nat | j <= k
      ensures Affordable(l, times, answers, j, k) <==> Slack(l, times, answers, j, k) >= 1.0
    {
    }
    if AlwaysAffordable(l, times, answers, k) {
      assert Affordable(l, times, answers, tight, k);
    }
  }

  /** Any stretch of calls i..k admits at most max plus what the elapsed time earns. */
  lemma {:induction false} IntervalBound(l: Positive, times: seq<real>, i: nat, k: nat)
    requires i <= k < |times| && Nondecreasing(times)
    ensures var n := Count(Answers(l, times), i, k + 1);
      n == 0 || n as real <= l.max + l.Gain(times[k] - times[i])
  {
    var answers := Answers(l, times);
    if answers[k] {
      GrantedExactlyWhen(l, times, k);
      assert Affordable(l, times, answers, i, k);
    } else if i < k {
      IntervalBound(l, times, i, k - 1);
      if Count(answers, i, k) > 0 {
        GrantNeedsAToken(l, times, i, k);
        GainMonotone(l, times[k - 1] - times[i], times[k] - times[i]);
      }
    }
  }

  lemma {:induction false} GrantNeedsAToken(l: Positive, times: seq<real>, i: nat, k: nat)
    requires i <= k <= |times| && Count(Answers(l, times), i, k) > 0
    ensures l.max >= 1.0
  {
    if Answers(l, times)[k - 1] {
      ScriptKeepsLevel(l, times, k - 1);
    } else {
      GrantNeedsAToken(l, times, i, k - 1);
    }
  }

  /** With a limit below one call nothing is ever granted, so waitForToken would never return. */
  lemma NothingBelowOne(l: Positive, times: seq<real>, k: nat)
    requires l.max < 1.0 && k < |times|
    ensures !Answers(l, times)[k]
  {
  }

  // A policy that never exceeds the allowance over any stretch ending in an admitted call.
  ghost predicate Respects(l: Positive, times: seq<real>, policy: seq<bool>)
    requires |times| == |policy|
  {
    forall k: nat :: k < |times| && policy[k] ==> AlwaysAffordable(l, times, policy, k)
  }

  /** The bucket is the most generous policy that keeps the interval bound: up to every call it
      has admitted at least as many as any other such policy, knowing the future or not. */
  lemma MostGenerous(l: Positive, times: seq<real>, policy: seq<bool>, k: nat)
    requires |times| == |policy| && Respects(l, times, policy) && k <= |times|
    ensures Respects(l, times, Answers(l, times))
    ensures Count(policy, 0, k) <= Count(Answers(l, times), 0, k)
  {
    var answers := Answers(l, times);
    forall j: nat | j < |times| && answers[j] ensures AlwaysAffordable(l, times, answers, j) {
      GrantedExactlyWhen(l, times, j);
    }
    if k < |times| {
      BucketIsAhead(l, times, policy, k);
    } else if k > 0 {
      BucketIsAhead(l, times, policy, k - 1);
      StaysAhead(l, times, policy, k - 1);
    }
  }

  // The bucket has admitted as much, and admitted plus saved as much, as the policy.
  lemma {:induction false} BucketIsAhead(l: Positive, times: seq<real>, policy: seq<bool>, k: nat)
    requires k < |times| == |policy| && Respects(l, times, policy)
    ensures var answers := Answers(l, times);
      && Count(policy, 0, k) <= Count(answers, 0, k)
      && Count(policy, 0, k) as real + Level(l, times, policy, k)
           <= Count(answers, 0, k) as real + Level(l, times, answers, k)
  {
    if k > 0 {
      BucketIsAhead(l, times, policy, k - 1);
      StaysAhead(l, times, policy, k - 1);
    }
  }

  lemma StaysAhead(l: Positive, times: seq<real>, policy: seq<bool>, k: nat)
    requires k < |times| == |policy| && Respects(l, times, policy)
    requires var answers := Answers(l, times);
      && Count(policy, 0, k) <= Count(answers, 0, k)
      && Count(policy, 0, k) as real + Level(l, times, policy, k)
           <= Count(answers, 0, k) as real + Level(l, times, answers, k)
    ensures Count(policy, 0, k + 1) <= Count(Answers(l, times), 0, k + 1)
  {
    ScriptKeepsLevel(l, times, k);
    if policy[k] && !Answers(l, times)[k] {
      assert AlwaysAffordable(l, times, policy, k);
      var tight := LevelIsTightest(l, times, policy, k);
      assert Affordable(l, times, policy, tight, k);
    }
  }

  /* ---- Stored tokens and key expiry ---- */

  ghost predicate InRange(l: Positive, b: Bucket) {
    0.0 <= b.tokens <= l.max
  }

  // No stored bucket is ever overdrawn or overfull while the clock does not run backwards.
  lemma StoredInRange(l: Positive, bucket: Option<Bucket>, now: real)
    requires l.max >= 0.0
    requires bucket.Some? ==> InRange(l, bucket.value) && bucket.value.last <= now
    ensures InRange(l, Stored(l, bucket, now))
    ensures 0.0 <= Stored(l, bucket, now).tokens <= l.max
  {
    GainOfNothing(l);
    if bucket.Some? {
      GainMonotone(l, 0.0, now - bucket.value.last);
    }
  }

  // The bucket after calls some of which found the key expired.
  function AfterDrops(l: Positive, times: seq<real>, drops: seq<bool>): Option<Bucket>
    requires |times| == |drops|
  {
    if times == [] then None
    else
      var k := |times| - 1;
      var found := if drops[k] then None else AfterDrops(l, times[..k], drops[..k]);
      Some(Stored(l, found, times[k]))
  }

  // What call k finds in Redis.
  function Found(l: Positive, times: seq<real>, drops: seq<bool>, k: nat): Option<Bucket>
    requires k < |times| == |drops|
  {
    if drops[k] then None else AfterDrops(l, times[..k], drops[..k])
  }

  // EXPIRE window * 2 follows every write. The results hold for any expiry of at least one window.
  ghost predicate DropsWhenIdle(l: Positive, times: seq<real>, drops: seq<bool>)
    requires |times| == |drops|
  {
    forall k :: 0 < k < |times| && drops[k] ==> times[k] - times[k - 1] >= l.window
  }

  // A pause of one window fills any bucket.
  lemma IdleFills(l: Positive, b: Bucket, now: real)
    requires l.max >= 0.0 && b.tokens >= 0.0 && now - b.last >= l.window
    ensures Refilled(l, Some(b), now) == l.max == Refilled(l, None, now)
  {
    GainOfNothing(l);
    GainMonotone(l, l.window, now - b.last);
    assert l.window / l.window == 1.0;
  }

  /** One window is the least expiry that no bucket can notice; the script's two windows are safe. */
  lemma InvisibleExactlyWhen(l: Positive, pause: real)
    requires l.max > 0.0
    ensures (forall b :: InRange(l, b) ==> Refilled(l, Some(b), b.last + pause) == Refilled(l, None, b.last + pause))
      <==> pause >= l.window
    ensures var times := [0.0, pause]; DropsWhenIdle(l, times, [false, true]) <==> pause >= l.window
  {
    GainOfNothing(l);
    var times, drops := [0.0, pause], [false, true];
    assert drops[1] && times[1] - times[0] == pause;
    if pause >= l.window {
      forall b | InRange(l, b) ensures Refilled(l, Some(b), b.last + pause) == Refilled(l, None, b.last + pause) {
        IdleFills(l, b, b.last + pause);
      }
    } else {
      var b := Bucket(0.0, 0.0);
      ShortPauseShows(l, pause);
      assert InRange(l, b) && Refilled(l, Some(b), b.last + pause) != Refilled(l, None, b.last + pause);
    }
  }

  lemma ShortPauseShows(l: Positive, pause: real)
    requires l.max > 0.0 && pause < l.window
    ensures l.Gain(pause) < l.max
  {
    var part := pause / l.window;
    assert part < 1.0;
    assert (1.0 - part) * l.max > 0.0;
  }

  /** Expiry is invisible: a service whose idle buckets expire stores the same bucket after every
      history as one whose buckets never do. */
  lemma {:induction false} ExpiryIsInvisible(l: Positive, times: seq<real>, drops: seq<bool>)
    requires l.max >= 0.0 && |times| == |drops|
    requires Nondecreasing(times) && DropsWhenIdle(l, times, drops)
    ensures AfterDrops(l, times, drops) == After(l, times)
    ensures times != [] ==> InRange(l, After(l, times).value) && After(l, times).value.last == times[|times| - 1]
  {
    if times != [] {
      var k := |times| - 1;
      ExpiryIsInvisible(l, times[..k], drops[..k]);
      var before := After(l, times[..k]);
      StoredInRange(l, before, times[k]);
      if drops[k] && k > 0 {
        assert before.value.last == times[k - 1];
        IdleFills(l, before.value, times[k]);
      }
    }
  }

  /** Nor does it change any answer, whatever the limit. */
  lemma ExpiryChangesNoAnswer(l: Positive, times: seq<real>, drops: seq<bool>, k: nat)
    requires k < |times| == |drops| && Nondecreasing(times) && DropsWhenIdle(l, times, drops)
    ensures Grants(l, Found(l, times, drops, k), times[k]) == Answers(l, times)[k]
  {
    ScriptKeepsLevel(l, times, k);
    if l.max >= 0.0 {
      ExpiryIsInvisible(l, times[..k], drops[..k]);
      if drops[k] && k > 0 {
        assert times[..k][k - 1] == times[k - 1];
        IdleFills(l, After(l, times[..k]).value, times[k]);
      } else if drops[k] {
        assert times[..k] == [];
      }
    }
  }

  /* ---- The service ---- */

  const WINDOW_SECONDS: real := 60.0
  const DEFAULT_LIMIT: int := 999

  datatype Call = Call(provider: string, now: real)

  function BucketOf(buckets: map<string, Bucket>, provider: string): Option<Bucket> {
    if provider in buckets then Some(buckets[provider]) else None
  }

  function LimitFor(limits: map<string, int>, provider: string): Positive {
    Limit((if provider in limits then limits[provider] else DEFAULT_LIMIT) as real, WINDOW_SECONDS)
  }

  // The buckets after a history of calls.
  function BucketsAfter(limits: map<string, int>, calls: seq<Call>): map<string, Bucket> {
    if calls == [] then map[]
    else
      var buckets, c := BucketsAfter(limits, calls[..|calls| - 1]), calls[|calls| - 1];
      buckets[c.provider := Stored(LimitFor(limits, c.provider), BucketOf(buckets, c.provider), c.now)]
  }

  // The answer to the last call of a history.
  function LastAnswer(limits: map<string, int>, calls: seq<Call>): bool
    requires calls != []
  {
    var c := calls[|calls| - 1];
    Grants(LimitFor(limits, c.provider), BucketOf(BucketsAfter(limits, calls[..|calls| - 1]), c.provider), c.now)
  }

  // When one provider was called.
  function TimesOf(calls: seq<Call>, provider: string): seq<real> {
    if calls == [] then []
    else
      var c := calls[|calls| - 1];
      TimesOf(calls[..|calls| - 1], provider) + if c.provider == provider then [c.now] else []
  }

  // How those calls were answered.
  function AnswersOf(limits: map<string, int>, calls: seq<Call>, provider: string): (r: seq<bool>)
    ensures |r| == |TimesOf(calls, provider)|
  {
    if calls == [] then []
    else
      var c := calls[|calls| - 1];
      AnswersOf(limits, calls[..|calls| - 1], provider) + if c.provider == provider then [LastAnswer(limits, calls)] else []
  }

  // Calls to other providers make no difference.
  lemma {:induction false} ProvidersAreIndependent(limits: map<string, int>, calls: seq<Call>, provider: string)
    ensures var l, times := LimitFor(limits, provider), TimesOf(calls, provider);
      && BucketOf(BucketsAfter(limits, calls), provider) == After(l, times)
      && AnswersOf(limits, calls, provider) == Answers(l, times)
  {
    if calls != [] {
      var init, c := calls[..|calls| - 1], calls[|calls| - 1];
      ProvidersAreIndependent(limits, init, provider);
      if c.provider == provider {
        var l, times, before := LimitFor(limits, provider), TimesOf(calls, provider), TimesOf(init, provider);
        assert times == before + [c.now] && times[..|times| - 1] == before;
        assert LastAnswer(limits, calls) == Grants(l, After(l, before), c.now);
        assert Answers(l, times) == Answers(l, before) + [Grants(l, After(l, before), c.now)];
      } else {
        assert TimesOf(calls, provider) == TimesOf(init, provider);
        assert AnswersOf(limits, calls, provider) == AnswersOf(limits, init, provider);
      }
    }
  }

  function PerMinute(m: int): Positive { Limit(m as real, 60.0) }

  // n calls are within what m a minute allow over so many seconds.
  predicate Within(m: int, n: nat, seconds: real) {
    n == 0 || n as real <= m as real + seconds / 60.0 * m as real
  }

  lemma WithinPerMinute(m: int, n: nat, seconds: real)
    requires n == 0 || n as real <= PerMinute(m).max + PerMinute(m).Gain(seconds)
    ensures Within(m, n, seconds)
  {
  }

  /** The configured limit holds, per provider: any stretch of calls i..k to it grants at most its
      requests per minute, 999 where none are configured, plus a sixtieth of that per second. */
  lemma ConfiguredLimitHolds(limits: map<string, int>, calls: seq<Call>, provider: string, i: nat, k: nat)
    requires i <= k < |TimesOf(calls, provider)| && Nondecreasing(TimesOf(calls, provider))
    ensures var m := if provider in limits then limits[provider] else 999;
      var times := TimesOf(calls, provider);
      Within(m, Count(AnswersOf(limits, calls, provider), i, k + 1), times[k] - times[i])
  {
    var m := if provider in limits then limits[provider] else 999;
    ProvidersAreIndependent(limits, calls, provider);
    assert LimitFor(limits, provider) == PerMinute(m);
    var times := TimesOf(calls, provider);
    IntervalBound(PerMinute(m), times, i, k);
    WithinPerMinute(m, Count(Answers(PerMinute(m), times), i, k + 1), times[k] - times[i]);
  }

  // All calls to the provider happen at one instant.
  ghost predicate Burst(times: seq<real>) {
    forall i, j :: 0 <= i < |times| && 0 <= j < |times| ==> times[i] == times[j]
  }

  lemma {:induction false} BurstLevel(l: Positive, times: seq<real>, answers: seq<bool>, k: nat)
    requires Burst(times) && k < |times| == |answers|
    ensures Level(l, times, answers, k) == l.max - Count(answers, 0, k) as real
  {
    if k > 0 {
      BurstLevel(l, times, answers, k - 1);
      GainOfNothing(l);
      assert times[k] - times[k - 1] == 0.0;
    }
  }

  lemma BurstAnswer(m: int, times: seq<real>, k: nat)
    requires Burst(times) && k < |times|
    ensures Answers(PerMinute(m), times)[k] <==> Count(Answers(PerMinute(m), times), 0, k) < m
  {
    BurstLevel(PerMinute(m), times, Answers(PerMinute(m), times), k);
    ScriptKeepsLevel(PerMinute(m), times, k);
  }

  lemma {:induction false} BurstCount(m: int, times: seq<real>, k: nat)
    requires Burst(times) && k <= |times|
    ensures Count(Answers(PerMinute(m), times), 0, k) == if k <= m then k else if m >= 0 then m else 0
  {
    if k > 0 {
      BurstCount(m, times, k - 1);
      BurstAnswer(m, times, k - 1);
    }
  }

  /** Of a burst on an unused provider exactly the first m calls are granted, m being its limit. */
  lemma BurstGrantsTheLimit(limits: map<string, int>, calls: seq<Call>, provider: string, k: nat)
    requires k < |TimesOf(calls, provider)| && Burst(TimesOf(calls, provider))
    ensures Nondecreasing(TimesOf(calls, provider))
    ensures AnswersOf(limits, calls, provider)[k] <==> k < if provider in limits then limits[provider] else 999
  {
    var m := if provider in limits then limits[provider] else 999;
    ProvidersAreIndependent(limits, calls, provider);
    assert LimitFor(limits, provider) == PerMinute(m);
    BurstCount(m, TimesOf(calls, provider), k);
    BurstAnswer(m, TimesOf(calls, provider), k);
  }

  class RateLimiterService {
    const limits: map<string, int>
    var buckets: map<string, Bucket>
    ghost var calls: seq<Call>

    ghost predicate Valid()
      reads this
    {
      buckets == BucketsAfter(limits, calls)
    }

    constructor (limits: map<string, int>)
      ensures this.limits == limits && calls == [] && Valid()
    {
      this.limits := limits;
      buckets := map[];
      calls := [];
    }

    /** One call: it touches its own provider's bucket only, and is answered as the history of
        calls demands. */
    method Acquire(provider: string, now: real) returns (granted: bool)
      requires Valid()
      modifies this
      ensures Valid() && calls == old(calls) + [Call(provider, now)]
      ensures granted == LastAnswer(limits, calls)
      ensures granted == Grants(LimitFor(limits, provider), BucketOf(old(buckets), provider), now)
      ensures buckets == old(buckets)[provider := Stored(LimitFor(limits, provider), BucketOf(old(buckets), provider), now)]
    {
      var stored;
      granted, stored := Script(LimitFor(limits, provider), BucketOf(buckets, provider), now);
      buckets := buckets[provider := stored];
      calls := calls + [Call(provider, now)];
      assert calls[..|calls| - 1] == old(calls);
    }

    /** A sole consumer polling through waitForToken returns at the first call that is granted,
        after a bounded number of one-second sleeps: at most 60 / limit of them, rounded up.
        `clock[i]` is the reading at the i-th call; no sleep separates the first two. */
    method WaitForToken(provider: string, clock: Clock) returns (sleeps: nat)
      requires Valid()
      requires LimitFor(limits, provider).max >= 1.0
      requires StartsWithin(LimitFor(limits, provider), BucketOf(buckets, provider), clock) && SleepsBetween(clock)
      modifies this
      ensures Valid()
      ensures sleeps > 0 ==> TooShort(LimitFor(limits, provider), sleeps - 1)
      ensures
        var l, start := LimitFor(limits, provider), BucketOf(old(buckets), provider);
        var calls := if Grants(l, start, clock[0]) then 1 else sleeps + 2;
        && FirstGrant(l, start, clock, calls - 1)
        && BucketOf(buckets, provider) == Polled(l, start, clock, calls)
      ensures forall p :: p in old(buckets) && p != provider ==> p in buckets && buckets[p] == old(buckets)[p]
    {
      sleeps := 0;
      ghost var l, start := LimitFor(limits, provider), BucketOf(buckets, provider);
      var granted := Acquire(provider, clock[0]);
      assert BucketOf(buckets, provider) == Polled(l, start, clock, 1);
      if granted {
        return;
      }
      granted := Acquire(provider, clock[1]);
      assert BucketOf(buckets, provider) == Polled(l, start, clock, 2);
      while !granted
        invariant Valid()
        invariant BucketOf(buckets, provider) == Polled(l, start, clock, sleeps + 2)
        invariant Refusals(l, start, clock, sleeps + 1)
        invariant granted == GrantAt(l, start, clock, sleeps + 1)
        invariant sleeps > 0 ==> TooShort(l, sleeps - 1)
        invariant forall p :: p in old(buckets) && p != provider ==> p in buckets && buckets[p] == old(buckets)[p]
        decreases !granted, 60 - sleeps
      {
        assert Refusals(l, start, clock, sleeps + 2);
        RefusedTooShort(l, start, clock, sleeps);
        sleeps := sleeps + 1;
        granted := Acquire(provider, clock[sleeps + 1]);
      }
    }
  }

  // The readings of a clock at successive calls.
  type Clock = c: imap<nat, real> | forall i: nat :: i in c ghost witness imap i: nat :: 0.0

  // Readings of a lone waiter that starts at t and sleeps exactly one second at a time: there is
  // no sleep between its first two calls.
  ghost function EverySecond(t: real): Clock {
    imap i: nat :: AfterSleeps(t, i)
  }

  function AfterSleeps(t: real, i: nat): real {
    if i == 0 then t else t + (i - 1) as real
  }

  // A clock that advances at least a second between calls, from the second call on.
  ghost predicate SleepsBetween(clock: Clock) {
    clock[0] <= clock[1] && forall i: nat :: i >= 1 ==> clock[i] + 1.0 <= clock[i + 1]
  }

  // The stored bucket, if any, was written before the first call.
  predicate StartsWithin(l: Positive, start: Option<Bucket>, clock: Clock) {
    start.Some? ==> 0.0 <= start.value.tokens <= l.max && start.value.last <= clock[0]
  }

  // Sleeping this many seconds does not earn a whole token.
  predicate TooShort(l: Positive, seconds: nat) {
    seconds as real * l.max < l.window
  }

  // Two calls and `s` more, each after a sleep and all refused: the sleeps were too short.
  lemma RefusedTooShort(l: Positive, start: Option<Bucket>, clock: Clock, s: nat)
    requires l.max >= 1.0 && StartsWithin(l, start, clock) && SleepsBetween(clock)
    requires Refusals(l, start, clock, s + 2)
    ensures TooShort(l, s) && s as real < l.window
  {
    RefusalsSaveUp(l, start, clock, s);
    TooShortExactly(l, s);
    ShorterThanWindow(l, s);
  }

  lemma ShorterThanWindow(l: Positive, s: nat)
    requires l.max >= 1.0 && TooShort(l, s)
    ensures s as real < l.window
  {
    assert s as real * (l.max - 1.0) >= 0.0;
  }

  // Refused calls leave everything the sleeps earned in the bucket.
  lemma {:induction false} RefusalsSaveUp(l: Positive, start: Option<Bucket>, clock: Clock, s: nat)
    requires l.max >= 1.0 && StartsWithin(l, start, clock) && SleepsBetween(clock)
    requires Refusals(l, start, clock, s + 2)
    ensures var b := Polled(l, start, clock, s + 2).value;
      b.last == clock[s + 1] && l.Gain(s as real) <= b.tokens < 1.0
  {
    if s == 0 {
      var b := Polled(l, start, clock, 1);
      assert Polled(l, start, clock, 0) == start;
      StoredInRange(l, start, clock[0]);
      GainOfNothing(l);
      assert !GrantAt(l, start, clock, 1);
      StoredInRange(l, b, clock[1]);
    } else {
      RefusalsSaveUp(l, start, clock, s - 1);
      var b := Polled(l, start, clock, s + 1);
      assert !GrantAt(l, start, clock, s + 1);
      RefusalSavesUp(l, b.value, clock[s + 1], s - 1);
    }
  }

  lemma RefusalSavesUp(l: Positive, b: Bucket, now: real, s: nat)
    requires l.max >= 1.0 && l.Gain(s as real) <= b.tokens && now - b.last >= 1.0
    requires !Grants(l, Some(b), now)
    ensures l.Gain((s + 1) as real) <= Stored(l, Some(b), now).tokens < 1.0
  {
    GainAdds(l, s as real, 1.0);
    GainMonotone(l, 1.0, now - b.last);
  }

  lemma TooShortExactly(l: Positive, seconds: nat)
    ensures TooShort(l, seconds) <==> l.Gain(seconds as real) < 1.0
  {
    var earned := seconds as real / l.window;
    EarnedBelow(l, seconds as real, earned, earned * l.max, seconds as real * l.max);
  }

  lemma EarnedBelow(l: Positive, s: real, y: real, z: real, p: real)
    requires y * l.window == s && z == y * l.max && p == s * l.max
    ensures p < l.window <==> z < 1.0
  {
    assert z * l.window == p by { assert z * l.window == y * l.window * l.max; }
    if z < 1.0 { assert (1.0 - z) * l.window > 0.0; }
    if z >= 1.0 { assert (z - 1.0) * l.window >= 0.0; }
  }

  // The bucket after calls at the first n readings of the clock.
  function Polled(l: Positive, start: Option<Bucket>, clock: Clock, n: nat): Option<Bucket> {
    if n == 0 then start
    else Some(Stored(l, Polled(l, start, clock, n - 1), clock[n - 1]))
  }

  // Call k is the first to be granted.
  ghost predicate FirstGrant(l: Positive, start: Option<Bucket>, clock: Clock, k: nat) {
    GrantAt(l, start, clock, k) && Refusals(l, start, clock, k)
  }

  predicate GrantAt(l: Positive, start: Option<Bucket>, clock: Clock, i: nat) {
    Grants(l, Polled(l, start, clock, i), clock[i])
  }

  ghost predicate Refusals(l: Positive, start: Option<Bucket>, clock: Clock, n: nat) {
    forall i: nat :: i < n ==> !GrantAt(l, start, clock, i)
  }

  // A call on a bucket that holds x seconds' earnings, y seconds later.
  lemma SaveUp(l: Positive, last: real, x: nat, y: nat)
    requires l.max >= 1.0
    ensures var b, now := Some(Bucket(l.Gain(x as real), last)), last + y as real;
      && Refilled(l, b, now) == Min(l.max, l.Gain((x + y) as real))
      && (Grants(l, b, now) <==> !TooShort(l, x + y))
      && (TooShort(l, x + y) ==> Stored(l, b, now) == Bucket(l.Gain((x + y) as real), now))
  {
    GainAdds(l, x as real, y as real);
    TooShortExactly(l, x + y);
  }

  // The lone waiter's bucket before call s + 1, when all calls up to s were refused.
  lemma {:induction false} LoneWait(l: Positive, t: real, s: nat)
    requires l.max >= 1.0 && (s > 0 ==> TooShort(l, s - 1))
    ensures var start, clock := Some(Bucket(0.0, t)), EverySecond(t);
      && Polled(l, start, clock, s + 1) == Some(Bucket(l.Gain((if s == 0 then 0 else s - 1) as real), clock[s]))
      && Refusals(l, start, clock, s + 1)
  {
    var start, clock := Some(Bucket(0.0, t)), EverySecond(t);
    GainOfNothing(l);
    if s == 0 {
      SaveUp(l, t, 0, 0);
      assert Polled(l, start, clock, 0) == start;
    } else {
      if s > 1 { Shorter(l, s - 2); }
      LoneWait(l, t, s - 1);
      SaveUp(l, clock[s - 1], if s == 1 then 0 else s - 2, if s == 1 then 0 else 1);
    }
  }

  lemma Shorter(l: Positive, s: nat)
    requires l.max >= 1.0 && TooShort(l, s + 1)
    ensures TooShort(l, s)
  {
    assert (s + 1) as real * l.max == s as real * l.max + l.max;
  }

  /** The bound is exact: a consumer that finds an empty bucket and sleeps exactly a second at a
      time is refused until the seconds slept earn a token, and is granted at that call. */
  lemma WaitIsExact(l: Positive, t: real, s: nat)
    requires l.max >= 1.0 && (s > 0 ==> TooShort(l, s - 1))
    ensures var start, clock := Some(Bucket(0.0, t)), EverySecond(t);
      && StartsWithin(l, start, clock) && SleepsBetween(clock)
      && Refilled(l, Polled(l, start, clock, s + 1), clock[s + 1]) == Min(l.max, l.Gain(s as real))
      && (FirstGrant(l, start, clock, s + 1) <==> !TooShort(l, s))
  {
    LoneWait(l, t, s);
    SaveUp(l, EverySecond(t)[s], if s == 0 then 0 else s - 1, if s == 0 then 0 else 1);
  }

  lemma {:induction false} FirstOfGranted(l: Positive, start: Option<Bucket>, clock: Clock, n: nat) returns (k: nat)
    requires !Refusals(l, start, clock, n)
    ensures FirstGrant(l, start, clock, k)
  {
    if Refusals(l, start, clock, n - 1) {
      k := n - 1;
      assert GrantAt(l, start, clock, k);
    } else {
      k := FirstOfGranted(l, start, clock, n - 1);
    }
  }

  /** A lone waiter ever gets a token exactly when the limit is at least one. */
  lemma WaitReturnsExactlyWhen(l: Positive, start: Option<Bucket>, clock: Clock)
    requires StartsWithin(l, start, clock) && SleepsBetween(clock)
    ensures (exists k: nat :: FirstGrant(l, start, clock, k)) <==> l.max >= 1.0
  {
    if l.max >= 1.0 {
      var k := WaitReturns(l, start, clock);
    }
  }

  lemma WaitReturns(l: Positive, start: Option<Bucket>, clock: Clock) returns (k: nat)
    requires l.max >= 1.0 && StartsWithin(l, start, clock) && SleepsBetween(clock)
    ensures FirstGrant(l, start, clock, k)
  {
    var s: nat := l.window.Floor + 1;
    SomeGrant(l, start, clock, s);
    k := FirstOfGranted(l, start, clock, s + 2);
  }

  lemma SomeGrant(l: Positive, start: Option<Bucket>, clock: Clock, s: nat)
    requires l.max >= 1.0 && StartsWithin(l, start, clock) && SleepsBetween(clock) && s as real >= l.window
    ensures !Refusals(l, start, clock, s + 2)
  {
    if Refusals(l, start, clock, s + 2) {
      RefusedTooShort(l, start, clock, s);
    }
  }

  /* ---- Waiting among competitors ---- */

  // The bucket after n further calls at one instant.
  function Drained(l: Positive, start: Option<Bucket>, now: real, n: nat): Option<Bucket> {
    if n == 0 then start else Some(Stored(l, Drained(l, start, now, n - 1), now))
  }

  // The bucket after n rounds, in each of which others call c times just before the waiter does.
  function Contended(l: Positive, start: Option<Bucket>, clock: Clock, c: nat, n: nat): Option<Bucket> {
    if n == 0 then start
    else Some(Stored(l, Drained(l, Contended(l, start, clock, c, n - 1), clock[n - 1], c), clock[n - 1]))
  }

  lemma {:induction false} DrainedIsShort(l: Positive, start: Option<Bucket>, now: real, n: nat)
    requires n > 0
    ensures var left := Refilled(l, Drained(l, start, now, n), now);
      left < 1.0 || left <= l.max - n as real
  {
    GainOfNothing(l);
    if n > 1 {
      DrainedIsShort(l, start, now, n - 1);
    }
  }

  /** With competitors there is no bound: if others can make as many calls as the limit just
      before each of the waiter's, the waiter is refused every time, whatever the clock. */
  lemma CompetitorsCanStarve(l: Positive, start: Option<Bucket>, clock: Clock, c: nat, n: nat)
    requires c > 0 && c as real >= l.max
    ensures !Grants(l, Drained(l, Contended(l, start, clock, c, n), clock[n], c), clock[n])
  {
    DrainedIsShort(l, Contended(l, start, clock, c, n), clock[n], c);
  }
}
