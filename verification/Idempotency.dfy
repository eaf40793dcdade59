/** Requests racing on an idempotency key (libs/idempotency/src/idempotency.service.ts and
    apps/api/src/tasks/interceptors/idempotency.interceptor.ts). Each Redis command and each
    handler run is one step; requests interleave freely, and one that crashes simply stops. */
module Idempotency {
  import opened Wrappers

  type Key = string
  type Json = string

  datatype Entry = Processing | Completed(response: Json)

  // Where a request stands in the interceptor.
  datatype Stage =
    | Arrived
    | Refused                   // SET NX found the key taken
    | Handling                  // the route handler runs
    | Answered(response: Json)  // the response was emitted; complete() has not stored it yet
    | Stored(response: Json)    // complete() has stored it
    | Threw(reason: string)     // the handler failed
    | Conflicted                // 409: already being processed
    | Replayed(response: Json)  // answered from the stored entry

  // A missing or empty header is the empty key.
  datatype Request = Request(key: Key, stage: Stage)

  datatype State = State(entries: map<Key, Entry>, requests: seq<Request>)

  datatype Event =
    | Arrive(key: Key)
    | Step(i: nat, outcome: Result<Json, string>)   // the outcome is read only where the handler ends
    | Expire(key: Key)

  const START := State(map[], [])

  // The next command of a request: the entries and the stage it leaves.
  function Move(entries: map<Key, Entry>, r: Request, outcome: Result<Json, string>): Option<(map<Key, Entry>, Stage)> {
    match r.stage
    case Arrived =>
      if r.key == "" then Some((entries, Handling))
      else if r.key in entries then Some((entries, Refused))
      else Some((entries[r.key := Processing], Handling))
    case Refused =>
      if r.key !in entries then Some((entries, Handling))
      else
        match entries[r.key] {
          case Processing => Some((entries, Conflicted))
          case Completed(response) => Some((entries, Replayed(response)))
        }
    case Handling =>
      match outcome {
        case Success(response) => Some((entries, Answered(response)))
        case Failure(reason) => Some((entries, Threw(reason)))
      }
    case Answered(response) =>
      if r.key == "" then None else Some((entries[r.key := Completed(response)], Stored(response)))
    case _ => None
  }

  predicate Enabled(s: State, e: Event) {
    match e
    case Arrive(_) => true
    case Step(i, outcome) => i < |s.requests| && Move(s.entries, s.requests[i], outcome).Some?
    case Expire(key) => key in s.entries
  }

  function Next(s: State, e: Event): State
    requires Enabled(s, e)
  {
    match e
    case Arrive(key) => s.(requests := s.requests + [Request(key, Arrived)])
    case Step(i, outcome) =>
      var (entries, stage) := Move(s.entries, s.requests[i], outcome).value;
      State(entries, s.requests[i := s.requests[i].(stage := stage)])
    case Expire(key) => s.(entries := s.entries - {key})
  }

  ghost predicate Trace(s: State, events: seq<Event>, t: State)
    decreases |events|
  {
    if events == [] then s == t
    else Enabled(s, events[0]) && Trace(Next(s, events[0]), events[1..], t)
  }

  // Some interleaving in which this key does not expire leads from s to t.
  ghost predicate LeadsKeeping(k: Key, s: State, t: State) {
    exists events :: Expire(k) !in events && Trace(s, events, t)
  }

  /* ---- What every interleaving keeps ---- */

  predicate HandlerRan(stage: Stage) {
    stage.Handling? || stage.Answered? || stage.Stored? || stage.Threw?
  }

  // Request i is one that executed the handler under key k.
  predicate Executes(s: State, k: Key, i: nat) {
    i < |s.requests| && s.requests[i].key == k && HandlerRan(s.requests[i].stage)
  }

  // The entry matches where the executing request stands.
  predicate EntryOf(entry: Entry, stage: Stage) {
    match entry
    case Processing => stage.Handling? || stage.Answered? || stage.Threw?
    case Completed(response) => stage == Stored(response)
  }

  // What a request that found the key taken may conclude from the entry.
  predicate Follows(entry: Entry, stage: Stage) {
    stage.Replayed? ==> entry == Completed(stage.response)
  }

  ghost predicate Inv(k: Key, s: State) {
    && (forall i: nat, j: nat :: Executes(s, k, i) && Executes(s, k, j) ==> i == j)
    && (k in s.entries <==> exists i: nat :: Executes(s, k, i))
    && (forall i: nat :: Executes(s, k, i) && k in s.entries ==> EntryOf(s.entries[k], s.requests[i].stage))
    && (forall i :: 0 <= i < |s.requests| && s.requests[i].key == k && !s.requests[i].stage.Arrived? ==>
          k in s.entries && Follows(s.entries[k], s.requests[i].stage))
  }

  lemma StepKeepsInv(k: Key, s: State, e: Event)
    requires k != "" && Inv(k, s) && Enabled(s, e) && e != Expire(k)
    ensures Inv(k, Next(s, e))
  {
    var t := Next(s, e);
    match e
    case Arrive(_) =>
      assert forall i: nat :: Executes(t, k, i) <==> Executes(s, k, i);
    case Expire(_) =>
      assert forall i: nat :: Executes(t, k, i) <==> Executes(s, k, i);
    case Step(i, outcome) =>
      assert forall j: nat :: j != i ==> (Executes(t, k, j) <==> Executes(s, k, j));
      assert Executes(s, k, i) ==> Executes(t, k, i) && EntryOf(s.entries[k], s.requests[i].stage);
      if Executes(t, k, i) {
        assert k in t.entries && EntryOf(t.entries[k], t.requests[i].stage);
        assert forall j: nat :: Executes(t, k, j) ==> i == j;
      }
  }

  lemma {:induction false} TraceKeepsInv(k: Key, s: State, events: seq<Event>, t: State)
    requires k != "" && Inv(k, s) && Expire(k) !in events && Trace(s, events, t)
    ensures Inv(k, t)
    decreases |events|
  {
    if events != [] {
      assert events[0] in events;
      StepKeepsInv(k, s, events[0]);
      TraceKeepsInv(k, Next(s, events[0]), events[1..], t);
    }
  }

  lemma ReachableInv(k: Key, s: State)
    requires k != "" && LeadsKeeping(k, START, s)
    ensures Inv(k, s)
  {
    var events :| Expire(k) !in events && Trace(START, events, s);
    TraceKeepsInv(k, START, events, s);
  }

  /* ---- The guarantees, while the key does not expire ---- */

  /** At most one request ever reaches the handler under one key. */
  lemma AtMostOneExecution(k: Key, s: State, i: nat, j: nat)
    requires k != "" && LeadsKeeping(k, START, s)
    requires Executes(s, k, i) && Executes(s, k, j)
    ensures i == j
  {
    ReachableInv(k, s);
  }

  /** Once any request under the key has made its first move, exactly one executes, and every
      other finished request got a conflict or exactly the response that execution stored. */
  lemma OthersFollowTheOwner(k: Key, s: State, i: nat) returns (owner: nat)
    requires k != "" && LeadsKeeping(k, START, s)
    requires i < |s.requests| && s.requests[i].key == k && !s.requests[i].stage.Arrived?
    ensures Executes(s, k, owner)
    ensures i == owner || s.requests[i].stage.Refused? || s.requests[i].stage.Conflicted?
      || (s.requests[i].stage.Replayed? && s.requests[owner].stage == Stored(s.requests[i].stage.response))
  {
    ReachableInv(k, s);
    owner :| Executes(s, k, owner);
    assert EntryOf(s.entries[k], s.requests[owner].stage) && Follows(s.entries[k], s.requests[i].stage);
    assert HandlerRan(s.requests[i].stage) ==> Executes(s, k, i);
  }

  /** All responses given under one key are the same. */
  lemma AllAnswersAgree(k: Key, s: State, i: nat, j: nat)
    requires k != "" && LeadsKeeping(k, START, s)
    requires i < |s.requests| && s.requests[i].key == k && j < |s.requests| && s.requests[j].key == k
    requires var stage := s.requests[i].stage; stage.Answered? || stage.Stored? || stage.Replayed?
    requires var stage := s.requests[j].stage; stage.Answered? || stage.Stored? || stage.Replayed?
    ensures s.requests[i].stage.response == s.requests[j].stage.response
  {
    var a := OthersFollowTheOwner(k, s, i);
    var b := OthersFollowTheOwner(k, s, j);
    AtMostOneExecution(k, s, a, b);
  }

  /** A duplicate reading the entry is replayed exactly when the owner's response has been stored;
      a response that was only emitted still yields a conflict. */
  lemma ReplayedExactlyWhenStored(k: Key, s: State, i: nat, owner: nat, outcome: Result<Json, string>)
    requires k != "" && LeadsKeeping(k, START, s) && Executes(s, k, owner)
    requires i < |s.requests| && s.requests[i] == Request(k, Refused)
    ensures Enabled(s, Step(i, outcome))
    ensures var stage := Next(s, Step(i, outcome)).requests[i].stage;
      if s.requests[owner].stage.Stored? then stage == Replayed(s.requests[owner].stage.response)
      else stage == Conflicted
  {
    ReachableInv(k, s);
  }

  lemma {:induction false} TraceConcat(s: State, a: seq<Event>, t: State, b: seq<Event>, u: State)
    requires Trace(s, a, t) && Trace(t, b, u)
    ensures Trace(s, a + b, u)
    decreases |a|
  {
    if a == [] {
      assert a + b == b;
    } else {
      TraceConcat(Next(s, a[0]), a[1..], t, b, u);
      assert (a + b)[1..] == a[1..] + b;
    }
  }

  lemma TraceThen(s: State, events: seq<Event>, t: State, e: Event)
    requires Trace(s, events, t) && Enabled(t, e)
    ensures Trace(s, events + [e], Next(t, e))
  {
    assert [e][1..] == [] && Trace(Next(t, e), [], Next(t, e));
    TraceConcat(s, events, t, [e], Next(t, e));
  }

  // One more step that is not the key's expiry.
  lemma Walk(k: Key, s: State, t: State, e: Event) returns (u: State)
    requires LeadsKeeping(k, s, t) && Enabled(t, e) && e != Expire(k)
    ensures LeadsKeeping(k, s, u) && u == Next(t, e)
  {
    var events :| Expire(k) !in events && Trace(s, events, t);
    TraceThen(s, events, t, e);
    u := Next(t, e);
    assert Expire(k) !in events + [e];
  }

  // A request whose handler threw takes no further step.
  lemma {:induction false} ThrewStays(s: State, events: seq<Event>, t: State, i: nat)
    requires Trace(s, events, t) && i < |s.requests| && s.requests[i].stage.Threw?
    ensures i < |t.requests| && t.requests[i] == s.requests[i]
    decreases |events|
  {
    if events != [] {
      ThrewStays(Next(s, events[0]), events[1..], t, i);
    }
  }

  /** A handler that throws leaves the key taken: from then on nobody else executes under it,
      nobody is replayed, and a duplicate can only be refused, until the key expires. */
  lemma FailureBlocksTheKey(k: Key, s: State, owner: nat, t: State, i: nat)
    requires k != "" && LeadsKeeping(k, START, s) && LeadsKeeping(k, s, t)
    requires Executes(s, k, owner) && s.requests[owner].stage.Threw?
    requires i < |t.requests| && t.requests[i].key == k && i != owner
    ensures k in t.entries && t.entries[k] == Processing
    ensures t.requests[i].stage.Arrived? || t.requests[i].stage.Refused? || t.requests[i].stage.Conflicted?
  {
    var a :| Expire(k) !in a && Trace(START, a, s);
    var b :| Expire(k) !in b && Trace(s, b, t);
    TraceConcat(START, a, s, b, t);
    assert Expire(k) !in a + b;
    ReachableInv(k, t);
    ThrewStays(s, b, t, owner);
    assert Executes(t, k, owner) && EntryOf(t.entries[k], t.requests[owner].stage);
    assert !Executes(t, k, i);
    if !t.requests[i].stage.Arrived? {
      assert Follows(t.entries[k], t.requests[i].stage);
    }
  }

  /* ---- Where the promise fails ---- */

  /** README.md:172 promises that a repeated key returns the original response. The response
      reaches the client before complete() has stored it, and a duplicate sent in that window
      gets a conflict, although nothing expires and nothing fails. */
  lemma AnsweredYetConflicting(k: Key, r: Json) returns (s: State)
    requires k != ""
    ensures LeadsKeeping(k, START, s) && |s.requests| == 2
    ensures s.requests[0] == Request(k, Answered(r)) && s.requests[1] == Request(k, Conflicted)
  {
    var done := Success(r);
    assert Trace(START, [], START);
    s := Walk(k, START, START, Arrive(k));
    s := Walk(k, START, s, Step(0, done));
    s := Walk(k, START, s, Step(0, done));
    s := Walk(k, START, s, Arrive(k));
    s := Walk(k, START, s, Step(1, done));
    s := Walk(k, START, s, Step(1, done));
  }

  /* ---- What the handler returned ---- */

  // In this run the handler of request i ended with the outcome.
  ghost predicate HandlerEnded(s: State, events: seq<Event>, i: nat, outcome: Result<Json, string>)
    decreases |events|
  {
    events != [] && Enabled(s, events[0]) &&
    (|| (events[0] == Step(i, outcome) && s.requests[i].stage.Handling?)
     || HandlerEnded(Next(s, events[0]), events[1..], i, outcome))
  }

  // The outcome a request's own handler is on record with.
  function OutcomeOf(stage: Stage): Option<Result<Json, string>> {
    match stage
    case Answered(r) => Some(Success(r))
    case Stored(r) => Some(Success(r))
    case Threw(reason) => Some(Failure(reason))
    case _ => None
  }

  lemma OutcomeStep(s: State, e: Event, i: nat)
    requires Enabled(s, e) && i < |Next(s, e).requests| && OutcomeOf(Next(s, e).requests[i].stage).Some?
    ensures i < |s.requests|
    ensures var outcome := OutcomeOf(Next(s, e).requests[i].stage).value;
      || OutcomeOf(s.requests[i].stage) == Some(outcome)
      || (e == Step(i, outcome) && s.requests[i].stage.Handling?)
  {
  }

  lemma {:induction false} OutcomeAlong(s: State, events: seq<Event>, t: State, i: nat)
    requires Trace(s, events, t) && i < |t.requests| && OutcomeOf(t.requests[i].stage).Some?
    ensures var outcome := OutcomeOf(t.requests[i].stage).value;
      HandlerEnded(s, events, i, outcome) || (i < |s.requests| && OutcomeOf(s.requests[i].stage) == Some(outcome))
    decreases |events|
  {
    if events != [] {
      OutcomeAlong(Next(s, events[0]), events[1..], t, i);
      if i < |Next(s, events[0]).requests| && OutcomeOf(Next(s, events[0]).requests[i].stage).Some? {
        OutcomeStep(s, events[0], i);
      }
    }
  }

  /** Every response given under a key, replayed or not, is what the handler of the one executing
      request returned. */
  lemma AnswersAreTheHandlers(k: Key, events: seq<Event>, s: State, i: nat) returns (owner: nat)
    requires k != "" && Trace(START, events, s) && Expire(k) !in events
    requires i < |s.requests| && s.requests[i].key == k
    requires var stage := s.requests[i].stage; stage.Answered? || stage.Stored? || stage.Replayed?
    ensures Executes(s, k, owner)
    ensures HandlerEnded(START, events, owner, Success(s.requests[i].stage.response))
  {
    owner := OthersFollowTheOwner(k, s, i);
    OutcomeAlong(START, events, s, owner);
  }

  /** Requests without a key pass straight through: each one reaches the handler at its first
      step, no entry is ever kept for them, and they end as the handler does. */
  lemma UnguardedPassThrough(events: seq<Event>, s: State, i: nat, outcome: Result<Json, string>)
    requires Trace(START, events, s) && i < |s.requests| && s.requests[i].key == ""
    ensures "" !in s.entries
    ensures var stage := s.requests[i].stage; stage.Arrived? || stage.Handling? || stage.Answered? || stage.Threw?
    ensures s.requests[i].stage.Arrived? ==>
      Enabled(s, Step(i, outcome)) && Next(s, Step(i, outcome)).requests[i].stage.Handling?
    ensures s.requests[i].stage.Answered? ==> HandlerEnded(START, events, i, Success(s.requests[i].stage.response))
    ensures s.requests[i].stage.Threw? ==> HandlerEnded(START, events, i, Failure(s.requests[i].stage.reason))
  {
    UnguardedAlong(START, events, s);
    assert Unguarded(s.requests[i]);
    if OutcomeOf(s.requests[i].stage).Some? {
      OutcomeAlong(START, events, s, i);
    }
  }

  predicate Unguarded(r: Request) {
    r.key == "" ==> r.stage.Arrived? || r.stage.Handling? || r.stage.Answered? || r.stage.Threw?
  }

  lemma {:induction false} UnguardedAlong(s: State, events: seq<Event>, t: State)
    requires Trace(s, events, t) && "" !in s.entries && forall r :: r in s.requests ==> Unguarded(r)
    ensures "" !in t.entries && forall r :: r in t.requests ==> Unguarded(r)
    decreases |events|
  {
    if events != [] {
      UnguardedStep(s, events[0]);
      UnguardedAlong(Next(s, events[0]), events[1..], t);
    }
  }

  lemma UnguardedStep(s: State, e: Event)
    requires Enabled(s, e) && "" !in s.entries && forall r :: r in s.requests ==> Unguarded(r)
    ensures "" !in Next(s, e).entries && forall r :: r in Next(s, e).requests ==> Unguarded(r)
  {
    if e.Step? {
      assert Unguarded(s.requests[e.i]);
      forall r | r in Next(s, e).requests ensures Unguarded(r) {
        if r != Next(s, e).requests[e.i] { assert r in s.requests; }
      }
    }
  }

  /* ---- With expiry ---- */

  ghost predicate AtMostOne(k: Key, s: State) {
    forall i: nat, j: nat :: Executes(s, k, i) && Executes(s, k, j) ==> i == j
  }

  // A request under k tries SET NX, or GET after a refused SET NX, and finds no entry.
  predicate FindsNoEntry(k: Key, s: State, e: Event) {
    && e.Step? && e.i < |s.requests| && s.requests[e.i].key == k
    && (s.requests[e.i].stage.Arrived? || s.requests[e.i].stage.Refused?)
    && k !in s.entries
  }

  // Some request of the run finds no entry although another has already executed.
  ghost predicate EntryLost(k: Key, s: State, events: seq<Event>)
    decreases |events|
  {
    events != [] && Enabled(s, events[0]) &&
    (|| (FindsNoEntry(k, s, events[0]) && exists j: nat :: Executes(s, k, j))
     || EntryLost(k, Next(s, events[0]), events[1..]))
  }

  // A step that finds no entry, and no other, starts an execution; executions are never undone.
  lemma ExecutionsAfter(k: Key, s: State, e: Event, j: nat)
    requires k != "" && Enabled(s, e)
    ensures Executes(Next(s, e), k, j) <==> Executes(s, k, j) || (FindsNoEntry(k, s, e) && j == e.i)
  {
    if e.Step? && j == e.i && s.requests[j].stage.Refused? && s.requests[j].key in s.entries {
      assert !Executes(Next(s, e), k, j);
    }
  }

  lemma StaysAtMostOne(k: Key, s: State, e: Event)
    requires k != "" && Enabled(s, e)
    ensures AtMostOne(k, Next(s, e)) <==>
      AtMostOne(k, s) && !(FindsNoEntry(k, s, e) && exists j: nat :: Executes(s, k, j))
  {
    var t := Next(s, e);
    forall j: nat ensures Executes(t, k, j) <==> Executes(s, k, j) || (FindsNoEntry(k, s, e) && j == e.i) {
      ExecutionsAfter(k, s, e, j);
    }
    if FindsNoEntry(k, s, e) {
      assert Executes(t, k, e.i) && !Executes(s, k, e.i);
    }
  }

  lemma {:induction false} AtMostOneAlong(k: Key, s: State, events: seq<Event>, t: State)
    requires k != "" && Trace(s, events, t)
    ensures AtMostOne(k, t) <==> AtMostOne(k, s) && !EntryLost(k, s, events)
    decreases |events|
  {
    if events != [] {
      StaysAtMostOne(k, s, events[0]);
      AtMostOneAlong(k, Next(s, events[0]), events[1..], t);
    }
  }

  /** Over every run, expiry allowed: at most one request executes under k exactly when none
      finds the entry missing after another has executed. */
  lemma AtMostOneExactlyWhen(k: Key, events: seq<Event>, s: State)
    requires k != "" && Trace(START, events, s)
    ensures AtMostOne(k, s) <==> !EntryLost(k, START, events)
  {
    AtMostOneAlong(k, START, events, s);
  }

  /** Only an expiry of the key can lose it. */
  lemma LossNeedsExpiry(k: Key, events: seq<Event>, s: State)
    requires k != "" && Trace(START, events, s) && EntryLost(k, START, events)
    ensures Expire(k) in events
  {
    if Expire(k) !in events {
      TraceKeepsInv(k, START, events, s);
      AtMostOneExactlyWhen(k, events, s);
      assert false;
    }
  }

  /** One such run: a duplicate refused by SET NX whose GET finds the key gone runs the handler as
      well, while the first is still running. */
  lemma ExpiryAllowsTwo(k: Key, r: Json) returns (s: State)
    requires k != ""
    ensures exists events :: Trace(START, events, s)
    ensures Executes(s, k, 0) && Executes(s, k, 1)
  {
    var done := Success(r);
    assert Trace(START, [], START);
    s := Walk(k, START, START, Arrive(k));
    s := Walk(k, START, s, Arrive(k));
    s := Walk(k, START, s, Step(0, done));
    s := Walk(k, START, s, Step(1, done));
    var events :| Expire(k) !in events && Trace(START, events, s);
    TraceThen(START, events, s, Expire(k));
    s := Next(s, Expire(k));
    TraceThen(START, events + [Expire(k)], s, Step(1, done));
    s := Next(s, Step(1, done));
  }

  /* ---- The service and the interceptor, run without interruption ---- */

  // What one request leaves in the store and how it ends, when nothing runs beside it. `expires`
  // says whether a key found taken by SET NX is gone by the time of the GET.
  function Served(entries: map<Key, Entry>, key: Key, outcome: Result<Json, string>, expires: bool): (map<Key, Entry>, Stage) {
    if key == "" then
      (entries, if outcome.Success? then Answered(outcome.value) else Threw(outcome.error))
    else if key !in entries || expires then
      match outcome {
        case Success(response) => (entries[key := Completed(response)], Stored(response))
        case Failure(reason) =>
          (if key in entries then entries - {key} else entries[key := Processing], Threw(reason))
      }
    else
      (entries, if entries[key].Processing? then Conflicted else Replayed(entries[key].response))
  }

  class IdempotencyService {
    var entries: map<Key, Entry>

    constructor ()
      ensures entries == map[]
    {
      entries := map[];
    }

    /** None tells the caller to proceed: it holds the key now, or the key expired between the
        refused SET NX and the GET, in which case nobody holds it. */
    method Acquire(key: Key, expires: bool) returns (entry: Option<Entry>)
      modifies this
      ensures entry == if key in old(entries) && !expires then Some(old(entries)[key]) else None
      ensures entries ==
        if key !in old(entries) then old(entries)[key := Processing]
        else if expires then old(entries) - {key}
        else old(entries)
    {
      if key !in entries {
        entries := entries[key := Processing];
        return None;
      }
      if expires {
        entries := entries - {key};
      }
      if key !in entries {
        return None;
      }
      return Some(entries[key]);
    }

    method Complete(key: Key, response: Json)
      modifies this
      ensures entries == old(entries)[key := Completed(response)]
    {
      entries := entries[key := Completed(response)];
    }
  }

  class IdempotencyInterceptor {
    const idempotency: IdempotencyService
    var handled: nat   // times the route handler was invoked

    constructor (service: IdempotencyService)
      ensures idempotency == service && handled == 0
    {
      idempotency := service;
      handled := 0;
    }

    /** `outcome` is what the handler does if it is invoked. */
    method Intercept(key: Key, outcome: Result<Json, string>, expires: bool) returns (end: Stage)
      modifies this, idempotency
      ensures (idempotency.entries, end) == Served(old(idempotency.entries), key, outcome, expires)
      ensures handled == old(handled) + if key == "" || key !in old(idempotency.entries) || expires then 1 else 0
    {
      ghost var before := idempotency.entries;
      if key == "" {
        handled := handled + 1;
        return if outcome.Success? then Answered(outcome.value) else Threw(outcome.error);
      }
      var entry := idempotency.Acquire(key, expires);
      if entry.Some? {
        if entry.value.Processing? {
          return Conflicted;
        }
        return Replayed(entry.value.response);
      }
      handled := handled + 1;
      if outcome.Failure? {
        return Threw(outcome.error);
      }
      idempotency.Complete(key, outcome.value);
      assert idempotency.entries == before[key := Completed(outcome.value)];
      return Stored(outcome.value);
    }
  }

  // Where a request served alone ends up in the protocol.
  function Alone(s: State, i: nat, outcome: Result<Json, string>, expires: bool): State
    requires i < |s.requests|
  {
    var (entries, end) := Served(s.entries, s.requests[i].key, outcome, expires);
    State(entries, s.requests[i := s.requests[i].(stage := end)])
  }

  /** The interceptor run without interruption is one of the interleavings. */
  lemma InterceptIsUninterrupted(s: State, i: nat, outcome: Result<Json, string>)
    requires i < |s.requests| && s.requests[i].stage.Arrived?
    ensures LeadsKeeping(s.requests[i].key, s, Alone(s, i, outcome, false))
  {
    var key := s.requests[i].key;
    var end := Alone(s, i, outcome, false);
    var move := Step(i, outcome);
    assert Trace(s, [], s);
    var t := Walk(key, s, s, move);
    t := Walk(key, s, t, move);
    if t.requests[i].stage != end.requests[i].stage {
      t := Walk(key, s, t, move);
    }
    assert t.requests == end.requests;
    assert t.entries == end.entries;
  }

  // A request that read no entry runs the handler and stores its response.
  lemma ProceedsAlone(s: State, i: nat, outcome: Result<Json, string>)
    requires i < |s.requests| && s.requests[i].stage.Refused?
    requires s.requests[i].key != "" && s.requests[i].key !in s.entries
    ensures var key := s.requests[i].key;
      LeadsKeeping(key, s, match outcome
        case Success(r) => State(s.entries[key := Completed(r)], s.requests[i := Request(key, Stored(r))])
        case Failure(reason) => State(s.entries, s.requests[i := Request(key, Threw(reason))]))
  {
    var key := s.requests[i].key;
    var move := Step(i, outcome);
    assert Trace(s, [], s);
    var t := Walk(key, s, s, move);
    t := Walk(key, s, t, move);
    match outcome
    case Success(r) =>
      t := Walk(key, s, t, move);
      assert t.requests == s.requests[i := Request(key, Stored(r))];
    case Failure(reason) =>
      assert t.requests == s.requests[i := Request(key, Threw(reason))];
  }

  lemma ExpiresAfterRefusal(s: State, i: nat, outcome: Result<Json, string>) returns (events: seq<Event>, t: State)
    requires i < |s.requests| && s.requests[i].stage.Arrived?
    requires s.requests[i].key != "" && s.requests[i].key in s.entries
    ensures Trace(s, events, t)
    ensures var key := s.requests[i].key;
      t == State(s.entries - {key}, s.requests[i := Request(key, Refused)])
  {
    var key := s.requests[i].key;
    assert Trace(s, [], s);
    TraceThen(s, [], s, Step(i, outcome));
    t := Next(s, Step(i, outcome));
    TraceThen(s, [] + [Step(i, outcome)], t, Expire(key));
    events, t := [] + [Step(i, outcome)] + [Expire(key)], Next(t, Expire(key));
  }

  /** So it is when the key expires between its SET NX and its GET. */
  lemma InterceptWithExpiry(s: State, i: nat, outcome: Result<Json, string>)
    requires i < |s.requests| && s.requests[i].stage.Arrived?
    requires s.requests[i].key != "" && s.requests[i].key in s.entries
    ensures exists events :: Trace(s, events, Alone(s, i, outcome, true))
  {
    var key, end := s.requests[i].key, Alone(s, i, outcome, true);
    var before, t := ExpiresAfterRefusal(s, i, outcome);
    ProceedsAlone(t, i, outcome);
    assert forall q :: t.requests[i := Request(key, q)] == s.requests[i := Request(key, q)];
    assert outcome.Success? ==> t.entries[key := Completed(outcome.value)] == end.entries;
    var rest :| Trace(t, rest, end);
    TraceConcat(s, before, t, rest, end);
  }

  /** Sequential repeats keep the README's promise when the first request succeeded, and only
      then: after a failure every repeat conflicts. */
  lemma RepeatIsReplayed(entries: map<Key, Entry>, key: Key, first: Result<Json, string>, second: Result<Json, string>)
    requires key != "" && key !in entries
    ensures var (after, _) := Served(entries, key, first, false);
      Served(after, key, second, false) == (after, if first.Success? then Replayed(first.value) else Conflicted)
  {
  }
}
