/** The request limiter in front of the interface (hap/middleware.py:102-142).

    Times are reals and the clock is a parameter that never runs backwards. */
module RateLimiter {
  import opened Sums
  import opened Tables

  type Times = seq<real>

  // ---- the naive counter ----------------------------------------------------------

  function Later(cutoff: real): real -> bool {
    (t: real) => t > cutoff
  }

  function Within(after: real, until: real): real -> bool {
    (t: real) => after < t <= until
  }

  /** A dictionary of lists in which a missing key means no entries. */
  function Of(m: map<string, Times>, key: string): Times {
    if key in m then m[key] else []
  }

  /** How many requests of this key were allowed after `cutoff`, counted over the whole history. */
  function Live(history: map<string, Times>, key: string, cutoff: real): nat {
    |Where(Later(cutoff), Of(history, key))|
  }

  ghost function LiveKeys(history: map<string, Times>, cutoff: real): set<string> {
    set key | key in history && Live(history, key, cutoff) > 0
  }

  /** The decision of a limiter that remembers everything. */
  ghost predicate Rejects(history: map<string, Times>, key: string, cutoff: real, requests: int, maxKeys: int) {
    || Live(history, key, cutoff) >= requests
    || (Live(history, key, cutoff) == 0 && |LiveKeys(history, cutoff) - {key}| >= maxKeys)
  }

  ghost predicate Ascending(times: Times) {
    forall i, j :: 0 <= i < j < |times| ==> times[i] <= times[j]
  }

  // ---- queues ---------------------------------------------------------------------

  /** `popleft` while the front has expired. */
  function DropExpired(queue: Times, cutoff: real): Times {
    if queue != [] && queue[0] <= cutoff then DropExpired(queue[1..], cutoff) else queue
  }

  lemma {:induction false} DropIsSuffix(queue: Times, cutoff: real)
    ensures var r := DropExpired(queue, cutoff);
            |r| <= |queue| && r == queue[|queue| - |r|..] && forall i :: 0 <= i < |queue| - |r| ==> queue[i] <= cutoff
  {
    if queue != [] && queue[0] <= cutoff {
      DropIsSuffix(queue[1..], cutoff);
      var r := DropExpired(queue[1..], cutoff);
      forall i | 0 <= i < |queue| - |r|
        ensures queue[i] <= cutoff
      {
        assert i > 0 ==> queue[i] == queue[1..][i - 1];
      }
    }
  }

  /** On a queue in time order that leaves exactly the live entries. */
  lemma {:induction false} DropIsWhere(queue: Times, cutoff: real)
    requires Ascending(queue)
    ensures DropExpired(queue, cutoff) == Where(Later(cutoff), queue)
  {
    if queue != [] {
      if queue[0] <= cutoff {
        DropIsWhere(queue[1..], cutoff);
      } else {
        WhereAll(Later(cutoff), queue);
      }
    }
  }

  lemma {:induction false} DropTwice(queue: Times, early: real, late: real)
    requires early <= late
    ensures DropExpired(DropExpired(queue, early), late) == DropExpired(queue, late)
  {
    if queue != [] && queue[0] <= early {
      DropTwice(queue[1..], early, late);
    }
  }

  lemma {:induction false} DropAppend(queue: Times, t: real, cutoff: real)
    ensures DropExpired(DropExpired(queue, cutoff) + [t], cutoff) == DropExpired(queue + [t], cutoff)
  {
    if queue != [] && queue[0] <= cutoff {
      DropAppend(queue[1..], t, cutoff);
      assert (queue + [t])[1..] == queue[1..] + [t];
    }
  }

  /** What `_prune` leaves. */
  function Pruned(events: map<string, Times>, cutoff: real): map<string, Times> {
    map key | key in events && DropExpired(events[key], cutoff) != [] :: DropExpired(events[key], cutoff)
  }

  /** The dictionary and the history have the same live entries. */
  ghost predicate Agree(events: map<string, Times>, history: map<string, Times>, cutoff: real) {
    forall key :: AgreeOn(events, history, key, cutoff)
  }

  ghost predicate AgreeOn(events: map<string, Times>, history: map<string, Times>, key: string, cutoff: real) {
    DropExpired(Of(events, key), cutoff) == DropExpired(Of(history, key), cutoff)
  }

  lemma AgreeLater(events: map<string, Times>, history: map<string, Times>, early: real, late: real)
    requires Agree(events, history, early) && early <= late
    ensures Agree(events, history, late)
  {
    forall key
      ensures AgreeOn(events, history, key, late)
    {
      assert AgreeOn(events, history, key, early);
      DropTwice(Of(events, key), early, late);
      DropTwice(Of(history, key), early, late);
    }
  }

  lemma AgreePruned(events: map<string, Times>, history: map<string, Times>, cutoff: real)
    requires Agree(events, history, cutoff)
    ensures Agree(Pruned(events, cutoff), history, cutoff)
  {
    forall key
      ensures AgreeOn(Pruned(events, cutoff), history, key, cutoff)
    {
      assert AgreeOn(events, history, key, cutoff);
      DropTwice(Of(events, key), cutoff, cutoff);
    }
  }

  ghost predicate UpTo(times: Times, clock: real) {
    forall i :: 0 <= i < |times| ==> times[i] <= clock
  }

  ghost predicate InOrder(history: map<string, Times>, clock: real) {
    forall key :: Ascending(Of(history, key)) && UpTo(Of(history, key), clock)
  }

  lemma LiveIsLength(history: map<string, Times>, key: string, cutoff: real, clock: real)
    requires InOrder(history, clock)
    ensures Live(history, key, cutoff) == |DropExpired(Of(history, key), cutoff)|
  {
    DropIsWhere(Of(history, key), cutoff);
  }

  /** The keys of the dictionary with anything live in it are the live keys of the history. */
  lemma LiveKeysListed(events: map<string, Times>, history: map<string, Times>, cutoff: real, clock: real)
    requires Agree(events, history, cutoff) && InOrder(history, clock)
    ensures LiveKeys(history, cutoff) == Pruned(events, cutoff).Keys
    ensures LiveKeys(history, cutoff) <= events.Keys
  {
    forall key
      ensures key in LiveKeys(history, cutoff) <==> key in Pruned(events, cutoff)
    {
      LiveIsLength(history, key, cutoff, clock);
      assert AgreeOn(events, history, key, cutoff);
    }
  }

  // ---- what the limit means -------------------------------------------------------

  /** Any `requests` + 1 allowed requests of one key take at least a whole window. */
  ghost predicate Spaced(times: Times, requests: int, window: real) {
    if requests <= 0 then times == []
    else forall i :: 0 <= i && i + requests < |times| ==> times[i + requests] >= times[i] + window
  }

  lemma SpacedNext(times: Times, now: real, requests: int, window: real)
    requires Ascending(times) && Spaced(times, requests, window) && UpTo(times, now)
    requires |Where(Later(now - window), times)| < requests
    ensures Spaced(times + [now], requests, window)
  {
    DropIsWhere(times, now - window);
    DropIsSuffix(times, now - window);
    SpacedAppend(times, now, requests, window, |DropExpired(times, now - window)|);
  }

  lemma SpacedAppend(times: Times, now: real, requests: int, window: real, kept: nat)
    requires Spaced(times, requests, window) && kept < requests && kept <= |times|
    requires forall i :: 0 <= i < |times| - kept ==> times[i] <= now - window
    ensures Spaced(times + [now], requests, window)
  {
    var longer := times + [now];
    forall i | 0 <= i && i + requests < |longer|
      ensures longer[i + requests] >= longer[i] + window
    {
      if i + requests < |times| {
        assert longer[i + requests] == times[i + requests];
      }
    }
  }

  function NotAfter(until: real): real -> bool {
    (t: real) => t <= until
  }

  lemma {:induction false} EarlyIsPrefix(times: Times, until: real)
    requires Ascending(times)
    ensures Where(NotAfter(until), times) <= times
  {
    if times != [] {
      if times[0] <= until {
        EarlyIsPrefix(times[1..], until);
      } else {
        WhereNone(NotAfter(until), times);
      }
    }
  }

  /** The entries in a window stand next to each other. */
  lemma WindowIsSlice(times: Times, after: real, until: real) returns (lo: nat, hi: nat)
    requires Ascending(times)
    ensures lo <= hi <= |times| && hi - lo == |Where(Within(after, until), times)|
    ensures forall i :: lo <= i < hi ==> after < times[i] <= until
  {
    var early := Where(NotAfter(until), times);
    EarlyIsPrefix(times, until);
    WhereTwice(NotAfter(until), Later(after), Within(after, until), times);
    DropIsWhere(early, after);
    DropIsSuffix(early, after);
    var kept := DropExpired(early, after);
    lo, hi := |early| - |kept|, |early|;
    forall i | lo <= i < hi
      ensures after < times[i] <= until
    {
      assert times[i] == early[i] == kept[i - lo];
      assert kept[i - lo] in Where(Later(after), early) && early[i] in early;
    }
  }

  lemma SpacedAt(times: Times, requests: int, window: real, i: nat)
    requires Spaced(times, requests, window) && requests > 0 && i + requests < |times|
    ensures times[i + requests] >= times[i] + window
  {
  }

  /** The entries in the half-open window that ends at `end`. */
  function InWindow(times: Times, window: real, end: real): nat {
    |Where(Within(end - window, end), times)|
  }

  /** In every half-open window of that length at most `requests` requests of a key are allowed. */
  lemma WindowBound(times: Times, requests: int, window: real, end: real)
    requires Ascending(times) && Spaced(times, requests, window)
    ensures InWindow(times, window, end) <= Allowance(requests)
  {
    var lo, hi := WindowIsSlice(times, end - window, end);
    if requests > 0 && hi - lo > requests {
      SpacedAt(times, requests, window, lo);
    }
  }

  function Allowance(n: int): nat {
    if n > 0 then n else 0
  }

  /** No key was ever allowed more than `requests` requests in a window. */
  ghost predicate WithinLimit(history: map<string, Times>, requests: int, window: real) {
    forall key, end :: InWindow(Of(history, key), window, end) <= Allowance(requests)
  }

  ghost predicate AllSpaced(history: map<string, Times>, requests: int, window: real) {
    forall key :: Spaced(Of(history, key), requests, window)
  }

  // ---- the limiter ----------------------------------------------------------------

  ghost predicate Faithful(
    events: map<string, Times>, history: map<string, Times>, clock: real, requests: int, window: real, maxKeys: int)
  {
    && Agree(events, history, clock - window)
    && InOrder(history, clock)
    && AllSpaced(history, requests, window)
    && |events| <= Allowance(maxKeys)
  }

  /** What every run of the limiter keeps: no key had more than `requests` requests allowed in a
      window of that length, and the dictionary never outgrows `maxKeys`. */
  lemma LimitsHold(
    events: map<string, Times>, history: map<string, Times>, clock: real, requests: int, window: real, maxKeys: int)
    requires Faithful(events, history, clock, requests, window, maxKeys)
    ensures WithinLimit(history, requests, window) && |events| <= Allowance(maxKeys)
  {
    forall key, end
      ensures InWindow(Of(history, key), window, end) <= Allowance(requests)
    {
      WindowBound(Of(history, key), requests, window, end);
    }
  }

  lemma TrimmedFaithful(
    events: map<string, Times>, history: map<string, Times>, now: real, requests: int, window: real, maxKeys: int,
    key: string)
    requires Faithful(events, history, now, requests, window, maxKeys) && key in events
    ensures var queue := DropExpired(events[key], now - window);
            Faithful(events[key := queue], history, now, requests, window, maxKeys)
  {
    AgreeAppend(events, history, key, now - window, now);
  }

  lemma TakenFaithful(
    events: map<string, Times>, history: map<string, Times>, now: real, requests: int, window: real, maxKeys: int,
    key: string)
    requires Faithful(events, history, now, requests, window, maxKeys) && key in events
    requires Live(history, key, now - window) < requests
    ensures var queue := DropExpired(events[key], now - window);
            Faithful(events[key := queue][key := queue + [now]], history[key := Of(history, key) + [now]],
                     now, requests, window, maxKeys)
  {
    var queue := DropExpired(events[key], now - window);
    AgreeAppend(events, history, key, now - window, now);
    RememberedAll(history, key, now, requests, window);
    assert events[key := queue][key := queue + [now]] == events[key := queue + [now]];
  }

  class FixedWindowRateLimiter {
    const requests: int
    const window: real
    const maxKeys: int
    var events: map<string, Times>
    var operations: nat
    ghost var history: map<string, Times>
    ghost var clock: real

    constructor (requests: int, window: real, maxKeys: int, now: real)
      ensures Valid() && history == map[] && clock == now
      ensures this.requests == requests && this.window == window && this.maxKeys == maxKeys
    {
      this.requests, this.window, this.maxKeys := requests, window, maxKeys;
      events, operations := map[], 0;
      history, clock := map[], now;
    }

    /** `history` is what a limiter that forgets nothing would have recorded. */
    ghost predicate Valid()
      reads this
    {
      Faithful(events, history, clock, requests, window, maxKeys)
    }

    /** `_prune`. */
    method Prune(cutoff: real)
      modifies this`events
      ensures events == Pruned(old(events), cutoff)
    {
      ghost var all := events;
      var pending, expired: set<string> := events.Keys, {};
      while pending != {}
        invariant pending <= events.Keys == all.Keys
        invariant forall k :: k in all ==> events[k] == if k in pending then all[k] else DropExpired(all[k], cutoff)
        invariant forall k :: k in expired <==> k in all && k !in pending && events[k] == []
        decreases pending
      {
        var key :| key in pending;
        var queue := Trim(events[key], cutoff);
        events := events[key := queue];
        if queue == [] {
          expired := expired + {key};
        }
        pending := pending - {key};
      }
      events := events - expired;
    }

    /** `allow` at time `now`. */
    method Allow(key: string, now: real) returns (allowed: bool)
      requires Valid() && clock <= now
      modifies this
      ensures Valid() && clock == now
      ensures allowed <==> !Rejects(old(history), key, now - window, requests, maxKeys)
      ensures history == if allowed then old(history)[key := Of(old(history), key) + [now]] else old(history)
    {
      var cutoff := now - window;
      Tick(now);
      allowed := Admit(key, cutoff);
      if allowed {
        allowed := Take(key, now, cutoff);
      }
    }

    /** Counting the operation, and cleaning up on every thousandth. */
    method Tick(now: real)
      requires Valid() && clock <= now
      modifies this`events, this`operations, this`clock
      ensures Valid() && clock == now
      ensures operations == old(operations) + 1
      ensures events == if operations % 1_000 == 0 then Pruned(old(events), now - window) else old(events)
    {
      AgreeLater(events, history, clock - window, now - window);
      clock := now;
      operations := operations + 1;
      if operations % 1_000 == 0 {
        AgreePruned(events, history, now - window);
        PrunedSize(events, now - window);
        Prune(now - window);
      }
    }

    /** The part of `allow` after the queue has been found. */
    method Take(key: string, now: real, cutoff: real) returns (allowed: bool)
      requires Valid() && key in events && clock == now && cutoff == now - window
      modifies this`events, this`history
      ensures Valid()
      ensures allowed <==> Live(old(history), key, cutoff) < requests
      ensures history == if allowed then old(history)[key := Of(old(history), key) + [now]] else old(history)
    {
      var queue := Trim(events[key], cutoff);
      LiveQueue(events, history, key, cutoff, clock);
      allowed := |queue| < requests;
      if allowed {
        TakenFaithful(events, history, now, requests, window, maxKeys, key);
        events := events[key := queue];
        events := events[key := queue + [now]];
        history := history[key := Of(history, key) + [now]];
      } else {
        TrimmedFaithful(events, history, now, requests, window, maxKeys, key);
        events := events[key := queue];
      }
    }

    /** Making sure that the key has a queue; false when there is no room for one. */
    method Admit(key: string, cutoff: real) returns (admitted: bool)
      requires Valid() && cutoff == clock - window
      modifies this`events
      ensures Valid()
      ensures admitted ==>
                && key in events
                && (Rejects(history, key, cutoff, requests, maxKeys) <==> Live(history, key, cutoff) >= requests)
      ensures !admitted ==> Rejects(history, key, cutoff, requests, maxKeys)
    {
      if key !in events {
        if |events| >= maxKeys {
          ghost var full := events;
          AgreePruned(events, history, cutoff);
          PrunedSize(events, cutoff);
          Prune(cutoff);
          if |events| >= maxKeys {
            NoRoom(full, history, key, cutoff, clock, requests, maxKeys);
            return false;
          }
        }
        AgreeEmpty(events, history, key, cutoff);
        events := events[key := []];
      }
      HasRoom(events, history, key, cutoff, clock, requests, maxKeys);
      admitted := true;
    }
  }

  lemma RememberedAll(history: map<string, Times>, key: string, now: real, requests: int, window: real)
    requires InOrder(history, now) && AllSpaced(history, requests, window)
    requires Live(history, key, now - window) < requests
    ensures var longer := history[key := Of(history, key) + [now]];
            InOrder(longer, now) && AllSpaced(longer, requests, window)
  {
    var times, longer := Of(history, key), history[key := Of(history, key) + [now]];
    SpacedNext(times, now, requests, window);
    forall k
      ensures Ascending(Of(longer, k)) && UpTo(Of(longer, k), now) && Spaced(Of(longer, k), requests, window)
    {
      assert k != key ==> Of(longer, k) == Of(history, k);
    }
  }

  lemma AgreeEmpty(events: map<string, Times>, history: map<string, Times>, key: string, cutoff: real)
    requires Agree(events, history, cutoff) && key !in events
    ensures Agree(events[key := []], history, cutoff)
  {
    SameEntries(events, events[key := []], history, history, cutoff);
  }

  /** The `popleft` loop. */
  method Trim(queue: Times, cutoff: real) returns (r: Times)
    ensures r == DropExpired(queue, cutoff)
  {
    r := queue;
    while r != [] && r[0] <= cutoff
      invariant DropExpired(r, cutoff) == DropExpired(queue, cutoff)
      decreases |r|
    {
      r := r[1..];
    }
  }

  lemma PrunedSize(events: map<string, Times>, cutoff: real)
    ensures |Pruned(events, cutoff)| <= |events|
  {
    SubsetSize(Pruned(events, cutoff).Keys, events.Keys);
    assert |Pruned(events, cutoff).Keys| == |Pruned(events, cutoff)| && |events.Keys| == |events|;
  }

  lemma NoRoom(
    events: map<string, Times>, history: map<string, Times>, key: string, cutoff: real, clock: real, requests: int,
    maxKeys: int)
    requires Agree(events, history, cutoff) && InOrder(history, clock)
    requires key !in events && |Pruned(events, cutoff)| >= maxKeys
    ensures Rejects(history, key, cutoff, requests, maxKeys)
  {
    LiveKeysListed(events, history, cutoff, clock);
    LiveIsLength(history, key, cutoff, clock);
    assert AgreeOn(events, history, key, cutoff);
    assert LiveKeys(history, cutoff) - {key} == Pruned(events, cutoff).Keys;
    assert |Pruned(events, cutoff).Keys| == |Pruned(events, cutoff)|;
  }

  lemma LiveQueue(events: map<string, Times>, history: map<string, Times>, key: string, cutoff: real, clock: real)
    requires Agree(events, history, cutoff) && InOrder(history, clock) && key in events
    ensures Live(history, key, cutoff) == |DropExpired(events[key], cutoff)|
  {
    LiveIsLength(history, key, cutoff, clock);
    assert AgreeOn(events, history, key, cutoff);
  }

  lemma HasRoom(
    events: map<string, Times>, history: map<string, Times>, key: string, cutoff: real, clock: real, requests: int,
    maxKeys: int)
    requires Agree(events, history, cutoff) && InOrder(history, clock)
    requires key in events && |events| <= Allowance(maxKeys)
    ensures Rejects(history, key, cutoff, requests, maxKeys) <==> Live(history, key, cutoff) >= requests
  {
    LiveKeysListed(events, history, cutoff, clock);
    SubsetSize(LiveKeys(history, cutoff) - {key}, events.Keys - {key});
    assert |events.Keys| == |events|;
  }

  lemma SameEntries(
    e: map<string, Times>, f: map<string, Times>, g: map<string, Times>, h: map<string, Times>, cutoff: real)
    requires Agree(e, g, cutoff) && forall k :: Of(e, k) == Of(f, k) && Of(g, k) == Of(h, k)
    ensures Agree(f, h, cutoff)
  {
    forall k
      ensures AgreeOn(f, h, k, cutoff)
    {
      assert AgreeOn(e, g, k, cutoff);
    }
  }

  lemma AgreeAt(
    events: map<string, Times>, history: map<string, Times>, key: string, queue: Times, times: Times, cutoff: real)
    requires Agree(events, history, cutoff) && DropExpired(queue, cutoff) == DropExpired(times, cutoff)
    ensures Agree(events[key := queue], history[key := times], cutoff)
  {
    var after, counted := events[key := queue], history[key := times];
    forall k
      ensures AgreeOn(after, counted, k, cutoff)
    {
      assert AgreeOn(events, history, k, cutoff);
    }
  }

  lemma AgreeAppend(events: map<string, Times>, history: map<string, Times>, key: string, cutoff: real, now: real)
    requires Agree(events, history, cutoff) && key in events
    ensures var queue := DropExpired(events[key], cutoff);
            && Agree(events[key := queue], history, cutoff)
            && Agree(events[key := queue + [now]], history[key := Of(history, key) + [now]], cutoff)
  {
    var queue := DropExpired(events[key], cutoff);
    assert AgreeOn(events, history, key, cutoff);
    DropTwice(events[key], cutoff, cutoff);
    DropAppend(Of(history, key), now, cutoff);
    AgreeAt(events, history, key, queue, Of(history, key), cutoff);
    AgreeAt(events, history, key, queue + [now], Of(history, key) + [now], cutoff);
    SameEntries(events[key := queue], events[key := queue], history[key := Of(history, key)], history, cutoff);
  }
}
