/**
 The alert delivery queue (igris-overture/alerts/alert_sender.go Enqueue, worker,
 processAlert, retryAlert, sendToDLQ), with any number of workers and timers and
 with Redis reads and writes that succeed.
 */
module AlertQueue {
  import opened Options
  import Dedupe = AlertDedupe

  /** What a detail holds: the sender's value, the redaction mark, or what the dead-letter path adds. */
  datatype Detail = Given(text: string) | Redacted | DeliveryErrors | FailedAt

  type Details = map<string, Detail>

  /** A nil Details map is `None`. */
  datatype Alert = Alert(dedupeKey: string, attempts: int, maxAttempts: int, details: Option<Details>)

  // ---- What Enqueue does to an alert ----

  const SENSITIVE_KEYS: seq<string> :=
    ["api_key", "api_secret", "password", "token", "client_secret", "private_key", "credential"]

  function Redact(d: Details): Details {
    map k | k in d :: if k in SENSITIVE_KEYS then Redacted else d[k]
  }

  /** Defaults filled in, sensitive details redacted. */
  function Prepared(a: Alert): Alert {
    a.(maxAttempts := if a.maxAttempts == 0 then 3 else a.maxAttempts,
       details := if a.details.None? then None else Some(Redact(a.details.value)))
  }

  /** redactSensitive. */
  method RedactSensitive(d: Details) returns (r: Details)
    ensures r.Keys == d.Keys
    ensures forall k <- d :: r[k] == if k in SENSITIVE_KEYS then Redacted else d[k]
  {
    r := d;
    for i := 0 to |SENSITIVE_KEYS|
      invariant r.Keys == d.Keys
      invariant forall k <- d :: r[k] == if k in SENSITIVE_KEYS[..i] then Redacted else d[k]
    {
      assert SENSITIVE_KEYS[..i + 1] == SENSITIVE_KEYS[..i] + [SENSITIVE_KEYS[i]];
      if SENSITIVE_KEYS[i] in r {
        r := r[SENSITIVE_KEYS[i] := Redacted];
      }
    }
    assert SENSITIVE_KEYS[..|SENSITIVE_KEYS|] == SENSITIVE_KEYS;
  }

  // ---- Backoff: 1 << (attempts - 1) minutes, in 64-bit nanoseconds ----

  const MINUTE := 60_000_000_000
  const TWO63 := 0x8000_0000_0000_0000
  const TWO64 := 0x1_0000_0000_0000_0000

  function Pow2(n: nat): nat { if n == 0 then 1 else 2 * Pow2(n - 1) }

  /** A product reduced to a signed 64-bit integer. */
  function Wrap64(x: int): (r: int)
    ensures -TWO63 <= r < TWO63
    ensures r == x <==> -TWO63 <= x < TWO63
    ensures (x - r) % TWO64 == 0
  {
    (x + TWO63) % TWO64 - TWO63
  }

  /** A negative shift count becomes a huge unsigned one; shifting by 64 or more leaves zero. */
  function Backoff(attempts: int): int {
    if 0 <= attempts - 1 < 64 then Wrap64(Pow2(attempts - 1) * MINUTE) else 0
  }

  // ---- State ----

  /**
   An alert on its way: `ticket` numbers the accepted alerts, `first` is the alert as accepted,
   `runs` counts the deliveries tried and `waited` sums the backoffs taken.
   */
  datatype Item = Item(ticket: nat, first: Alert, alert: Alert, runs: nat, waited: int)

  /** `busy` is held by workers, `waiting` by timers; both live in memory only. */
  datatype State = State(
    queue: seq<Item>,
    busy: seq<Item>,
    waiting: seq<Item>,
    dead: seq<Item>,
    finished: seq<Item>,
    stats: Stats,
    crashed: bool)

  datatype Stats = Stats(enqueued: nat, delivered: nat, failed: nat, retries: nat, deduplicated: nat)

  const INIT := State([], [], [], [], [], Stats(0, 0, 0, 0, 0), false)

  datatype Action =
    | Accept(alert: Alert)
    | Suppress
    | Take
    | Deliver(i: nat, outcomes: seq<bool>)
    | Fire(i: nat)

  function Without<T>(s: seq<T>, i: nat): seq<T>
    requires i < |s|
  {
    s[..i] + s[i + 1..]
  }

  function Accepted(s: State, alert: Alert): State {
    var item := Item(s.stats.enqueued, Prepared(alert), Prepared(alert), 0, 0);
    s.(queue := [item] + s.queue, stats := s.stats.(enqueued := s.stats.enqueued + 1))
  }

  function Taken(s: State): State
    requires s.queue != []
  {
    var n := |s.queue| - 1;
    s.(queue := s.queue[..n], busy := s.busy + [s.queue[n]])
  }

  /** One more delivery tried. */
  function Tried(item: Item): Item {
    item.(alert := item.alert.(attempts := item.alert.attempts + 1), runs := item.runs + 1)
  }

  function Retried(s: State, item: Item): State {
    var later := item.(waited := item.waited + Backoff(item.alert.attempts));
    s.(waiting := s.waiting + [later], stats := s.stats.(retries := s.stats.retries + 1))
  }

  /** The details of a dead letter say why and when it failed. */
  function Buried(item: Item): Item
    requires item.alert.details.Some?
  {
    var d := item.alert.details.value["delivery_errors" := DeliveryErrors]["failed_at" := FailedAt];
    item.(alert := item.alert.(details := Some(d)))
  }

  /** Writing into a nil Details map panics, which ends the process and what it held in memory. */
  function DeadLettered(s: State, item: Item): State {
    if item.alert.details.Some?
    then s.(dead := s.dead + [Buried(item)], stats := s.stats.(failed := s.stats.failed + 1))
    else s.(busy := [], waiting := [], crashed := true)
  }

  /** `outcomes` says for each channel whether its provider was found and took the alert. */
  function Settled(s: State, item: Item, outcomes: seq<bool>): State {
    var t := if true in outcomes then s.(stats := s.stats.(delivered := s.stats.delivered + 1)) else s;
    if false !in outcomes then t.(finished := t.finished + [item])
    else if item.alert.attempts < item.alert.maxAttempts then Retried(t, item)
    else DeadLettered(t, item)
  }

  function Fired(s: State, i: nat): State
    requires i < |s.waiting|
  {
    s.(waiting := Without(s.waiting, i), queue := [s.waiting[i]] + s.queue)
  }

  function Step(s: State, a: Action): State {
    if s.crashed then s
    else match a
      case Accept(alert) => Accepted(s, alert)
      case Suppress => s.(stats := s.stats.(deduplicated := s.stats.deduplicated + 1))
      case Take => if s.queue == [] then s else Taken(s)
      case Deliver(i, outcomes) =>
        if i < |s.busy| then Settled(s.(busy := Without(s.busy, i)), Tried(s.busy[i]), outcomes) else s
      case Fire(i) => if i < |s.waiting| then Fired(s, i) else s
  }

  function Run(s: State, actions: seq<Action>): State {
    if actions == [] then s
    else Step(Run(s, actions[..|actions| - 1]), actions[|actions| - 1])
  }

  // ---- Conservation ----

  /** How often a ticket occurs in a list. */
  function Count(items: seq<Item>, ticket: nat): nat {
    if items == [] then 0
    else Count(items[..|items| - 1], ticket) + (if items[|items| - 1].ticket == ticket then 1 else 0)
  }

  lemma {:induction false} CountConcat(a: seq<Item>, b: seq<Item>, ticket: nat)
    ensures Count(a + b, ticket) == Count(a, ticket) + Count(b, ticket)
  {
    if b == [] {
      assert a + b == a;
    } else {
      assert (a + b)[..|a + b| - 1] == a + b[..|b| - 1];
      CountConcat(a, b[..|b| - 1], ticket);
    }
  }

  lemma CountSnoc(items: seq<Item>, item: Item, ticket: nat)
    ensures Count(items + [item], ticket) == Count(items, ticket) + if item.ticket == ticket then 1 else 0
  {
    assert (items + [item])[..|items|] == items;
  }

  lemma CountOne(item: Item, ticket: nat)
    ensures Count([item], ticket) == if item.ticket == ticket then 1 else 0
  {
    assert [item][..0] == [];
  }

  lemma CountWithout(items: seq<Item>, i: nat, ticket: nat)
    requires i < |items|
    ensures Count(items, ticket) == Count(Without(items, i), ticket) + Count([items[i]], ticket)
  {
    assert items == items[..i] + [items[i]] + items[i + 1..];
    CountConcat(items[..i] + [items[i]], items[i + 1..], ticket);
    CountConcat(items[..i], [items[i]], ticket);
    CountConcat(items[..i], items[i + 1..], ticket);
  }

  /** In how many places an accepted alert is. */
  function Places(s: State, ticket: nat): nat {
    Count(s.queue, ticket) + Count(s.busy, ticket) + Count(s.waiting, ticket) +
    Count(s.dead, ticket) + Count(s.finished, ticket)
  }

  function Total(s: State): nat {
    |s.queue| + |s.busy| + |s.waiting| + |s.dead| + |s.finished|
  }

  /** Every accepted alert is in exactly one place, and nothing else is anywhere. */
  ghost predicate Conserved(s: State) {
    && (forall t: nat :: Places(s, t) == if t < s.stats.enqueued then 1 else 0)
    && Total(s) == s.stats.enqueued
    && s.stats.failed == |s.dead|
  }

  lemma StepPlaces(s: State, a: Action, t: nat)
    requires !s.crashed && !Step(s, a).crashed
    ensures Places(Step(s, a), t) == Places(s, t) + if a.Accept? && t == s.stats.enqueued then 1 else 0
  {
    match a
    case Accept(alert) => AcceptPlaces(s, alert, t);
    case Suppress =>
    case Take =>
      if s.queue != [] {
        var n := |s.queue| - 1;
        CountSnoc(s.busy, s.queue[n], t);
      }
    case Deliver(i, outcomes) =>
      if i < |s.busy| {
        DeliverPlaces(s, i, outcomes, t);
      }
    case Fire(i) =>
      if i < |s.waiting| {
        CountWithout(s.waiting, i, t);
        CountConcat([s.waiting[i]], s.queue, t);
      }
  }

  lemma AcceptPlaces(s: State, alert: Alert, t: nat)
    ensures Places(Accepted(s, alert), t) == Places(s, t) + if t == s.stats.enqueued then 1 else 0
  {
    var item := Accepted(s, alert).queue[0];
    CountConcat([item], s.queue, t);
    CountOne(item, t);
  }

  lemma SettledPlaces(s: State, item: Item, outcomes: seq<bool>, t: nat)
    requires !s.crashed && !Settled(s, item, outcomes).crashed
    ensures Places(Settled(s, item, outcomes), t) == Places(s, t) + if item.ticket == t then 1 else 0
  {
    if false !in outcomes {
      CountSnoc(s.finished, item, t);
    } else if item.alert.attempts < item.alert.maxAttempts {
      CountSnoc(s.waiting, item.(waited := item.waited + Backoff(item.alert.attempts)), t);
    } else {
      CountSnoc(s.dead, Buried(item), t);
    }
  }

  lemma DeliverPlaces(s: State, i: nat, outcomes: seq<bool>, t: nat)
    requires !s.crashed && i < |s.busy| && !Step(s, Deliver(i, outcomes)).crashed
    ensures Places(Step(s, Deliver(i, outcomes)), t) == Places(s, t)
  {
    CountWithout(s.busy, i, t);
    CountOne(s.busy[i], t);
    SettledPlaces(s.(busy := Without(s.busy, i)), Tried(s.busy[i]), outcomes, t);
  }

  lemma StepTotal(s: State, a: Action)
    requires !s.crashed && !Step(s, a).crashed
    ensures Step(s, a).stats.enqueued == s.stats.enqueued + if a.Accept? then 1 else 0
    ensures Total(Step(s, a)) - Step(s, a).stats.enqueued == Total(s) - s.stats.enqueued
    ensures Step(s, a).stats.failed - |Step(s, a).dead| == s.stats.failed - |s.dead|
  {
    if a.Deliver? && a.i < |s.busy| {
      SettledTotal(s.(busy := Without(s.busy, a.i)), Tried(s.busy[a.i]), a.outcomes);
    }
  }

  lemma SettledTotal(s: State, item: Item, outcomes: seq<bool>)
    requires !s.crashed && !Settled(s, item, outcomes).crashed
    ensures var r := Settled(s, item, outcomes);
      && Total(r) == Total(s) + 1 && r.stats.enqueued == s.stats.enqueued
      && r.stats.failed - |r.dead| == s.stats.failed - |s.dead|
  {
  }

  lemma StepConserves(s: State, a: Action)
    requires !s.crashed && Conserved(s) && !Step(s, a).crashed
    ensures Conserved(Step(s, a))
  {
    StepTotal(s, a);
    var r := Step(s, a);
    forall t: nat
      ensures Places(r, t) == if t < r.stats.enqueued then 1 else 0
    {
      StepPlaces(s, a, t);
    }
  }

  lemma {:induction false} RunConserves(actions: seq<Action>)
    requires !Run(INIT, actions).crashed
    ensures Conserved(Run(INIT, actions))
  {
    if actions != [] {
      var n := |actions| - 1;
      RunConserves(actions[..n]);
      StepConserves(Run(INIT, actions[..n]), actions[n]);
    }
  }

  // ---- What a missing Details map costs ----

  /** The last allowed delivery of an alert without a Details map fails on some channel. */
  predicate Panics(s: State, a: Action) {
    && !s.crashed && a.Deliver? && a.i < |s.busy| && false in a.outcomes
    && s.busy[a.i].alert.attempts + 1 >= s.busy[a.i].alert.maxAttempts
    && s.busy[a.i].alert.details.None?
  }

  lemma PanicLoses(s: State, a: Action)
    requires !s.crashed && Conserved(s)
    ensures Panics(s, a) <==> Step(s, a).crashed
    ensures Panics(s, a) ==> Total(Step(s, a)) < Step(s, a).stats.enqueued
  {
  }

  lemma {:induction false} CrashedRunLost(actions: seq<Action>)
    ensures var s := Run(INIT, actions); s.crashed ==> Total(s) < s.stats.enqueued
  {
    if actions != [] {
      var n := |actions| - 1;
      CrashedRunLost(actions[..n]);
      var s := Run(INIT, actions[..n]);
      if !s.crashed {
        RunConserves(actions[..n]);
        PanicLoses(s, actions[n]);
      }
    }
  }

  ghost predicate SomeStepPanics(actions: seq<Action>) {
    exists n :: 0 <= n < |actions| && PanicsAt(actions, n)
  }

  ghost predicate PanicsAt(actions: seq<Action>, n: nat)
    requires n < |actions|
  {
    Panics(Run(INIT, actions[..n]), actions[n])
  }

  lemma PanicsEarlier(actions: seq<Action>, n: nat, k: nat)
    requires k < n <= |actions|
    ensures PanicsAt(actions[..n], k) <==> PanicsAt(actions, k)
  {
    assert actions[..n][..k] == actions[..k];
  }

  lemma {:induction false} CrashedIffPanicked(actions: seq<Action>)
    ensures Run(INIT, actions).crashed <==> SomeStepPanics(actions)
  {
    if actions != [] {
      var n := |actions| - 1;
      var before := actions[..n];
      CrashedIffPanicked(before);
      PanicsInPrefix(actions, n);
      CrashesAtLast(actions);
    }
  }

  lemma PanicsInPrefix(actions: seq<Action>, n: nat)
    requires n + 1 == |actions|
    ensures SomeStepPanics(actions) <==> SomeStepPanics(actions[..n]) || PanicsAt(actions, n)
  {
    forall k | 0 <= k < n ensures PanicsAt(actions[..n], k) <==> PanicsAt(actions, k) {
      PanicsEarlier(actions, n, k);
    }
  }

  lemma CrashesAtLast(actions: seq<Action>)
    requires actions != []
    ensures var n := |actions| - 1;
      Run(INIT, actions).crashed <==> Run(INIT, actions[..n]).crashed || PanicsAt(actions, n)
  {
    var n := |actions| - 1;
    if !Run(INIT, actions[..n]).crashed {
      RunConserves(actions[..n]);
      PanicLoses(Run(INIT, actions[..n]), actions[n]);
    }
  }

  /** A run accounts for every accepted alert exactly when no delivery in it was the last failing one of an
      alert without a Details map. */
  lemma ConservedIffNoPanic(actions: seq<Action>)
    ensures Conserved(Run(INIT, actions)) <==> !SomeStepPanics(actions)
  {
    CrashedRunLost(actions);
    CrashedIffPanicked(actions);
    if !Run(INIT, actions).crashed {
      RunConserves(actions);
    }
  }

  predicate AllDetailed(items: seq<Item>) { forall i :: 0 <= i < |items| ==> items[i].alert.details.Some? }

  predicate Detailed(s: State) {
    !s.crashed && AllDetailed(s.queue) && AllDetailed(s.busy) && AllDetailed(s.waiting)
  }

  predicate AcceptsDetailed(actions: seq<Action>) {
    forall a <- actions :: a.Accept? ==> a.alert.details.Some?
  }

  lemma StepKeepsDetailed(s: State, a: Action)
    requires Detailed(s) && (a.Accept? ==> a.alert.details.Some?)
    ensures Detailed(Step(s, a))
  {
  }

  lemma {:induction false} RunKeepsDetailed(s: State, actions: seq<Action>)
    requires Detailed(s) && AcceptsDetailed(actions)
    ensures Detailed(Run(s, actions))
  {
    if actions != [] {
      var n := |actions| - 1;
      RunKeepsDetailed(s, actions[..n]);
      StepKeepsDetailed(Run(s, actions[..n]), actions[n]);
    }
  }

  /** When every accepted alert has its Details map, none is ever lost or duplicated. */
  lemma NothingIsLost(actions: seq<Action>)
    requires AcceptsDetailed(actions)
    ensures Conserved(Run(INIT, actions))
  {
    RunKeepsDetailed(INIT, actions);
    RunConserves(actions);
  }

  // ---- How often and how long an alert is tried ----

  /** The number of deliveries an alert is allowed; one is always tried. */
  function Limit(a: Alert): nat {
    if a.maxAttempts - a.attempts <= 1 then 1 else a.maxAttempts - a.attempts
  }

  /** The backoffs before the first `n` retries, added up. */
  function Waits(start: int, n: nat): int {
    if n == 0 then 0 else Waits(start, n - 1) + Backoff(start + n)
  }

  predicate Tracked(item: Item) {
    && item.first.maxAttempts != 0
    && item.alert == item.first.(attempts := item.first.attempts + item.runs, details := item.alert.details)
  }

  predicate Pending(item: Item) {
    && Tracked(item)
    && (item.runs == 0 || item.alert.attempts < item.alert.maxAttempts)
    && item.waited == Waits(item.first.attempts, item.runs)
  }

  predicate Ended(item: Item) {
    && Tracked(item)
    && 1 <= item.runs <= Limit(item.first)
    && item.waited == Waits(item.first.attempts, item.runs - 1)
  }

  predicate Exhausted(item: Item) { Ended(item) && item.runs == Limit(item.first) }

  predicate AllPending(items: seq<Item>) { forall i :: 0 <= i < |items| ==> Pending(items[i]) }
  predicate AllEnded(items: seq<Item>) { forall i :: 0 <= i < |items| ==> Ended(items[i]) }
  predicate AllExhausted(items: seq<Item>) { forall i :: 0 <= i < |items| ==> Exhausted(items[i]) }

  predicate Inv(s: State) {
    && AllPending(s.queue) && AllPending(s.busy) && AllPending(s.waiting)
    && AllEnded(s.finished) && AllExhausted(s.dead)
  }

  lemma TriedEnds(item: Item)
    requires Pending(item)
    ensures Ended(Tried(item))
    ensures Tried(item).alert.attempts >= Tried(item).alert.maxAttempts ==> Exhausted(Tried(item))
  {
  }

  lemma RetryIsPending(item: Item)
    requires Ended(item) && item.alert.attempts < item.alert.maxAttempts
    ensures Pending(item.(waited := item.waited + Backoff(item.alert.attempts)))
  {
  }

  lemma SettledKeepsInv(s: State, item: Item, outcomes: seq<bool>)
    requires Inv(s) && Ended(item)
    requires item.alert.attempts >= item.alert.maxAttempts ==> Exhausted(item)
    ensures Inv(Settled(s, item, outcomes))
  {
    if item.alert.attempts < item.alert.maxAttempts {
      RetryIsPending(item);
    }
  }

  lemma StepKeepsInv(s: State, a: Action)
    requires Inv(s)
    ensures Inv(Step(s, a))
  {
    if a.Deliver? && a.i < |s.busy| {
      TriedEnds(s.busy[a.i]);
      SettledKeepsInv(s.(busy := Without(s.busy, a.i)), Tried(s.busy[a.i]), a.outcomes);
    }
  }

  lemma {:induction false} RunKeepsInv(actions: seq<Action>)
    ensures Inv(Run(INIT, actions))
  {
    if actions != [] {
      var n := |actions| - 1;
      RunKeepsInv(actions[..n]);
      StepKeepsInv(Run(INIT, actions[..n]), actions[n]);
    }
  }

  /** No alert is delivered more often than allowed, wherever it is. */
  lemma TriedAtMostLimit(actions: seq<Action>, item: Item)
    requires var s := Run(INIT, actions); item in s.queue + s.busy + s.waiting + s.dead + s.finished
    ensures item.runs <= Limit(item.first)
  {
    RunKeepsInv(actions);
  }

  lemma {:induction false} Pow2Grows(n: nat, m: nat)
    requires n <= m
    ensures Pow2(n) <= Pow2(m)
    decreases m
  {
    if n < m {
      Pow2Grows(n, m - 1);
    }
  }

  lemma Pow2At()
    ensures Pow2(27) == 0x800_0000 && Pow2(28) == 0x1000_0000
  {
    assert Pow2(7) == 128;
    assert Pow2(14) == 0x4000;
    assert Pow2(21) == 0x20_0000;
  }

  /** What is waited, as a 64-bit count of nanoseconds: nothing for a shift below 0 or above 63, else 2^(attempts-1)
      minutes up to a multiple of 2^64. */
  lemma BackoffMeans(attempts: int)
    ensures -0x8000_0000_0000_0000 <= Backoff(attempts) < 0x8000_0000_0000_0000
    ensures !(1 <= attempts <= 64) ==> Backoff(attempts) == 0
    ensures 1 <= attempts <= 64 ==>
      (Pow2(attempts - 1) * 60_000_000_000 - Backoff(attempts)) % 0x1_0000_0000_0000_0000 == 0
  {
  }

  /** The n-th retry waits 2^(n-1) minutes exactly up to the 28th; from the 29th on the product wraps. */
  lemma BackoffExactIff(attempts: nat)
    requires attempts >= 1
    ensures Backoff(attempts) == Pow2(attempts - 1) * 60_000_000_000 <==> attempts <= 28
  {
    Pow2At();
    if attempts <= 28 {
      Pow2Grows(attempts - 1, 27);
    } else {
      Pow2Grows(28, attempts - 1);
    }
  }

  lemma {:induction false} WaitsClosed(n: nat)
    requires n <= 28
    ensures Waits(0, n) == (Pow2(n) - 1) * MINUTE
  {
    if n > 0 {
      WaitsClosed(n - 1);
      BackoffExactIff(n);
    }
  }

  /** A dead-lettered fresh alert was tried `maxAttempts` times and waited 2^(maxAttempts-1)-1 minutes in all. */
  lemma DeadLetterHistory(actions: seq<Action>, item: Item)
    requires item in Run(INIT, actions).dead && item.first.attempts == 0 && item.first.maxAttempts >= 1
    ensures item.runs == item.first.maxAttempts
    ensures item.first.maxAttempts <= 29 ==>
      item.waited == (Pow2(item.first.maxAttempts - 1) - 1) * 60_000_000_000
  {
    RunKeepsInv(actions);
    if item.first.maxAttempts <= 29 {
      WaitsClosed(item.first.maxAttempts - 1);
    }
  }

  // ---- Exactly when alerts can be lost ----

  predicate NoneAccepted(actions: seq<Action>) { forall a <- actions :: !a.Accept? }

  lemma RunSnoc(s: State, actions: seq<Action>, a: Action)
    ensures Run(s, actions + [a]) == Step(Run(s, actions), a)
  {
    assert (actions + [a])[..|actions|] == actions;
  }

  lemma {:induction false} RunConcat(s: State, before: seq<Action>, after: seq<Action>)
    ensures Run(s, before + after) == Run(Run(s, before), after)
    decreases |after|
  {
    if after == [] {
      assert before + after == before;
    } else {
      var n := |after| - 1;
      RunConcat(s, before, after[..n]);
      assert (before + after)[..|before + after| - 1] == before + after[..n];
    }
  }

  /** Deliveries left before an alert's last one. */
  function Left(item: Item): nat {
    if item.alert.attempts + 1 >= item.alert.maxAttempts then 0
    else item.alert.maxAttempts - item.alert.attempts - 1
  }

  lemma Prepend(s: State, a: Action, rest: seq<Action>)
    requires !a.Accept? && NoneAccepted(rest)
    ensures NoneAccepted([a] + rest) && Run(s, [a] + rest) == Run(Step(s, a), rest)
  {
    RunConcat(s, [a], rest);
    RunSnoc(s, [], a);
    assert [] + [a] == [a];
  }

  /** A worker's alert without a Details map can be failed until the process panics. */
  lemma {:induction false} BusyCanPanic(s: State, i: nat) returns (actions: seq<Action>)
    requires !s.crashed && i < |s.busy| && s.busy[i].alert.details.None?
    ensures NoneAccepted(actions) && Run(s, actions).crashed
    decreases Left(s.busy[i]), 0, 0
  {
    var a := Deliver(i, [false]);
    var rest := [];
    if Left(s.busy[i]) > 0 {
      rest := WaitingCanPanic(Step(s, a), |s.waiting|);
    }
    Prepend(s, a, rest);
    actions := [a] + rest;
  }

  lemma {:induction false} WaitingCanPanic(s: State, i: nat) returns (actions: seq<Action>)
    requires !s.crashed && i < |s.waiting| && s.waiting[i].alert.details.None?
    ensures NoneAccepted(actions) && Run(s, actions).crashed
    decreases Left(s.waiting[i]), 2, 0
  {
    var rest := QueuedCanPanic(Step(s, Fire(i)), 0);
    Prepend(s, Fire(i), rest);
    actions := [Fire(i)] + rest;
  }

  /** Workers take everything behind it first. */
  lemma {:induction false} QueuedCanPanic(s: State, i: nat) returns (actions: seq<Action>)
    requires !s.crashed && i < |s.queue| && s.queue[i].alert.details.None?
    ensures NoneAccepted(actions) && Run(s, actions).crashed
    decreases Left(s.queue[i]), 1, |s.queue|
  {
    var rest;
    if i == |s.queue| - 1 {
      rest := BusyCanPanic(Step(s, Take), |s.busy|);
    } else {
      rest := QueuedCanPanic(Step(s, Take), i);
    }
    Prepend(s, Take, rest);
    actions := [Take] + rest;
  }

  lemma UndetailedCanPanic(s: State) returns (actions: seq<Action>)
    requires !s.crashed && !Detailed(s)
    ensures NoneAccepted(actions) && Run(s, actions).crashed
  {
    if !AllDetailed(s.busy) {
      var i :| 0 <= i < |s.busy| && s.busy[i].alert.details.None?;
      actions := BusyCanPanic(s, i);
    } else if !AllDetailed(s.queue) {
      var i :| 0 <= i < |s.queue| && s.queue[i].alert.details.None?;
      actions := QueuedCanPanic(s, i);
    } else {
      var i :| 0 <= i < |s.waiting| && s.waiting[i].alert.details.None?;
      actions := WaitingCanPanic(s, i);
    }
  }

  /** Some way of working on what has been accepted so far loses an alert. */
  ghost predicate CanLose(before: seq<Action>) {
    exists after :: NoneAccepted(after) && !Conserved(Run(INIT, before + after))
  }

  /** After any run that has not panicked, alerts can be lost exactly when one of those queued, in process or
      awaiting retry has no Details map: the whole process depends on every one of them. */
  lemma CanLoseIff(before: seq<Action>)
    requires !SomeStepPanics(before)
    ensures var s := Run(INIT, before);
      CanLose(before) <==> exists item <- s.queue + s.busy + s.waiting :: item.alert.details.None?
  {
    CrashedIffPanicked(before);
    var s := Run(INIT, before);
    assert Detailed(s) <==> forall item <- s.queue + s.busy + s.waiting :: item.alert.details.Some?;
    if Detailed(s) {
      forall after | NoneAccepted(after)
        ensures Conserved(Run(INIT, before + after))
      {
        RunKeepsDetailed(s, after);
        RunConcat(INIT, before, after);
        RunConserves(before + after);
      }
    } else {
      var after := UndetailedCanPanic(s);
      RunConcat(INIT, before, after);
      CrashedRunLost(before + after);
    }
  }

  lemma RunOfFive(a: Action, b: Action, c: Action, d: Action, e: Action)
    ensures Run(INIT, [a, b, c, d, e]) == Step(Step(Step(Step(Step(INIT, a), b), c), d), e)
  {
    assert [] + [a] == [a] && [a] + [b] == [a, b] && [a, b] + [c] == [a, b, c];
    assert [a, b, c] + [d] == [a, b, c, d] && [a, b, c, d] + [e] == [a, b, c, d, e];
    RunSnoc(INIT, [], a);
    RunSnoc(INIT, [a], b);
    RunSnoc(INIT, [a, b], c);
    RunSnoc(INIT, [a, b, c], d);
    RunSnoc(INIT, [a, b, c, d], e);
  }

  lemma BothTaken(a: Alert, b: Alert)
    ensures var s := Step(Step(Step(Step(INIT, Accept(a)), Accept(b)), Take), Take);
      && !s.crashed && s.queue == [] && s.waiting == [] && s.dead == [] && s.finished == []
      && |s.busy| == 2 && s.busy[1].alert == Prepared(b)
  {
    var s2 := Accepted(Accepted(INIT, a), b);
    assert |s2.queue| == 2 && s2.queue[0].alert == Prepared(b);
  }

  /** One alert without a Details map takes down another, whether or not that one has its own. */
  lemma AnotherAlertCanBeLost(a: Alert, b: Alert)
    requires b.attempts == 0 && b.maxAttempts == 1 && b.details.None?
    ensures var s := Run(INIT, [Accept(a), Accept(b), Take, Take, Deliver(1, [false])]);
            s.crashed && Places(s, 0) == 0
  {
    RunOfFive(Accept(a), Accept(b), Take, Take, Deliver(1, [false]));
    BothTaken(a, b);
  }

  // ---- Redaction ----

  predicate Clean(a: Alert) {
    a.details.Some? ==>
      forall k <- a.details.value :: k in SENSITIVE_KEYS ==> a.details.value[k] == Redacted
  }

  predicate AllClean(items: seq<Item>) { forall i :: 0 <= i < |items| ==> Clean(items[i].alert) }

  predicate NoSecrets(s: State) {
    AllClean(s.queue) && AllClean(s.busy) && AllClean(s.waiting) && AllClean(s.dead) && AllClean(s.finished)
  }

  lemma BuriedIsClean(item: Item)
    requires item.alert.details.Some? && Clean(item.alert)
    ensures Clean(Buried(item).alert)
  {
    assert "delivery_errors" !in SENSITIVE_KEYS && "failed_at" !in SENSITIVE_KEYS;
  }

  lemma SettledIsClean(s: State, item: Item, outcomes: seq<bool>)
    requires NoSecrets(s) && Clean(item.alert)
    ensures NoSecrets(Settled(s, item, outcomes))
  {
    if item.alert.details.Some? {
      BuriedIsClean(item);
    }
  }

  lemma StepKeepsNoSecrets(s: State, a: Action)
    requires NoSecrets(s)
    ensures NoSecrets(Step(s, a))
  {
    if a.Deliver? && a.i < |s.busy| {
      SettledIsClean(s.(busy := Without(s.busy, a.i)), Tried(s.busy[a.i]), a.outcomes);
    }
  }

  /** No sensitive detail of any accepted alert is kept anywhere, in Redis or in memory. */
  lemma {:induction false} SecretsAreNeverStored(actions: seq<Action>)
    ensures NoSecrets(Run(INIT, actions))
  {
    if actions != [] {
      var n := |actions| - 1;
      SecretsAreNeverStored(actions[..n]);
      StepKeepsNoSecrets(Run(INIT, actions[..n]), actions[n]);
    }
  }

  // ---- The queue object ----

  class AlertQueue {
    var queue: seq<Item>
    var busy: seq<Item>
    var waiting: seq<Item>
    var dead: seq<Item>
    var finished: seq<Item>
    var stats: Stats
    var crashed: bool
    const cache: Dedupe.DedupeCache

    ghost function View(): State
      reads this
    {
      State(queue, busy, waiting, dead, finished, stats, crashed)
    }

    constructor (window: int)
      ensures View() == INIT
      ensures fresh(cache) && cache.sent == map[]
      ensures cache.window == if window == 0 then 5 * MINUTE else window
    {
      queue, busy, waiting, dead, finished := [], [], [], [], [];
      stats, crashed := Stats(0, 0, 0, 0, 0), false;
      cache := new Dedupe.DedupeCache(if window == 0 then 5 * MINUTE else window);
    }

    /** Enqueue: an alert whose key went out within the window is dropped silently. */
    method Enqueue(alert: Alert, now: int)
      requires !crashed
      modifies this, cache
      ensures var key := alert.dedupeKey;
        var duplicate := key != "" && Dedupe.Recent(old(cache.sent), key, now, cache.window);
        && View() == Step(old(View()), if duplicate then Suppress else Accept(alert))
        && cache.sent == if key == "" || duplicate then old(cache.sent) else old(cache.sent)[key := now]
    {
      var ready := alert;
      if ready.maxAttempts == 0 {
        ready := ready.(maxAttempts := 3);
      }
      if ready.dedupeKey != "" {
        var duplicate := cache.IsDuplicate(ready.dedupeKey, now);
        if duplicate {
          stats := stats.(deduplicated := stats.deduplicated + 1);
          return;
        }
        cache.MarkSent(ready.dedupeKey, now);
      }
      if ready.details.Some? {
        var redacted := RedactSensitive(ready.details.value);
        ready := ready.(details := Some(redacted));
        assert redacted == Redact(alert.details.value);
      }
      queue := [Item(stats.enqueued, ready, ready, 0, 0)] + queue;
      stats := stats.(enqueued := stats.enqueued + 1);
    }

    /** A worker takes the oldest queued alert. */
    method Pop()
      requires !crashed
      modifies this
      ensures View() == Step(old(View()), Take)
    {
      if queue != [] {
        var n := |queue| - 1;
        busy := busy + [queue[n]];
        queue := queue[..n];
      }
    }

    /** processAlert for the alert held by worker `i`. */
    method ProcessAlert(i: nat, outcomes: seq<bool>)
      requires !crashed && i < |busy|
      modifies this
      ensures View() == Step(old(View()), Deliver(i, outcomes))
    {
      var item := Tried(busy[i]);
      busy := Without(busy, i);
      var errors, delivered := 0, 0;
      for c := 0 to |outcomes|
        invariant errors > 0 <==> false in outcomes[..c]
        invariant delivered > 0 <==> true in outcomes[..c]
        invariant errors >= 0 && delivered >= 0
        modifies {}
      {
        assert outcomes[..c + 1] == outcomes[..c] + [outcomes[c]];
        if outcomes[c] {
          delivered := delivered + 1;
        } else {
          errors := errors + 1;
        }
      }
      assert outcomes[..|outcomes|] == outcomes;
      if delivered > 0 {
        stats := stats.(delivered := stats.delivered + 1);
      }
      if errors == 0 {
        finished := finished + [item];
      } else if item.alert.attempts < item.alert.maxAttempts {
        RetryAlert(item);
      } else {
        SendToDLQ(item);
      }
    }

    method RetryAlert(item: Item)
      modifies this
      ensures View() == Retried(old(View()), item)
    {
      waiting := waiting + [item.(waited := item.waited + Backoff(item.alert.attempts))];
      stats := stats.(retries := stats.retries + 1);
    }

    method SendToDLQ(item: Item)
      modifies this
      ensures View() == DeadLettered(old(View()), item)
    {
      if item.alert.details.None? {
        busy, waiting, crashed := [], [], true;
        return;
      }
      dead := dead + [Buried(item)];
      stats := stats.(failed := stats.failed + 1);
    }

    /** The timer of the `i`-th waiting alert goes off. */
    method Requeue(i: nat)
      requires !crashed && i < |waiting|
      modifies this
      ensures View() == Step(old(View()), Fire(i))
    {
      queue := [waiting[i]] + queue;
      waiting := Without(waiting, i);
    }
  }
}
