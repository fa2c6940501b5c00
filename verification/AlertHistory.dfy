/**
 What becomes of alerts over a whole run of the queue (igris-overture/alerts/alert_sender.go): what each item was
 accepted as, in which order first deliveries are made, where a delivery leaves its alert, and what the counters
 count.
 */
module AlertHistory {
  import opened Options
  import opened AlertQueue

  // ---- What an item was accepted as ----

  /** The alerts that a run accepted, in order. */
  function AcceptedAlerts(actions: seq<Action>): seq<Alert> {
    if actions == [] then []
    else
      var n := |actions| - 1;
      var a := actions[n];
      AcceptedAlerts(actions[..n]) + if a.Accept? && !Run(INIT, actions[..n]).crashed then [a.alert] else []
  }

  /** The sender's details with the sensitive ones masked. */
  predicate MaskedFrom(details: Option<Details>, given: Option<Details>) {
    && (details.Some? <==> given.Some?)
    && (given.Some? ==>
          && details.value.Keys == given.value.Keys
          && forall k <- given.value :: details.value[k] ==
               if k in ["api_key", "api_secret", "password", "token", "client_secret", "private_key", "credential"]
               then Redacted else given.value[k])
  }

  /** What Enqueue makes of an alert: three attempts when none are given, and masked details. */
  predicate AcceptedFrom(first: Alert, alert: Alert) {
    && first.dedupeKey == alert.dedupeKey && first.attempts == alert.attempts
    && first.maxAttempts == (if alert.maxAttempts == 0 then 3 else alert.maxAttempts)
    && MaskedFrom(first.details, alert.details)
  }

  predicate OriginOf(item: Item, alerts: seq<Alert>) {
    item.ticket < |alerts| && AcceptedFrom(item.first, alerts[item.ticket])
  }

  predicate Origins(items: seq<Item>, alerts: seq<Alert>) {
    forall i :: 0 <= i < |items| ==> OriginOf(items[i], alerts)
  }

  predicate AllOrigins(s: State, alerts: seq<Alert>) {
    && |alerts| == s.stats.enqueued
    && Origins(s.queue, alerts) && Origins(s.busy, alerts) && Origins(s.waiting, alerts)
    && Origins(s.dead, alerts) && Origins(s.finished, alerts)
  }

  lemma PreparedIsAccepted(a: Alert)
    ensures AcceptedFrom(Prepared(a), a)
  {
  }

  lemma OriginsGrow(items: seq<Item>, alerts: seq<Alert>, more: seq<Alert>)
    requires Origins(items, alerts)
    ensures Origins(items, alerts + more)
  {
  }

  lemma SettledKeepsOrigins(s: State, item: Item, outcomes: seq<bool>, alerts: seq<Alert>)
    requires AllOrigins(s, alerts) && OriginOf(item, alerts)
    ensures AllOrigins(Settled(s, item, outcomes), alerts)
  {
  }

  lemma StepKeepsOrigins(s: State, a: Action, alerts: seq<Alert>)
    requires AllOrigins(s, alerts)
    ensures AllOrigins(Step(s, a), alerts + if a.Accept? && !s.crashed then [a.alert] else [])
  {
    if a.Accept? && !s.crashed {
      AcceptKeepsOrigins(s, a.alert, alerts);
    } else {
      assert alerts + [] == alerts;
      if a.Deliver? && a.i < |s.busy| {
        assert OriginOf(Tried(s.busy[a.i]), alerts);
        SettledKeepsOrigins(s.(busy := Without(s.busy, a.i)), Tried(s.busy[a.i]), a.outcomes, alerts);
      }
    }
  }

  lemma AcceptKeepsOrigins(s: State, alert: Alert, alerts: seq<Alert>)
    requires AllOrigins(s, alerts)
    ensures AllOrigins(Accepted(s, alert), alerts + [alert])
  {
    PreparedIsAccepted(alert);
    OriginsGrow(s.queue, alerts, [alert]);
    OriginsGrow(s.busy, alerts, [alert]);
    OriginsGrow(s.waiting, alerts, [alert]);
    OriginsGrow(s.dead, alerts, [alert]);
    OriginsGrow(s.finished, alerts, [alert]);
    assert (alerts + [alert])[s.stats.enqueued] == alert;
  }

  /** Every alert anywhere is the one accepted under its ticket, with the defaults filled in and its sensitive
      details masked; and the enqueued counter counts the accepted ones. */
  lemma {:induction false} ItemsAreAcceptedAlerts(actions: seq<Action>)
    ensures AllOrigins(Run(INIT, actions), AcceptedAlerts(actions))
    decreases |actions|
  {
    if actions != [] {
      var n := |actions| - 1;
      ItemsAreAcceptedAlerts(actions[..n]);
      StepKeepsOrigins(Run(INIT, actions[..n]), actions[n], AcceptedAlerts(actions[..n]));
    }
  }

  // ---- Order of first deliveries ----

  /** Alerts not tried yet wait in the order in which they came, the latest first. */
  predicate InOrder(queue: seq<Item>) {
    forall i, j :: 0 <= i < j < |queue| && queue[i].runs == 0 && queue[j].runs == 0 ==>
      queue[i].ticket > queue[j].ticket
  }

  predicate TicketsBelow(items: seq<Item>, n: nat) { forall i :: 0 <= i < |items| ==> items[i].ticket < n }

  predicate AllTried(items: seq<Item>) { forall i :: 0 <= i < |items| ==> items[i].runs > 0 }

  predicate FreshInOrder(s: State) {
    && InOrder(s.queue) && AllTried(s.waiting)
    && TicketsBelow(s.queue, s.stats.enqueued) && TicketsBelow(s.busy, s.stats.enqueued)
    && TicketsBelow(s.waiting, s.stats.enqueued)
  }

  /** Putting an item at the entry keeps the order if it is the latest or has been tried. */
  lemma EntryKeepsOrder(queue: seq<Item>, item: Item)
    requires InOrder(queue) && (item.runs > 0 || TicketsBelow(queue, item.ticket))
    ensures InOrder([item] + queue)
  {
  }

  lemma SettledKeepsFresh(s: State, item: Item, outcomes: seq<bool>)
    requires FreshInOrder(s) && item.ticket < s.stats.enqueued && item.runs > 0
    ensures FreshInOrder(Settled(s, item, outcomes))
  {
  }

  lemma StepKeepsFreshInOrder(s: State, a: Action)
    requires FreshInOrder(s)
    ensures FreshInOrder(Step(s, a))
  {
    if a.Accept? {
      EntryKeepsOrder(s.queue, Accepted(s, a.alert).queue[0]);
    } else if a.Fire? && a.i < |s.waiting| {
      EntryKeepsOrder(s.queue, s.waiting[a.i]);
    } else if a.Deliver? && a.i < |s.busy| {
      SettledKeepsFresh(s.(busy := Without(s.busy, a.i)), Tried(s.busy[a.i]), a.outcomes);
    }
  }

  lemma {:induction false} RunKeepsFreshInOrder(actions: seq<Action>)
    ensures FreshInOrder(Run(INIT, actions))
    decreases |actions|
  {
    if actions != [] {
      var n := |actions| - 1;
      RunKeepsFreshInOrder(actions[..n]);
      StepKeepsFreshInOrder(Run(INIT, actions[..n]), actions[n]);
    }
  }

  /** A worker gets a queued alert, and among those not tried yet the one that came first. */
  lemma OldestIsTakenFirst(actions: seq<Action>, i: nat)
    requires !Run(INIT, actions).crashed && i < |Run(INIT, actions).queue|
    ensures var s, r := Run(INIT, actions), Run(INIT, actions + [Take]);
      && |r.busy| == |s.busy| + 1 && r.busy[..|s.busy|] == s.busy
      && var item := r.busy[|s.busy|];
        && s.queue == r.queue + [item]
        && (item.runs == 0 && s.queue[i].runs == 0 ==> item.ticket <= s.queue[i].ticket)
  {
    RunKeepsFreshInOrder(actions);
    assert (actions + [Take])[..|actions|] == actions;
    LastIsOldest(Run(INIT, actions).queue, i);
  }

  lemma LastIsOldest(queue: seq<Item>, i: nat)
    requires InOrder(queue) && i < |queue|
    ensures var last := queue[|queue| - 1];
      && queue == queue[..|queue| - 1] + [last]
      && (last.runs == 0 && queue[i].runs == 0 ==> last.ticket <= queue[i].ticket)
  {
  }

  // ---- Where a delivery leaves its alert ----

  /** One delivery of the alert held by worker i, as each of its four ends leaves it. */
  lemma DeliveryEnds(s: State, i: nat, outcomes: seq<bool>)
    requires !s.crashed && i < |s.busy|
    ensures var r, x := Step(s, Deliver(i, outcomes)), s.busy[i];
      var tried := x.(runs := x.runs + 1, alert := x.alert.(attempts := x.alert.attempts + 1));
      var attempts := x.alert.attempts + 1;
      && r.queue == s.queue
      && (false !in outcomes ==>
            r.finished == s.finished + [tried] && r.waiting == s.waiting && r.dead == s.dead && !r.crashed)
      && (false in outcomes && attempts < x.alert.maxAttempts ==>
            && r.waiting == s.waiting + [tried.(waited := x.waited + Backoff(attempts))]
            && r.finished == s.finished && r.dead == s.dead && !r.crashed)
      && (false in outcomes && attempts >= x.alert.maxAttempts && x.alert.details.Some? ==>
            && |r.dead| == |s.dead| + 1 && r.dead[..|s.dead|] == s.dead && !r.crashed
            && r.finished == s.finished && r.waiting == s.waiting
            && LettersDetails(r.dead[|s.dead|], tried))
      && (false in outcomes && attempts >= x.alert.maxAttempts && x.alert.details.None? ==>
            r.crashed && r.finished == s.finished && r.dead == s.dead)
  {
  }

  /** A dead letter is the alert with two more details. */
  predicate LettersDetails(letter: Item, tried: Item) {
    && tried.alert.details.Some? && letter.alert.details.Some?
    && letter == tried.(alert := tried.alert.(details := letter.alert.details))
    && var given, kept := tried.alert.details.value, letter.alert.details.value;
      && kept.Keys == given.Keys + {"delivery_errors", "failed_at"}
      && kept["delivery_errors"] == DeliveryErrors && kept["failed_at"] == FailedAt
      && forall k <- given :: k in ["delivery_errors", "failed_at"] || kept[k] == given[k]
  }

  // ---- What the counters count ----

  /** A delivery that a worker really makes. */
  predicate Delivers(s: State, a: Action) { a.Deliver? && !s.crashed && a.i < |s.busy| }

  predicate Retries(s: State, a: Action) {
    && Delivers(s, a) && false in a.outcomes
    && s.busy[a.i].alert.attempts + 1 < s.busy[a.i].alert.maxAttempts
  }

  function Times(yes: bool): nat { if yes then 1 else 0 }

  function CountDelivered(actions: seq<Action>): nat {
    if actions == [] then 0
    else
      var n := |actions| - 1;
      var a := actions[n];
      CountDelivered(actions[..n]) + Times(Delivers(Run(INIT, actions[..n]), a) && true in a.outcomes)
  }

  function CountRetries(actions: seq<Action>): nat {
    if actions == [] then 0
    else
      var n := |actions| - 1;
      CountRetries(actions[..n]) + Times(Retries(Run(INIT, actions[..n]), actions[n]))
  }

  function CountSuppressed(actions: seq<Action>): nat {
    if actions == [] then 0
    else
      var n := |actions| - 1;
      CountSuppressed(actions[..n]) + Times(actions[n].Suppress? && !Run(INIT, actions[..n]).crashed)
  }

  lemma StepCounts(s: State, a: Action)
    ensures var r := Step(s, a).stats;
      && r.delivered == s.stats.delivered + Times(Delivers(s, a) && true in a.outcomes)
      && r.retries == s.stats.retries + Times(Retries(s, a))
      && r.deduplicated == s.stats.deduplicated + Times(a.Suppress? && !s.crashed)
  {
  }

  /** The statistics are the numbers of deliveries with some success, of retries, and of suppressed alerts. */
  lemma {:induction false} StatsAreCounts(actions: seq<Action>)
    ensures var stats := Run(INIT, actions).stats;
      && stats.delivered == CountDelivered(actions) && stats.retries == CountRetries(actions)
      && stats.deduplicated == CountSuppressed(actions)
    decreases |actions|
  {
    if actions != [] {
      var n := |actions| - 1;
      StatsAreCounts(actions[..n]);
      StepCounts(Run(INIT, actions[..n]), actions[n]);
    }
  }
}
