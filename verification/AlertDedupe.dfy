/**
 The alert queue's deduplication cache (igris-overture/alerts/alert_sender.go
 isDuplicate, markSent, cleanupDedupeCache). Time is an integer that never goes
 back; checking and marking a key is one step.
 */
module AlertDedupe {
  type Cache = map<string, int>

  /** The cache remembers the key as sent less than a window ago. */
  predicate Recent(cache: Cache, key: string, now: int, window: int) {
    key in cache && now - cache[key] < window
  }

  function Swept(cache: Cache, now: int, window: int): Cache {
    map k | k in cache && now - cache[k] <= window :: cache[k]
  }

  class DedupeCache {
    var sent: Cache
    const window: int

    constructor (window: int)
      ensures sent == map[] && this.window == window
    {
      sent := map[];
      this.window := window;
    }

    method IsDuplicate(key: string, now: int) returns (duplicate: bool)
      ensures duplicate == Recent(sent, key, now, window)
    {
      if key !in sent {
        return false;
      }
      return now - sent[key] < window;
    }

    method MarkSent(key: string, now: int)
      modifies this
      ensures sent == old(sent)[key := now]
    {
      sent := sent[key := now];
    }

    /** One tick of cleanupDedupeCache; the keys come in no particular order. */
    method Cleanup(now: int)
      modifies this
      ensures sent == Swept(old(sent), now, window)
      ensures forall k :: k in sent <==> k in old(sent) && now - old(sent)[k] <= window
      ensures forall k <- sent :: sent[k] == old(sent)[k]
    {
      var todo := sent.Keys;
      while todo != {}
        invariant todo <= old(sent).Keys
        invariant sent == map k | k in old(sent) && (k in todo || now - old(sent)[k] <= window) :: old(sent)[k]
        decreases |todo|
      {
        var key :| key in todo;
        if now - sent[key] > window {
          sent := sent - {key};
        }
        todo := todo - {key};
      }
    }
  }

  // ---- Runs ----

  datatype Mark = Mark(key: string, time: int)

  datatype Action =
    | Offer(key: string, now: int)
    | Sweep(now: int)

  /** `sent` lists what was let through and marked, `verdicts` the answers given. */
  datatype State = State(cache: Cache, sent: seq<Mark>, verdicts: seq<bool>)

  const INIT := State(map[], [], [])

  /** Alerts without a key are never checked and never marked. */
  function Offered(s: State, key: string, now: int, window: int): State {
    if key == "" then s.(verdicts := s.verdicts + [false])
    else if Recent(s.cache, key, now, window) then s.(verdicts := s.verdicts + [true])
    else State(s.cache[key := now], s.sent + [Mark(key, now)], s.verdicts + [false])
  }

  function Step(s: State, a: Action, window: int): State {
    match a
    case Offer(key, now) => Offered(s, key, now, window)
    case Sweep(now) => s.(cache := Swept(s.cache, now, window))
  }

  function Run(actions: seq<Action>, window: int): State {
    if actions == [] then INIT
    else Step(Run(actions[..|actions| - 1], window), actions[|actions| - 1], window)
  }

  /** The same run with a cache that nothing is ever removed from. */
  function Hoard(actions: seq<Action>, window: int): State {
    if actions == [] then INIT
    else
      var s, a := Hoard(actions[..|actions| - 1], window), actions[|actions| - 1];
      if a.Offer? then Step(s, a, window) else s
  }

  predicate Ordered(actions: seq<Action>) {
    forall i, j :: 0 <= i < j < |actions| ==> actions[i].now <= actions[j].now
  }

  /** Every action so far happened by `now`. */
  predicate By(actions: seq<Action>, now: int) {
    forall a <- actions :: a.now <= now
  }

  // ---- Sweeping loses nothing that matters ----

  /** What the small cache misses is too old to matter from `now` on. */
  predicate Covers(small: Cache, big: Cache, now: int, window: int) {
    && (forall k <- small :: k in big && small[k] == big[k])
    && (forall k <- big :: k in small || now - big[k] > window)
  }

  predicate SameApartFromCache(s: State, t: State, now: int, window: int) {
    s.sent == t.sent && s.verdicts == t.verdicts && Covers(s.cache, t.cache, now, window)
  }

  lemma StepKeepsCover(s: State, t: State, a: Action, now: int, window: int)
    requires SameApartFromCache(s, t, now, window) && now <= a.now
    ensures SameApartFromCache(Step(s, a, window), if a.Offer? then Step(t, a, window) else t, a.now, window)
  {
    if a.Offer? {
      assert Recent(s.cache, a.key, a.now, window) == Recent(t.cache, a.key, a.now, window);
    }
  }

  lemma {:induction false} RunsAgree(actions: seq<Action>, window: int, now: int)
    requires Ordered(actions) && By(actions, now)
    ensures SameApartFromCache(Run(actions, window), Hoard(actions, window), now, window)
  {
    if actions != [] {
      var n := |actions| - 1;
      assert By(actions[..n], actions[n].now);
      RunsAgree(actions[..n], window, actions[n].now);
      StepKeepsCover(Run(actions[..n], window), Hoard(actions[..n], window), actions[n], actions[n].now, window);
    }
  }

  /** Every check is answered, and every alert let through, as without the cleaner. */
  lemma SweepingIsInvisible(actions: seq<Action>, window: int)
    requires Ordered(actions)
    ensures Run(actions, window).verdicts == Hoard(actions, window).verdicts
    ensures Run(actions, window).sent == Hoard(actions, window).sent
  {
    if actions != [] {
      RunsAgree(actions, window, actions[|actions| - 1].now);
    }
  }

  /** After a sweep the cache holds nothing older than the window: it does not grow with the past. */
  lemma SweepBoundsTheCache(actions: seq<Action>, now: int, window: int)
    ensures var cache := Run(actions + [Sweep(now)], window).cache;
      forall k <- cache :: now - cache[k] <= window
  {
    assert (actions + [Sweep(now)])[..|actions|] == actions;
  }

  // ---- What the verdicts mean ----

  /** The big cache holds the latest mark of each key. */
  predicate Latest(t: State, now: int) {
    && (forall m <- t.sent :: m.key in t.cache && m.time <= t.cache[m.key])
    && (forall k <- t.cache :: Mark(k, t.cache[k]) in t.sent && t.cache[k] <= now)
  }

  predicate Spaced(sent: seq<Mark>, window: int) {
    forall i, j :: 0 <= i < j < |sent| && sent[i].key == sent[j].key ==> sent[j].time - sent[i].time >= window
  }

  predicate SentWithin(sent: seq<Mark>, key: string, now: int, window: int) {
    exists m <- sent :: m.key == key && now - m.time < window
  }

  lemma OfferKeepsLatest(t: State, key: string, now: int, window: int)
    requires Latest(t, now) && Spaced(t.sent, window)
    ensures Latest(Offered(t, key, now, window), now) && Spaced(Offered(t, key, now, window).sent, window)
  {
    if key != "" && !Recent(t.cache, key, now, window) {
      var sent := t.sent + [Mark(key, now)];
      forall i, j | 0 <= i < j < |sent| && sent[i].key == sent[j].key
        ensures sent[j].time - sent[i].time >= window
      {
        assert sent[i] in t.sent;
      }
    }
  }

  lemma {:induction false} HoardKeepsLatest(actions: seq<Action>, window: int, now: int)
    requires Ordered(actions) && By(actions, now)
    ensures Latest(Hoard(actions, window), now) && Spaced(Hoard(actions, window).sent, window)
  {
    if actions != [] {
      var n := |actions| - 1;
      assert By(actions[..n], actions[n].now);
      HoardKeepsLatest(actions[..n], window, actions[n].now);
      if actions[n].Offer? {
        OfferKeepsLatest(Hoard(actions[..n], window), actions[n].key, actions[n].now, window);
      }
    }
  }

  /** Two alerts let through under one key are at least a window apart, sweeps or not. */
  lemma SentAreSpaced(actions: seq<Action>, window: int)
    requires Ordered(actions)
    ensures Spaced(Run(actions, window).sent, window)
  {
    if actions != [] {
      SweepingIsInvisible(actions, window);
      HoardKeepsLatest(actions, window, actions[|actions| - 1].now);
    }
  }

  /** After any ordered run an alert is suppressed exactly when one with its key went out within the window. */
  lemma {:induction false} SuppressedIffSentWithin(actions: seq<Action>, key: string, now: int, window: int)
    requires Ordered(actions) && By(actions, now)
    ensures var s := Run(actions, window);
      Recent(s.cache, key, now, window) <==> SentWithin(s.sent, key, now, window)
  {
    RunsAgree(actions, window, now);
    HoardKeepsLatest(actions, window, now);
    var t := Hoard(actions, window);
    if Recent(t.cache, key, now, window) {
      assert Mark(key, t.cache[key]) in t.sent;
    }
  }

  /** After any ordered run, an alert is suppressed exactly when it has a key and one with that key went out within
      the window; let through, it is marked exactly when it has a key. */
  lemma OfferIsAnswered(actions: seq<Action>, key: string, now: int, window: int)
    requires Ordered(actions) && By(actions, now)
    ensures var s, r := Run(actions, window), Run(actions + [Offer(key, now)], window);
      var suppressed := key != "" && SentWithin(s.sent, key, now, window);
      && r.verdicts == s.verdicts + [suppressed]
      && r.sent == if key == "" || suppressed then s.sent else s.sent + [Mark(key, now)]
  {
    assert (actions + [Offer(key, now)])[..|actions|] == actions;
    SuppressedIffSentWithin(actions, key, now, window);
  }
}
