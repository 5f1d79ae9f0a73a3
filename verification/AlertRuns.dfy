/**
 The alert manager over every interleaving of its callers, its delivery loop and its
 cleanup. Creating an alert is two steps: it is stored under the lock, and offered to the
 channel after the lock is released. Ids are taken to be distinct.
 */
module AlertRuns {
  import opened Basics
  import opened Folds

  const CAPACITY: nat := 100
  const RETENTION: uint64 := 604_800

  datatype AlertValue = AlertValue(severity: string, timestamp: uint64, resolved: bool, resolvedAt: uint64)

  type AlertMap = map<string, AlertValue>

  /**
   The map and the two channels, the creators between their two steps, and what became of
   the sends: delivered in this order, or dropped because the channel was full.
   */
  datatype State = State(
    alerts: AlertMap, pending: set<string>,
    alertQueue: seq<string>, delivered: seq<string>, dropped: seq<string>,
    resolveQueue: seq<string>, resolveDelivered: seq<string>, resolveDropped: seq<string>)

  const INITIAL := State(map[], {}, [], [], [], [], [], [])

  datatype Event =
    | Insert(id: string, severity: string, timestamp: uint64)
    | Offer(id: string)
    | Resolve(id: string, now: uint64)
    | Handle
    | HandleResolved
    | Cleanup(now: uint64)

  predicate Resolvable(alerts: AlertMap, id: string) {
    id in alerts && !alerts[id].resolved
  }

  /** Resolved before the cutoff, which wraps in the first seven days of the clock. */
  predicate Stale(a: AlertValue, now: uint64) {
    a.resolved && a.resolvedAt < Sub64(now, RETENTION)
  }

  ghost predicate Enabled(s: State, e: Event) {
    match e
    case Offer(id) => id in s.pending
    case Handle => s.alertQueue != []
    case HandleResolved => s.resolveQueue != []
    case _ => true
  }

  ghost function Next(s: State, e: Event): State
    requires Enabled(s, e)
  {
    match e
    case Insert(id, severity, timestamp) =>
      s.(alerts := s.alerts[id := AlertValue(severity, timestamp, false, 0)], pending := s.pending + {id})
    case Offer(id) =>
      if |s.alertQueue| < CAPACITY then s.(pending := s.pending - {id}, alertQueue := s.alertQueue + [id])
      else s.(pending := s.pending - {id}, dropped := s.dropped + [id])
    case Resolve(id, now) =>
      if !Resolvable(s.alerts, id) then s else
        var marked := s.(alerts := s.alerts[id := s.alerts[id].(resolved := true, resolvedAt := now)]);
        if |s.resolveQueue| < CAPACITY then marked.(resolveQueue := s.resolveQueue + [id])
        else marked.(resolveDropped := s.resolveDropped + [id])
    case Handle =>
      s.(alertQueue := s.alertQueue[1..], delivered := s.delivered + [s.alertQueue[0]])
    case HandleResolved =>
      s.(resolveQueue := s.resolveQueue[1..], resolveDelivered := s.resolveDelivered + [s.resolveQueue[0]])
    case Cleanup(now) =>
      s.(alerts := map id | id in s.alerts && !Stale(s.alerts[id], now) :: s.alerts[id])
  }

  // ---- Runs

  ghost predicate IsRun(states: seq<State>, events: seq<Event>) {
    && |states| == |events| + 1
    && states[0] == INITIAL
    && forall i :: 0 <= i < |events| ==> Enabled(states[i], events[i]) && states[i + 1] == Next(states[i], events[i])
  }

  ghost predicate DistinctIDs(events: seq<Event>) {
    forall i, j :: 0 <= i < j < |events| && events[i].Insert? && events[j].Insert? ==> events[i].id != events[j].id
  }

  function CreatedBy(e: Event): set<string> {
    if e.Insert? then {e.id} else {}
  }

  /** The ids created by the first `k` events. */
  ghost function Created(events: seq<Event>, k: nat): set<string>
    requires k <= |events|
  {
    if k == 0 then {} else Created(events, k - 1) + CreatedBy(events[k - 1])
  }

  lemma {:induction false} CreatedOnce(events: seq<Event>, k: nat, j: nat)
    requires DistinctIDs(events) && k <= j < |events|
    ensures CreatedBy(events[j]) !! Created(events, k)
  {
    if k > 0 {
      CreatedOnce(events, k - 1, j);
    }
  }

  /** The channels never hold more than their capacity. */
  lemma {:induction false} QueuesAreBounded(states: seq<State>, events: seq<Event>, k: nat)
    requires IsRun(states, events) && k <= |events|
    ensures |states[k].alertQueue| <= 100 && |states[k].resolveQueue| <= 100
  {
    if k > 0 {
      QueuesAreBounded(states, events, k - 1);
    }
  }

  // ---- Where the alerts are

  /** Every created alert: not yet offered, waiting, delivered, or dropped. */
  ghost function Whereabouts(s: State): multiset<string> {
    multiset(s.pending) + multiset(s.alertQueue) + multiset(s.delivered) + multiset(s.dropped)
  }

  lemma OfferKeepsAlerts(s: State, id: string)
    requires id in s.pending
    ensures Whereabouts(Next(s, Offer(id))) == Whereabouts(s)
  {
    assert multiset(s.pending) == multiset(s.pending - {id}) + multiset{id};
  }

  lemma HandleKeepsAlerts(s: State)
    requires s.alertQueue != []
    ensures Whereabouts(Next(s, Handle)) == Whereabouts(s)
  {
    assert s.alertQueue == [s.alertQueue[0]] + s.alertQueue[1..];
  }

  lemma InsertAddsAlert(s: State, id: string, severity: string, timestamp: uint64)
    requires id !in Whereabouts(s)
    ensures Whereabouts(Next(s, Insert(id, severity, timestamp))) == Whereabouts(s) + multiset{id}
  {
    assert id !in s.pending;
    assert multiset(s.pending + {id}) == multiset(s.pending) + multiset{id};
  }

  lemma StepKeepsAlerts(s: State, e: Event)
    requires Enabled(s, e) && (e.Insert? ==> e.id !in Whereabouts(s))
    ensures Whereabouts(Next(s, e)) == Whereabouts(s) + if e.Insert? then multiset{e.id} else multiset{}
  {
    match e
    case Insert(id, severity, timestamp) => InsertAddsAlert(s, id, severity, timestamp);
    case Offer(id) => OfferKeepsAlerts(s, id);
    case Handle => HandleKeepsAlerts(s);
    case _ =>
  }

  lemma NewMember(created: set<string>, id: string)
    requires id !in created
    ensures multiset(created + {id}) == multiset(created) + multiset{id}
  {
  }

  lemma ConservedStep(s: State, e: Event, created: set<string>)
    requires Enabled(s, e) && CreatedBy(e) !! created
    requires Whereabouts(s) == multiset(created)
    ensures Whereabouts(Next(s, e)) == multiset(created + CreatedBy(e))
  {
    if e.Insert? {
      assert e.id in CreatedBy(e);
      NewMember(created, e.id);
    } else {
      assert created + CreatedBy(e) == created;
    }
    StepKeepsAlerts(s, e);
  }

  /**
   Conservation: after any run every created alert is in exactly one place, once. So the
   completed sends split into waiting, delivered and dropped, and no alert is delivered twice.
   */
  lemma {:induction false} AlertsAreConserved(states: seq<State>, events: seq<Event>, k: nat)
    requires IsRun(states, events) && DistinctIDs(events) && k <= |events|
    ensures Whereabouts(states[k]) == multiset(Created(events, k))
  {
    if k > 0 {
      AlertsAreConserved(states, events, k - 1);
      CreatedOnce(events, k - 1, k - 1);
      ConservedStep(states[k - 1], events[k - 1], Created(events, k - 1));
    }
  }

  /** What one event puts into the alert channel. */
  ghost function AdmittedBy(s: State, e: Event): seq<string> {
    if e.Offer? && |s.alertQueue| < 100 then [e.id] else []
  }

  /** What one event puts into the resolve channel. */
  ghost function ResolveAdmittedBy(s: State, e: Event): seq<string> {
    if e.Resolve? && e.id in s.alerts && !s.alerts[e.id].resolved && |s.resolveQueue| < 100 then [e.id] else []
  }

  /** The ids that found room in the alert channel, in the order of their sends. */
  ghost function Admitted(states: seq<State>, events: seq<Event>, k: nat): seq<string>
    requires |states| == |events| + 1 && k <= |events|
  {
    if k == 0 then [] else Admitted(states, events, k - 1) + AdmittedBy(states[k - 1], events[k - 1])
  }

  /** The resolutions that found room in theirs. */
  ghost function ResolvesAdmitted(states: seq<State>, events: seq<Event>, k: nat): seq<string>
    requires |states| == |events| + 1 && k <= |events|
  {
    if k == 0 then [] else ResolvesAdmitted(states, events, k - 1) + ResolveAdmittedBy(states[k - 1], events[k - 1])
  }

  lemma StepKeepsOrder(s: State, e: Event)
    requires Enabled(s, e)
    ensures Next(s, e).delivered + Next(s, e).alertQueue == s.delivered + s.alertQueue + AdmittedBy(s, e)
    ensures Next(s, e).resolveDelivered + Next(s, e).resolveQueue ==
            s.resolveDelivered + s.resolveQueue + ResolveAdmittedBy(s, e)
  {
  }

  /** Each channel delivers what it admitted, in order: what is out and what waits make up the sends. */
  lemma {:induction false} DeliveryIsInOrder(states: seq<State>, events: seq<Event>, k: nat)
    requires IsRun(states, events) && k <= |events|
    ensures Admitted(states, events, k) == states[k].delivered + states[k].alertQueue
    ensures ResolvesAdmitted(states, events, k) == states[k].resolveDelivered + states[k].resolveQueue
  {
    if k > 0 {
      DeliveryIsInOrder(states, events, k - 1);
      StepKeepsOrder(states[k - 1], events[k - 1]);
    }
  }

  // ---- What is resolved, and what cleanup may remove

  /** Every resolution: waiting, delivered, or dropped. */
  ghost function Resolutions(s: State): multiset<string> {
    multiset(s.resolveQueue) + multiset(s.resolveDelivered) + multiset(s.resolveDropped)
  }

  /** One resolution at most for each created alert; exactly the alerts without one are active. */
  ghost predicate ResolvedOnce(s: State, created: set<string>) {
    && s.alerts.Keys <= created
    && Resolutions(s) <= multiset(created)
    && (forall id :: id in created ==> (Resolvable(s.alerts, id) <==> id !in Resolutions(s)))
  }

  lemma ResolveStep(s: State, id: string, now: uint64, created: set<string>)
    requires ResolvedOnce(s, created)
    ensures ResolvedOnce(Next(s, Resolve(id, now)), created)
  {
    var t := Next(s, Resolve(id, now));
    assert Resolutions(t) == Resolutions(s) + if Resolvable(s.alerts, id) then multiset{id} else multiset{};
  }

  lemma DeliverResolveStep(s: State, created: set<string>)
    requires ResolvedOnce(s, created) && s.resolveQueue != []
    ensures ResolvedOnce(Next(s, HandleResolved), created)
  {
    assert s.resolveQueue == [s.resolveQueue[0]] + s.resolveQueue[1..];
    assert Resolutions(Next(s, HandleResolved)) == Resolutions(s);
  }

  lemma InsertStep(s: State, id: string, severity: string, timestamp: uint64, created: set<string>)
    requires ResolvedOnce(s, created) && id !in created
    ensures ResolvedOnce(Next(s, Insert(id, severity, timestamp)), created + {id})
  {
    var t := Next(s, Insert(id, severity, timestamp));
    NewMember(created, id);
    assert Resolutions(t) == Resolutions(s) && id !in Resolutions(s);
  }

  lemma CleanupStep(s: State, now: uint64, created: set<string>)
    requires ResolvedOnce(s, created)
    ensures ResolvedOnce(Next(s, Cleanup(now)), created)
  {
    assert Resolutions(Next(s, Cleanup(now))) == Resolutions(s);
  }

  lemma ResolvedOnceStep(s: State, e: Event, created: set<string>)
    requires Enabled(s, e) && CreatedBy(e) !! created
    requires ResolvedOnce(s, created)
    ensures ResolvedOnce(Next(s, e), created + CreatedBy(e))
  {
    assert !e.Insert? ==> created + CreatedBy(e) == created;
    match e
    case Insert(id, severity, timestamp) =>
      assert id in CreatedBy(e);
      InsertStep(s, id, severity, timestamp, created);
    case Offer(id) => assert Resolutions(Next(s, e)) == Resolutions(s);
    case Resolve(id, now) => ResolveStep(s, id, now, created);
    case Handle => assert Resolutions(Next(s, e)) == Resolutions(s);
    case HandleResolved => DeliverResolveStep(s, created);
    case Cleanup(now) => CleanupStep(s, now, created);
  }

  /**
   The resolution of an alert is sent at most once, and an alert stays in the map, open,
   until it has been: cleanup never removes an unresolved alert.
   */
  lemma {:induction false} ResolutionsAreUnique(states: seq<State>, events: seq<Event>, k: nat)
    requires IsRun(states, events) && DistinctIDs(events) && k <= |events|
    ensures ResolvedOnce(states[k], Created(events, k))
  {
    if k > 0 {
      ResolutionsAreUnique(states, events, k - 1);
      CreatedOnce(events, k - 1, k - 1);
      ResolvedOnceStep(states[k - 1], events[k - 1], Created(events, k - 1));
    }
  }

  /** From the seventh day of the clock on, exactly the alerts resolved longer ago than that go. */
  lemma CleanupRemovesOldResolved(s: State, now: uint64, id: string)
    requires now >= 604_800 && id in s.alerts
    ensures id in Next(s, Cleanup(now)).alerts <==> !(s.alerts[id].resolved && now - s.alerts[id].resolvedAt > 604_800)
    ensures id in Next(s, Cleanup(now)).alerts ==> Next(s, Cleanup(now)).alerts[id] == s.alerts[id]
  {
  }

  /** Before that the cutoff has wrapped: every alert resolved so far goes at once. */
  lemma CleanupWrapsAtFirst(s: State, now: uint64, id: string)
    requires now < 604_800 && id in s.alerts && s.alerts[id].resolvedAt <= now
    ensures id in Next(s, Cleanup(now)).alerts <==> !s.alerts[id].resolved
  {
  }

  // ---- What a run leaves of an alert

  lemma {:induction false} CreatedGrows(events: seq<Event>, j: nat, k: nat)
    requires j <= k <= |events|
    ensures Created(events, j) <= Created(events, k)
    decreases k
  {
    if j < k { CreatedGrows(events, j, k - 1); }
  }

  /** An alert that was ever stored is not inserted again. */
  lemma StoredIsNotInserted(states: seq<State>, events: seq<Event>, j: nat, k: nat, id: string)
    requires IsRun(states, events) && DistinctIDs(events) && j <= k < |events|
    requires id in states[j].alerts
    ensures !(events[k].Insert? && events[k].id == id)
  {
    ResolutionsAreUnique(states, events, j);
    CreatedGrows(events, j, k);
    CreatedOnce(events, k, k);
    assert id in Created(events, k);
  }

  /** A stored alert has the severity and the time stamp it was created with. */
  lemma {:induction false} StoredAsInserted(states: seq<State>, events: seq<Event>, k: nat, id: string)
    requires IsRun(states, events) && DistinctIDs(events) && k <= |events| && id in states[k].alerts
    ensures exists i :: 0 <= i < k &&
              events[i] == Insert(id, states[k].alerts[id].severity, states[k].alerts[id].timestamp)
  {
    if k > 0 && id in states[k - 1].alerts {
      StoredAsInserted(states, events, k - 1, id);
      StoredIsNotInserted(states, events, k - 1, k - 1, id);
    } else if k > 0 {
      assert events[k - 1] == Insert(id, states[k].alerts[id].severity, states[k].alerts[id].timestamp);
    }
  }

  /** Event `j` resolves the alert: it finds it stored and open. */
  ghost predicate Resolves(states: seq<State>, events: seq<Event>, j: int, id: string)
    requires |states| == |events| + 1 && 0 <= j < |events|
  {
    events[j].Resolve? && events[j].id == id && id in states[j].alerts && !states[j].alerts[id].resolved
  }

  /** A stored alert is resolved exactly when some event has resolved it, and carries the time of that event. */
  lemma {:induction false} ResolvedByItsEvent(states: seq<State>, events: seq<Event>, k: nat, id: string)
    requires IsRun(states, events) && DistinctIDs(events) && k <= |events| && id in states[k].alerts
    ensures states[k].alerts[id].resolved <==> exists j :: 0 <= j < k && Resolves(states, events, j, id)
    ensures forall j :: 0 <= j < k && Resolves(states, events, j, id) ==> states[k].alerts[id].resolvedAt == events[j].now
  {
    if k > 0 && id in states[k - 1].alerts {
      ResolvedByItsEvent(states, events, k - 1, id);
      StoredIsNotInserted(states, events, k - 1, k - 1, id);
      ResolvedAtOneStep(states[k - 1], events[k - 1], id);
      if Resolves(states, events, k - 1, id) {
        assert states[k].alerts[id].resolved;
      }
    } else if k > 0 {
      forall j | 0 <= j < k ensures !Resolves(states, events, j, id) {
        if Resolves(states, events, j, id) {
          StoredIsNotInserted(states, events, j, k - 1, id);
        }
      }
    }
  }

  /** What one event does to a stored alert that it does not insert. */
  lemma ResolvedAtOneStep(s: State, e: Event, id: string)
    requires Enabled(s, e) && id in s.alerts && !(e.Insert? && e.id == id)
    ensures var after := Next(s, e).alerts;
            var resolves := e.Resolve? && e.id == id && !s.alerts[id].resolved;
            && (id !in after ==> e.Cleanup?)
            && (id in after ==>
                  after[id] == if resolves then s.alerts[id].(resolved := true, resolvedAt := e.now) else s.alerts[id])
  {
  }

  /** A cleanup, if event `m` is one, keeps an alert resolved at `t`. */
  predicate KeptByCleanup(events: seq<Event>, m: int, t: uint64)
    requires 0 <= m < |events|
  {
    events[m].Cleanup? ==>
      if events[m].now >= 604_800 then events[m].now - t <= 604_800
      else t >= events[m].now + 0x1_0000_0000_0000_0000 - 604_800
  }

  /**
   How long a resolved alert is kept: until the first cleanup more than seven days after the
   event that resolved it, and no longer. While the clock stands in its first seven days the
   cutoff has wrapped, and a cleanup keeps only stamps from the far end of the clock.
   */
  lemma {:induction false} RetentionDecided(states: seq<State>, events: seq<Event>, j: nat, k: nat, id: string)
    requires IsRun(states, events) && DistinctIDs(events) && j < k <= |events|
    requires Resolves(states, events, j, id)
    ensures id in states[k].alerts <==> forall m :: j < m < k ==> KeptByCleanup(events, m, events[j].now)
    ensures id in states[k].alerts ==> states[k].alerts[id].resolved && states[k].alerts[id].resolvedAt == events[j].now
    decreases k
  {
    if j + 1 < k {
      RetentionDecided(states, events, j, k - 1, id);
      StoredIsNotInserted(states, events, j, k - 1, id);
      RetentionStep(states[k - 1], events, k - 1, id, events[j].now);
    }
  }

  lemma RetentionStep(s: State, events: seq<Event>, m: nat, id: string, t: uint64)
    requires m < |events| && Enabled(s, events[m]) && !(events[m].Insert? && events[m].id == id)
    requires id in s.alerts ==> s.alerts[id].resolved && s.alerts[id].resolvedAt == t
    ensures id in Next(s, events[m]).alerts <==> id in s.alerts && KeptByCleanup(events, m, t)
    ensures id in Next(s, events[m]).alerts ==> Next(s, events[m]).alerts[id] == s.alerts[id]
  {
  }

  /**
   In a run whose clock has passed its seventh day when the cleanups run, an alert is still
   there after every cleanup at most seven days after its resolution, and gone after the
   first one later than that.
   */
  lemma SevenDays(states: seq<State>, events: seq<Event>, j: nat, k: nat, id: string)
    requires IsRun(states, events) && DistinctIDs(events) && j < k <= |events|
    requires Resolves(states, events, j, id)
    requires forall m :: j < m < k && events[m].Cleanup? ==> events[m].now >= 604_800
    ensures id in states[k].alerts <==>
            forall m :: j < m < k && events[m].Cleanup? ==> events[m].now - events[j].now <= 604_800
  {
    RetentionDecided(states, events, j, k, id);
    forall m | j < m < k
      ensures KeptByCleanup(events, m, events[j].now) <==>
              (events[m].Cleanup? ==> events[m].now - events[j].now <= 604_800)
    {
    }
  }

  // ---- Counting

  ghost function Matching(severity: string, resolved: bool): AlertValue -> int {
    (a: AlertValue) => if (severity == "" || a.severity == severity) && a.resolved == resolved then 1 else 0
  }

  ghost function HasSeverity(severity: string): AlertValue -> int {
    (a: AlertValue) => if a.severity == severity then 1 else 0
  }

  lemma MatchingCounts(alerts: AlertMap, severity: string, resolved: bool)
    ensures SumOver(alerts, Matching(severity, resolved)) ==
            |set id | id in alerts && (severity == "" || alerts[id].severity == severity)
                      && alerts[id].resolved == resolved|
  {
    var matching := set id | id in alerts && (severity == "" || alerts[id].severity == severity)
                             && alerts[id].resolved == resolved;
    CountIsCardinality(alerts, Matching(severity, resolved), matching);
  }

  lemma SeverityCounts(alerts: AlertMap, severity: string)
    ensures SumOver(alerts, HasSeverity(severity)) == |set id | id in alerts && alerts[id].severity == severity|
  {
    CountIsCardinality(alerts, HasSeverity(severity), set id | id in alerts && alerts[id].severity == severity);
  }

  lemma OpenCounts(alerts: AlertMap, resolved: bool)
    ensures SumOver(alerts, Matching("", resolved)) == |set id | id in alerts && alerts[id].resolved == resolved|
  {
    CountIsCardinality(alerts, Matching("", resolved), set id | id in alerts && alerts[id].resolved == resolved);
  }

  /** Open and resolved alerts, in the terms of an unlimited listing, make up the map. */
  lemma OpenAndResolvedMakeTotal(alerts: AlertMap)
    ensures SumOver(alerts, Matching("", false)) + SumOver(alerts, Matching("", true)) == |alerts|
  {
    var one := (a: AlertValue) => 1;
    SumOverConstant(alerts, one, 1);
    SumOverAdd(alerts, one, Matching("", false), Matching("", true));
  }

  predicate KnownSeverity(severity: string) {
    severity == "critical" || severity == "high" || severity == "medium" || severity == "low"
  }

  ghost function KnownBit(a: AlertValue): int {
    if KnownSeverity(a.severity) then 1 else 0
  }

  lemma KnownBitSplits(a: AlertValue)
    ensures KnownBit(a) == HasSeverity("critical")(a) + HasSeverity("high")(a) + HasSeverity("medium")(a) + HasSeverity("low")(a)
  {
    assert "critical"[0] != "high"[0] && "critical"[0] != "medium"[0] && "critical"[0] != "low"[0];
    assert "high"[0] != "medium"[0] && "high"[0] != "low"[0] && "medium"[0] != "low"[0];
  }

  ghost function CountedBySeverity(alerts: AlertMap): int {
    SumOver(alerts, HasSeverity("critical")) + SumOver(alerts, HasSeverity("high")) +
    SumOver(alerts, HasSeverity("medium")) + SumOver(alerts, HasSeverity("low"))
  }

  lemma {:induction false} CountedAreKnown(alerts: AlertMap)
    ensures CountedBySeverity(alerts) == SumOver(alerts, KnownBit)
    decreases alerts.Keys
  {
    if alerts.Keys != {} {
      var id :| id in alerts;
      KnownBitSplits(alerts[id]);
      SumOverRemove(alerts, HasSeverity("critical"), id);
      SumOverRemove(alerts, HasSeverity("high"), id);
      SumOverRemove(alerts, HasSeverity("medium"), id);
      SumOverRemove(alerts, HasSeverity("low"), id);
      SumOverRemove(alerts, KnownBit, id);
      CountedAreKnown(alerts - {id});
    }
  }

  /** The four severities account for every alert exactly when no alert carries another one. */
  lemma SeveritiesAccountForAll(alerts: AlertMap)
    ensures var critical := |set id | id in alerts && alerts[id].severity == "critical"|;
            var high := |set id | id in alerts && alerts[id].severity == "high"|;
            var medium := |set id | id in alerts && alerts[id].severity == "medium"|;
            var low := |set id | id in alerts && alerts[id].severity == "low"|;
            && critical + high + medium + low <= |alerts|
            && (critical + high + medium + low == |alerts| <==>
                forall id :: id in alerts ==> alerts[id].severity in {"critical", "high", "medium", "low"})
  {
    SeverityCounts(alerts, "critical");
    SeverityCounts(alerts, "high");
    SeverityCounts(alerts, "medium");
    SeverityCounts(alerts, "low");
    var one := (a: AlertValue) => 1;
    CountedAreKnown(alerts);
    SumOverConstant(alerts, one, 1);
    SumOverMonotone(alerts, KnownBit, one);
    if forall id :: id in alerts ==> KnownSeverity(alerts[id].severity) {
      SumOverMonotone(alerts, one, KnownBit);
    }
  }
}
