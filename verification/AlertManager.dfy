/** The alert manager's map, its two bounded channels, and the operations on them. */
module AlertManager {
  import opened AlertRuns
  import opened Basics
  import opened Folds

  datatype ResolveError = AlertNotFound | AlreadyResolved

  datatype AlertStats = AlertStats(total: int, active: int, resolved: int, critical: int, high: int, medium: int, low: int)

  class Alert {
    const id: string
    const severity: string
    const timestamp: uint64
    var resolved: bool
    var resolvedAt: uint64

    constructor (id: string, severity: string, timestamp: uint64)
      ensures this.id == id && Value() == AlertValue(severity, timestamp, false, 0)
    {
      this.id, this.severity, this.timestamp := id, severity, timestamp;
      resolved, resolvedAt := false, 0;
    }

    ghost function Value(): AlertValue
      reads this
    {
      AlertValue(severity, timestamp, resolved, resolvedAt)
    }
  }

  ghost function Ids(alerts: seq<Alert>): seq<string> {
    seq(|alerts|, i requires 0 <= i < |alerts| => alerts[i].id)
  }

  class Manager {
    var alerts: map<string, Alert>
    var alertChan: seq<Alert>
    var resolveChan: seq<string>
    ghost var pending: set<string>
    ghost var delivered: seq<string>
    ghost var dropped: seq<string>
    ghost var resolveDelivered: seq<string>
    ghost var resolveDropped: seq<string>

    /** An alert is stored under its own id. */
    ghost predicate Valid()
      reads this
    {
      forall id :: id in alerts ==> alerts[id].id == id
    }

    ghost function AlertValues(): AlertMap
      reads this, alerts.Values
    {
      map id | id in alerts :: alerts[id].Value()
    }

    ghost function View(): State
      reads this, alerts.Values
    {
      State(AlertValues(), pending, Ids(alertChan), delivered, dropped, resolveChan, resolveDelivered, resolveDropped)
    }

    constructor ()
      ensures Valid() && View() == INITIAL
    {
      alerts, alertChan, resolveChan := map[], [], [];
      pending, delivered, dropped, resolveDelivered, resolveDropped := {}, [], [], [], [];
    }

    /** The first half of creating an alert, under the lock. */
    method InsertAlert(id: string, severity: string, timestamp: uint64) returns (alert: Alert)
      requires Valid()
      modifies this
      ensures Valid() && alert.id == id && id in pending
      ensures View() == Next(old(View()), Insert(id, severity, timestamp))
    {
      alert := new Alert(id, severity, timestamp);
      alerts := alerts[id := alert];
      pending := pending + {id};
    }

    /** The second half: a send that never waits and drops the alert when there is no room. */
    method OfferAlert(alert: Alert)
      requires Valid() && alert.id in pending
      modifies this
      ensures Valid()
      ensures View() == Next(old(View()), Offer(alert.id))
    {
      if |alertChan| < CAPACITY {
        alertChan := alertChan + [alert];
      } else {
        dropped := dropped + [alert.id];
      }
      pending := pending - {alert.id};
    }

    /** Both halves, with nothing in between. */
    method CreateAlert(id: string, severity: string, timestamp: uint64)
      requires Valid()
      modifies this
      ensures Valid()
      ensures View() == Next(Next(old(View()), Insert(id, severity, timestamp)), Offer(id))
    {
      var alert := InsertAlert(id, severity, timestamp);
      OfferAlert(alert);
    }

    /** Marks an open alert resolved and sends its id, or drops it, under the same lock. */
    method ResolveAlert(id: string, now: uint64) returns (result: Outcome<(), ResolveError>)
      requires Valid()
      modifies this, if id in alerts then {alerts[id]} else {}
      ensures Valid()
      ensures View() == Next(old(View()), Resolve(id, now))
      ensures result.Returned? <==> id in old(alerts) && !old(alerts[id].resolved)
      ensures result == Failed(AlertNotFound) <==> id !in old(alerts)
      ensures result == Failed(AlreadyResolved) <==> id in old(alerts) && old(alerts[id].resolved)
      ensures !result.Panicked?
    {
      if id !in alerts {
        return Failed(AlertNotFound);
      }
      if alerts[id].resolved {
        return Failed(AlreadyResolved);
      }
      Mark(id, now);
      if |resolveChan| < CAPACITY {
        resolveChan := resolveChan + [id];
      } else {
        resolveDropped := resolveDropped + [id];
      }
      result := Returned(());
    }

    method Mark(id: string, now: uint64)
      requires Valid() && id in alerts
      modifies alerts[id]
      ensures AlertValues() == old(AlertValues())[id := old(AlertValues())[id].(resolved := true, resolvedAt := now)]
    {
      alerts[id].resolved := true;
      alerts[id].resolvedAt := now;
    }

    /** The delivery loop takes the oldest waiting alert. */
    method HandleAlert()
      requires Valid() && alertChan != []
      modifies this
      ensures Valid()
      ensures View() == Next(old(View()), Handle)
    {
      delivered := delivered + [alertChan[0].id];
      alertChan := alertChan[1..];
    }

    /** The delivery loop takes the oldest waiting resolution. */
    method HandleAlertResolved()
      requires Valid() && resolveChan != []
      modifies this
      ensures Valid()
      ensures View() == Next(old(View()), HandleResolved)
    {
      resolveDelivered := resolveDelivered + [resolveChan[0]];
      resolveChan := resolveChan[1..];
    }

    /** Collects the stale alerts first and deletes them afterwards. */
    method CleanupOldAlerts(now: uint64)
      requires Valid()
      modifies this`alerts
      ensures Valid()
      ensures View() == Next(old(View()), Cleanup(now))
    {
      ghost var values := AlertValues();
      var toDelete := CollectStale(now);
      var kept := alerts;
      for i := 0 to |toDelete|
        invariant forall id :: id in kept <==> id in alerts && id !in toDelete[..i]
        invariant forall id :: id in kept ==> kept[id] == alerts[id]
      {
        kept := kept - {toDelete[i]};
      }
      assert toDelete[..|toDelete|] == toDelete;
      alerts := kept;
      assert AlertValues() == map id | id in values && !Stale(values[id], now) :: values[id];
    }

    method CollectStale(now: uint64) returns (toDelete: seq<string>)
      ensures forall id :: id in toDelete <==> id in AlertValues() && Stale(AlertValues()[id], now)
    {
      var cutoff := Sub64(now, RETENTION);
      toDelete := [];
      var todo := alerts;
      while todo.Keys != {}
        invariant forall id :: id in todo ==> id in alerts && todo[id] == alerts[id]
        invariant forall id :: id in toDelete <==> id in alerts && id !in todo && Stale(alerts[id].Value(), now)
        decreases todo.Keys
      {
        var id :| id in todo;
        if todo[id].resolved && todo[id].resolvedAt < cutoff {
          toDelete := toDelete + [id];
        }
        todo := todo - {id};
      }
    }

    /** Lists matching alerts in any order, all of them or up to a positive limit. */
    method GetAlerts(severity: string, resolved: bool, limit: int) returns (found: seq<Alert>)
      requires Valid()
      ensures forall i, j :: 0 <= i < j < |found| ==> found[i] != found[j]
      ensures forall i :: 0 <= i < |found| ==> found[i].id in alerts && alerts[found[i].id] == found[i]
      ensures forall i :: 0 <= i < |found| ==>
                (severity == "" || found[i].severity == severity) && found[i].resolved == resolved
      ensures var all := AlertValues();
              var matching := |set id | id in all && (severity == "" || all[id].severity == severity)
                                        && all[id].resolved == resolved|;
              |found| == if limit > 0 then Min(limit, matching) else matching
    {
      ghost var ids;
      MatchingCounts(AlertValues(), severity, resolved);
      found, ids := CollectMatching(severity, resolved, limit);
    }

    /** The loop, which also tells under which ids it found the alerts. */
    method CollectMatching(severity: string, resolved: bool, limit: int) returns (found: seq<Alert>, ghost ids: seq<string>)
      ensures |found| == |ids| && forall i :: 0 <= i < |ids| ==> ids[i] in alerts && found[i] == alerts[ids[i]]
      ensures forall i, j :: 0 <= i < j < |ids| ==> ids[i] != ids[j]
      ensures forall i :: 0 <= i < |ids| ==> Matching(severity, resolved)(AlertValues()[ids[i]]) == 1
      ensures var matching := SumOver(AlertValues(), Matching(severity, resolved));
              |ids| == if limit > 0 then Min(limit, matching) else matching
    {
      found, ids := [], [];
      var todo := alerts.Keys;
      ghost var values, rest := AlertValues(), AlertValues();
      ghost var bit := Matching(severity, resolved);
      while todo != {} && !(limit > 0 && |found| >= limit)
        invariant todo == rest.Keys && |found| == |ids|
        invariant Collected(ids, values, rest, bit)
        invariant forall i :: 0 <= i < |found| ==> found[i] == alerts[ids[i]]
        invariant limit > 0 ==> |found| <= limit
        decreases todo
      {
        var id :| id in todo;
        CollectStep(ids, values, rest, bit, id);
        if Matches(alerts[id], severity, resolved) {
          found, ids := found + [alerts[id]], ids + [id];
        }
        todo, rest := todo - {id}, rest - {id};
      }
      MatchingNonNegative(rest, severity, resolved);
      CollectEnd(ids, values, rest, bit, limit);
    }

    static predicate Matches(alert: Alert, severity: string, resolved: bool)
      reads alert
      ensures Matching(severity, resolved)(alert.Value()) == if Matches(alert, severity, resolved) then 1 else 0
    {
      (severity == "" || alert.severity == severity) && alert.resolved == resolved
    }

    /** Counts every alert once as open or resolved, and once by its severity if that is known. */
    method GetAlertStats() returns (stats: AlertStats)
      requires Valid()
      ensures IsTally(stats, AlertValues())
      ensures stats.total == |alerts| == stats.active + stats.resolved
    {
      stats := AlertStats(0, 0, 0, 0, 0, 0, 0);
      var todo := alerts;
      ghost var values, rest := AlertValues(), AlertValues();
      while todo.Keys != {}
        invariant todo.Keys == rest.Keys
        invariant forall id :: id in todo ==> rest[id] == todo[id].Value()
        invariant Tallied(stats, values, rest)
        decreases todo.Keys
      {
        var id :| id in todo;
        TallyStep(stats, values, rest, id);
        CountedInFull(stats, rest[id]);
        var alert := todo[id];
        stats := stats.(total := stats.total + 1);
        if alert.resolved {
          stats := stats.(resolved := stats.resolved + 1);
        } else {
          stats := stats.(active := stats.active + 1);
        }
        if alert.severity == "critical" {
          stats := stats.(critical := stats.critical + 1);
        } else if alert.severity == "high" {
          stats := stats.(high := stats.high + 1);
        } else if alert.severity == "medium" {
          stats := stats.(medium := stats.medium + 1);
        } else if alert.severity == "low" {
          stats := stats.(low := stats.low + 1);
        }
        todo, rest := todo - {id}, rest - {id};
      }
      TallyEnd(stats, values, rest);
      assert values.Keys == alerts.Keys;
    }
  }

  /** A listing under way: `ids` are the matching alerts among those no longer in `rest`. */
  ghost predicate Collected(ids: seq<string>, all: AlertMap, rest: AlertMap, bit: AlertValue -> int) {
    && (forall i :: 0 <= i < |ids| ==> ids[i] in all && ids[i] !in rest && bit(all[ids[i]]) == 1)
    && (forall i, j :: 0 <= i < j < |ids| ==> ids[i] != ids[j])
    && (forall id :: id in rest ==> id in all && rest[id] == all[id])
    && |ids| + SumOver(rest, bit) == SumOver(all, bit)
  }

  lemma CollectStep(ids: seq<string>, all: AlertMap, rest: AlertMap, bit: AlertValue -> int, id: string)
    requires Collected(ids, all, rest, bit) && id in rest
    ensures bit(all[id]) == 1 ==> Collected(ids + [id], all, rest - {id}, bit)
    ensures bit(all[id]) == 0 ==> Collected(ids, all, rest - {id}, bit)
  {
    SumOverRemove(rest, bit, id);
  }

  lemma CollectEnd(ids: seq<string>, all: AlertMap, rest: AlertMap, bit: AlertValue -> int, limit: int)
    requires Collected(ids, all, rest, bit) && SumOver(rest, bit) >= 0
    requires limit > 0 ==> |ids| <= limit
    requires rest.Keys == {} || (limit > 0 && |ids| >= limit)
    ensures |ids| == if limit > 0 then Min(limit, SumOver(all, bit)) else SumOver(all, bit)
  {
  }

  /** The seven numbers: how many alerts there are, open, resolved, and of each severity. */
  ghost predicate IsTally(stats: AlertStats, all: AlertMap) {
    && stats.total == |all|
    && stats.active == |set id | id in all && all[id].resolved == false|
    && stats.resolved == |set id | id in all && all[id].resolved == true|
    && stats.critical == |set id | id in all && all[id].severity == "critical"|
    && stats.high == |set id | id in all && all[id].severity == "high"|
    && stats.medium == |set id | id in all && all[id].severity == "medium"|
    && stats.low == |set id | id in all && all[id].severity == "low"|
  }

  ghost function Counted(stats: AlertStats, a: AlertValue): AlertStats {
    AlertStats(
      stats.total + 1,
      stats.active + Matching("", false)(a), stats.resolved + Matching("", true)(a),
      stats.critical + HasSeverity("critical")(a), stats.high + HasSeverity("high")(a),
      stats.medium + HasSeverity("medium")(a), stats.low + HasSeverity("low")(a))
  }

  lemma CountedInFull(stats: AlertStats, a: AlertValue)
    ensures var either := if a.resolved then stats.(total := stats.total + 1, resolved := stats.resolved + 1)
                          else stats.(total := stats.total + 1, active := stats.active + 1);
            Counted(stats, a) ==
            if a.severity == "critical" then either.(critical := stats.critical + 1)
            else if a.severity == "high" then either.(high := stats.high + 1)
            else if a.severity == "medium" then either.(medium := stats.medium + 1)
            else if a.severity == "low" then either.(low := stats.low + 1)
            else either
  {
    KnownBitSplits(a);
  }

  /** A count under way: the alerts in `rest` are still to be counted. */
  ghost predicate Tallied(stats: AlertStats, all: AlertMap, rest: AlertMap) {
    && stats.total + |rest| == |all|
    && stats.active + SumOver(rest, Matching("", false)) == SumOver(all, Matching("", false))
    && stats.resolved + SumOver(rest, Matching("", true)) == SumOver(all, Matching("", true))
    && stats.critical + SumOver(rest, HasSeverity("critical")) == SumOver(all, HasSeverity("critical"))
    && stats.high + SumOver(rest, HasSeverity("high")) == SumOver(all, HasSeverity("high"))
    && stats.medium + SumOver(rest, HasSeverity("medium")) == SumOver(all, HasSeverity("medium"))
    && stats.low + SumOver(rest, HasSeverity("low")) == SumOver(all, HasSeverity("low"))
  }

  lemma TallyStep(stats: AlertStats, all: AlertMap, rest: AlertMap, id: string)
    requires Tallied(stats, all, rest) && id in rest
    ensures Tallied(Counted(stats, rest[id]), all, rest - {id})
  {
    CountRemove(rest, id);
    SumOverRemove(rest, Matching("", false), id);
    SumOverRemove(rest, Matching("", true), id);
    SumOverRemove(rest, HasSeverity("critical"), id);
    SumOverRemove(rest, HasSeverity("high"), id);
    SumOverRemove(rest, HasSeverity("medium"), id);
    SumOverRemove(rest, HasSeverity("low"), id);
  }

  lemma TallyEnd(stats: AlertStats, all: AlertMap, rest: AlertMap)
    requires Tallied(stats, all, rest) && rest.Keys == {}
    ensures IsTally(stats, all)
    ensures stats.total == stats.active + stats.resolved
  {
    OpenAndResolvedMakeTotal(all);
    OpenCounts(all, false);
    OpenCounts(all, true);
    SeverityCounts(all, "critical");
    SeverityCounts(all, "high");
    SeverityCounts(all, "medium");
    SeverityCounts(all, "low");
  }

  lemma MatchingNonNegative(alerts: AlertMap, severity: string, resolved: bool)
    ensures SumOver(alerts, Matching(severity, resolved)) >= 0
  {
    var zero := (a: AlertValue) => 0;
    SumOverConstant(alerts, zero, 0);
    SumOverMonotone(alerts, zero, Matching(severity, resolved));
  }
}
