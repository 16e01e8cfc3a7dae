/**
 * The scheduling half of `get_manifest` (main.py:481-575) as functions on
 * values: the paid-app filter, the per-depot step that records the public
 * manifest and queues a fetch job, the per-app step that takes and releases
 * the app lock, and the pass over the paid app list. Fetch jobs only run
 * after the pass, so their callbacks do not interleave with it here.
 */
module Scheduling {
  import opened Wrappers
  import opened Steam
  import opened Text
  import opened Collections
  import opened Records
  import opened GitRefs

  // ---------------------------------------------------------------------
  // Paid apps
  // ---------------------------------------------------------------------

  /** A package counts when it has depots and a paid billing type. */
  predicate IsPaid(p: Package, paidTypes: set<int>)
  {
    |p.depotIds| > 0 && p.billingType in paidTypes
  }

  /** The app ids of the paid packages, package by package, in order. */
  function PaidApps(packages: seq<Package>, paidTypes: set<int>): seq<int>
  {
    if |packages| == 0 then []
    else
      var last := packages[|packages| - 1];
      PaidApps(packages[..|packages| - 1], paidTypes) + (if IsPaid(last, paidTypes) then last.appIds else [])
  }

  /** An app id is collected exactly when some paid package lists it. */
  lemma {:induction false} PaidAppsMembers(packages: seq<Package>, paidTypes: set<int>, a: int)
    ensures a in PaidApps(packages, paidTypes) <==>
      exists i :: 0 <= i < |packages| && IsPaid(packages[i], paidTypes) && a in packages[i].appIds
  {
    if |packages| > 0 {
      var n := |packages| - 1;
      PaidAppsMembers(packages[..n], paidTypes, a);
      forall i | 0 <= i < n ensures packages[..n][i] == packages[i] {
      }
    }
  }

  /** The loop of main.py:494-497 over the packages. */
  method CollectPaidApps(packages: seq<Package>, paidTypes: set<int>) returns (ids: seq<int>)
    ensures ids == PaidApps(packages, paidTypes)
  {
    ids := [];
    var i := 0;
    while i < |packages|
      invariant i <= |packages|
      invariant ids == PaidApps(packages[..i], paidTypes)
    {
      assert packages[..i + 1][..i] == packages[..i];
      var p := packages[i];
      if |p.depotIds| > 0 && p.billingType in paidTypes {
        ids := ids + p.appIds;
      }
      i := i + 1;
    }
    assert packages[..i] == packages;
  }

  // ---------------------------------------------------------------------
  // Depots
  // ---------------------------------------------------------------------

  /** `common.type` is a game, a DLC or an application, in any letter case. */
  predicate SupportedKind(app: App)
  {
    app.kind.Some? && Lower(app.kind.value) in ["game", "dlc", "application"]
  }

  /** The account is licensed for the depot: its id, read as a number, is a
      licensed depot id or a licensed app id. A depot id that is not a
      decimal number is not licensed. */
  predicate Licensed(depotId: string, cdn: Cdn)
  {
    IsDecimal(depotId) && DecimalValue(depotId) in cdn.licensedDepotIds + cdn.licensedAppIds
  }

  /** The depot has a public manifest and the account is licensed for it. */
  predicate Fetchable(depotId: string, depot: Depot, cdn: Cdn)
  {
    depot.manifests.Some? && "public" in depot.manifests.value && Licensed(depotId, cdn)
  }

  function PublicGid(depot: Depot): string
    requires depot.manifests.Some? && "public" in depot.manifests.value
  {
    depot.manifests.value["public"]
  }

  /** A queued manifest fetch: app, depot and manifest id. */
  datatype Job = Job(appId: int, depotId: string, gid: string)

  /** The bookkeeping the scheduling pass changes: the lock table, the
      recorded manifest of each depot, the user's owned apps and the queued
      jobs. */
  datatype Sched = Sched(lock: map<int, set<string>>, appInfo: map<string, string>, owned: seq<int>, jobs: seq<Job>)

  /** One depot of an app that holds the lock (main.py:543-566): the depot id
      joins the lock set; a fetchable depot has its public manifest recorded,
      makes the app owned, and gets a job unless its version tag already
      exists. */
  function DepotStep(s: Sched, appId: int, entry: (string, Depot), cdn: Cdn,
                     localTags: set<string>, remoteTags: set<string>): Sched
    requires appId in s.lock
  {
    var depotId := entry.0;
    var depot := entry.1;
    var s1 := s.(lock := s.lock[appId := s.lock[appId] + {depotId}]);
    if !Fetchable(depotId, depot, cdn) then s1
    else
      var gid := PublicGid(depot);
      var s2 := s1.(appInfo := s1.appInfo[depotId := gid], owned := AppendIfAbsent(s1.owned, appId));
      if ManifestExists(localTags, remoteTags, depotId, gid) then s2
      else s2.(jobs := s2.jobs + [Job(appId, depotId, gid)])
  }

  /** The depot loop over the items of an app's `depots`, in order. */
  function ScheduleDepots(s: Sched, appId: int, depots: seq<(string, Depot)>, cdn: Cdn,
                          localTags: set<string>, remoteTags: set<string>): (r: Sched)
    requires appId in s.lock
    ensures appId in r.lock
    decreases |depots|
  {
    if |depots| == 0 then s
    else
      var prev := ScheduleDepots(s, appId, depots[..|depots| - 1], cdn, localTags, remoteTags);
      DepotStep(prev, appId, depots[|depots| - 1], cdn, localTags, remoteTags)
  }

  /** The depot ids of a dictionary's items. */
  function KeySet(depots: seq<(string, Depot)>): set<string>
  {
    set i | 0 <= i < |depots| :: depots[i].0
  }

  /** A job for depot item `i`: it is fetchable and its tag does not exist. */
  predicate QueuesJob(depots: seq<(string, Depot)>, i: int, cdn: Cdn, localTags: set<string>, remoteTags: set<string>)
    requires 0 <= i < |depots|
  {
    Fetchable(depots[i].0, depots[i].1, cdn)
    && !ManifestExists(localTags, remoteTags, depots[i].0, PublicGid(depots[i].1))
  }

  lemma KeySetSnoc(depots: seq<(string, Depot)>)
    requires |depots| > 0
    ensures KeySet(depots) == KeySet(depots[..|depots| - 1]) + {depots[|depots| - 1].0}
  {
    var n := |depots| - 1;
    forall d | d in KeySet(depots) ensures d in KeySet(depots[..n]) + {depots[n].0} {
      var i :| 0 <= i < |depots| && depots[i].0 == d;
      if i < n { assert depots[..n][i] == depots[i]; }
    }
    forall d | d in KeySet(depots[..n]) ensures d in KeySet(depots) {
      var i :| 0 <= i < n && depots[..n][i].0 == d;
      assert depots[i] == depots[..n][i];
    }
  }

  lemma DepotStepLock(s: Sched, appId: int, entry: (string, Depot), cdn: Cdn,
                      localTags: set<string>, remoteTags: set<string>)
    requires appId in s.lock
    ensures DepotStep(s, appId, entry, cdn, localTags, remoteTags).lock == s.lock[appId := s.lock[appId] + {entry.0}]
  {
  }

  /** The depot loop only adds to the app's lock set: it ends up holding
      every depot id of the app, and no other entry changes. */
  lemma {:induction false} ScheduleDepotsLock(s: Sched, appId: int, depots: seq<(string, Depot)>, cdn: Cdn,
                                              localTags: set<string>, remoteTags: set<string>)
    requires appId in s.lock
    ensures ScheduleDepots(s, appId, depots, cdn, localTags, remoteTags).lock
            == s.lock[appId := s.lock[appId] + KeySet(depots)]
    decreases |depots|
  {
    if |depots| > 0 {
      var n := |depots| - 1;
      ScheduleDepotsLock(s, appId, depots[..n], cdn, localTags, remoteTags);
      var prev := ScheduleDepots(s, appId, depots[..n], cdn, localTags, remoteTags);
      DepotStepLock(prev, appId, depots[n], cdn, localTags, remoteTags);
      KeySetSnoc(depots);
      assert prev.lock[appId] + {depots[n].0} == s.lock[appId] + KeySet(depots);
    } else {
      assert KeySet(depots) == {};
      assert s.lock[appId] + {} == s.lock[appId];
      assert s.lock[appId := s.lock[appId]] == s.lock;
    }
  }

  lemma DepotStepJobs(s: Sched, appId: int, depots: seq<(string, Depot)>, n: nat, cdn: Cdn,
                      localTags: set<string>, remoteTags: set<string>)
    requires appId in s.lock && n < |depots|
    ensures DepotStep(s, appId, depots[n], cdn, localTags, remoteTags).jobs
            == s.jobs + (if QueuesJob(depots, n, cdn, localTags, remoteTags)
                         then [Job(appId, depots[n].0, PublicGid(depots[n].1))] else [])
  {
  }

  /** The jobs the depot loop queues for an app, in depot order. */
  function QueuedJobs(appId: int, depots: seq<(string, Depot)>, cdn: Cdn,
                      localTags: set<string>, remoteTags: set<string>): seq<Job>
    decreases |depots|
  {
    if |depots| == 0 then []
    else
      var n := |depots| - 1;
      QueuedJobs(appId, depots[..n], cdn, localTags, remoteTags)
      + (if QueuesJob(depots, n, cdn, localTags, remoteTags) then [Job(appId, depots[n].0, PublicGid(depots[n].1))] else [])
  }

  /** One job per depot that `QueuesJob`, each for this app, and nothing else. */
  lemma {:induction false} QueuedJobsMembers(appId: int, depots: seq<(string, Depot)>, cdn: Cdn,
                                             localTags: set<string>, remoteTags: set<string>)
    ensures var q := QueuedJobs(appId, depots, cdn, localTags, remoteTags);
      && |q| <= |depots|
      && (forall j :: j in q ==> j.appId == appId)
      && (forall i :: 0 <= i < |depots| && QueuesJob(depots, i, cdn, localTags, remoteTags) ==>
            Job(appId, depots[i].0, PublicGid(depots[i].1)) in q)
      && (forall j :: j in q ==>
            exists i :: 0 <= i < |depots| && QueuesJob(depots, i, cdn, localTags, remoteTags)
                        && j == Job(appId, depots[i].0, PublicGid(depots[i].1)))
    decreases |depots|
  {
    if |depots| > 0 {
      var n := |depots| - 1;
      var init := depots[..n];
      QueuedJobsMembers(appId, init, cdn, localTags, remoteTags);
      var prev := QueuedJobs(appId, init, cdn, localTags, remoteTags);
      var q := QueuedJobs(appId, depots, cdn, localTags, remoteTags);
      assert forall i :: 0 <= i < n ==> init[i] == depots[i];
      forall i | 0 <= i < n && QueuesJob(depots, i, cdn, localTags, remoteTags)
        ensures Job(appId, depots[i].0, PublicGid(depots[i].1)) in q
      {
        assert QueuesJob(init, i, cdn, localTags, remoteTags);
      }
      forall j | j in q
        ensures exists i :: 0 <= i < |depots| && QueuesJob(depots, i, cdn, localTags, remoteTags)
                            && j == Job(appId, depots[i].0, PublicGid(depots[i].1))
      {
        if j in prev {
          var i :| 0 <= i < n && QueuesJob(init, i, cdn, localTags, remoteTags)
                   && j == Job(appId, init[i].0, PublicGid(init[i].1));
          assert QueuesJob(depots, i, cdn, localTags, remoteTags);
        }
      }
    }
  }

  /** The depot loop appends exactly `QueuedJobs` to the queued jobs. */
  lemma {:induction false} ScheduleDepotsQueued(s: Sched, appId: int, depots: seq<(string, Depot)>, cdn: Cdn,
                                               localTags: set<string>, remoteTags: set<string>)
    requires appId in s.lock
    ensures ScheduleDepots(s, appId, depots, cdn, localTags, remoteTags).jobs
            == s.jobs + QueuedJobs(appId, depots, cdn, localTags, remoteTags)
    decreases |depots|
  {
    if |depots| > 0 {
      var n := |depots| - 1;
      ScheduleDepotsQueued(s, appId, depots[..n], cdn, localTags, remoteTags);
      var prev := ScheduleDepots(s, appId, depots[..n], cdn, localTags, remoteTags);
      DepotStepJobs(prev, appId, depots, n, cdn, localTags, remoteTags);
    } else {
      assert s.jobs + [] == s.jobs;
    }
  }

  /** The loop keeps the queued jobs and appends one job per depot that
      `QueuesJob`, in depot order, each for this app. */
  lemma ScheduleDepotsJobs(s: Sched, appId: int, depots: seq<(string, Depot)>, cdn: Cdn,
                           localTags: set<string>, remoteTags: set<string>)
    requires appId in s.lock
    ensures var r := ScheduleDepots(s, appId, depots, cdn, localTags, remoteTags);
      && |s.jobs| <= |r.jobs| && r.jobs[..|s.jobs|] == s.jobs
      && |r.jobs| - |s.jobs| <= |depots|
      && (forall j :: j in r.jobs[|s.jobs|..] ==> j.appId == appId)
      && (forall i :: 0 <= i < |depots| && QueuesJob(depots, i, cdn, localTags, remoteTags) ==>
            Job(appId, depots[i].0, PublicGid(depots[i].1)) in r.jobs[|s.jobs|..])
      && (forall j :: j in r.jobs[|s.jobs|..] ==>
            exists i :: 0 <= i < |depots| && QueuesJob(depots, i, cdn, localTags, remoteTags)
                        && j == Job(appId, depots[i].0, PublicGid(depots[i].1)))
  {
    ScheduleDepotsQueued(s, appId, depots, cdn, localTags, remoteTags);
    QueuedJobsMembers(appId, depots, cdn, localTags, remoteTags);
    var r := ScheduleDepots(s, appId, depots, cdn, localTags, remoteTags);
    assert r.jobs[|s.jobs|..] == QueuedJobs(appId, depots, cdn, localTags, remoteTags);
  }

  lemma DepotStepRecords(s: Sched, appId: int, entry: (string, Depot), cdn: Cdn,
                         localTags: set<string>, remoteTags: set<string>)
    requires appId in s.lock
    ensures var r := DepotStep(s, appId, entry, cdn, localTags, remoteTags);
      && r.appInfo == (if Fetchable(entry.0, entry.1, cdn) then s.appInfo[entry.0 := PublicGid(entry.1)] else s.appInfo)
      && r.owned == (if Fetchable(entry.0, entry.1, cdn) then AppendIfAbsent(s.owned, appId) else s.owned)
  {
  }

  /** The loop records the public manifest of every fetchable depot and
      leaves the other records alone. */
  lemma {:induction false} ScheduleDepotsAppInfo(s: Sched, appId: int, depots: seq<(string, Depot)>, cdn: Cdn,
                                                 localTags: set<string>, remoteTags: set<string>)
    requires appId in s.lock
    requires DistinctKeys(depots)
    ensures var r := ScheduleDepots(s, appId, depots, cdn, localTags, remoteTags);
      && (forall i :: 0 <= i < |depots| && Fetchable(depots[i].0, depots[i].1, cdn) ==>
            depots[i].0 in r.appInfo && r.appInfo[depots[i].0] == PublicGid(depots[i].1))
      && (forall d :: d in s.appInfo && (forall i :: 0 <= i < |depots| && depots[i].0 == d ==> !Fetchable(d, depots[i].1, cdn)) ==>
            d in r.appInfo && r.appInfo[d] == s.appInfo[d])
      && (forall d :: d in r.appInfo ==> d in s.appInfo || d in KeySet(depots))
    decreases |depots|
  {
    if |depots| > 0 {
      var n := |depots| - 1;
      var init := depots[..n];
      assert DistinctKeys(init) by {
        forall i, j | 0 <= i < j < |init| ensures init[i].0 != init[j].0 {
          assert init[i] == depots[i] && init[j] == depots[j];
        }
      }
      ScheduleDepotsAppInfo(s, appId, init, cdn, localTags, remoteTags);
      var prev := ScheduleDepots(s, appId, init, cdn, localTags, remoteTags);
      var r := ScheduleDepots(s, appId, depots, cdn, localTags, remoteTags);
      DepotStepRecords(prev, appId, depots[n], cdn, localTags, remoteTags);
      assert forall i :: 0 <= i < n ==> init[i] == depots[i];
      forall i | 0 <= i < n ensures depots[i].0 != depots[n].0 {
      }
      forall d | d in r.appInfo ensures d in s.appInfo || d in KeySet(depots) {
        if d != depots[n].0 {
          assert d in prev.appInfo;
          if d !in s.appInfo {
            var i :| 0 <= i < n && init[i].0 == d;
            assert depots[i].0 == d;
          }
        }
      }
    }
  }

  /** The loop makes the app owned exactly when some depot was fetchable
      and keeps the owned list free of duplicates. */
  lemma {:induction false} ScheduleDepotsOwned(s: Sched, appId: int, depots: seq<(string, Depot)>, cdn: Cdn,
                                               localTags: set<string>, remoteTags: set<string>)
    requires appId in s.lock
    ensures var r := ScheduleDepots(s, appId, depots, cdn, localTags, remoteTags);
      && (forall a :: a in r.owned <==> a in s.owned || (a == appId && exists i :: 0 <= i < |depots| && Fetchable(depots[i].0, depots[i].1, cdn)))
      && (NoDups(s.owned) ==> NoDups(r.owned))
    decreases |depots|
  {
    if |depots| > 0 {
      var n := |depots| - 1;
      var init := depots[..n];
      ScheduleDepotsOwned(s, appId, init, cdn, localTags, remoteTags);
      var prev := ScheduleDepots(s, appId, init, cdn, localTags, remoteTags);
      DepotStepRecords(prev, appId, depots[n], cdn, localTags, remoteTags);
      assert forall i :: 0 <= i < n ==> init[i] == depots[i];
    }
  }

  // ---------------------------------------------------------------------
  // Apps
  // ---------------------------------------------------------------------

  /** The state after one app, and whether the pass stopped with a
      `KeyError` because the app was missing from the response. */
  datatype Step = Step(s: Sched, aborted: bool)

  /** Drop the app's lock entry when it is empty (main.py:572-575). */
  function ReleaseIfEmpty(s: Sched, appId: int): Sched
  {
    if appId in s.lock && s.lock[appId] == {} then s.(lock := s.lock - {appId}) else s
  }

  /** The body of the app loop (main.py:525-575) for one app id: apps outside
      a non-empty selection and apps already locked are skipped; otherwise
      the lock entry starts empty, the depots of a supported app are
      scheduled, and an entry still empty is dropped. A supported app
      without `depots` leaves by the `continue` of main.py:539, so its empty
      entry stays. */
  function ScheduleApp(s: Sched, appId: int, apps: map<int, App>, selection: seq<int>, cdn: Cdn,
                       localTags: set<string>, remoteTags: set<string>): Step
  {
    if |selection| > 0 && appId !in selection then Step(s, false)
    else if appId in s.lock then Step(s, false)
    else
      var s1 := s.(lock := s.lock[appId := {}]);
      if appId !in apps then Step(s1, true)
      else
        var app := apps[appId];
        if !SupportedKind(app) then Step(ReleaseIfEmpty(s1, appId), false)
        else if app.depots.None? then Step(s1, false)
        else Step(ReleaseIfEmpty(ScheduleDepots(s1, appId, app.depots.value, cdn, localTags, remoteTags), appId), false)
  }

  /** The app loop over the paid app list, stopping at the first app missing
      from the response. */
  function ScheduleApps(s: Sched, appIds: seq<int>, apps: map<int, App>, selection: seq<int>, cdn: Cdn,
                        localTags: set<string>, remoteTags: set<string>): Step
    decreases |appIds|
  {
    if |appIds| == 0 then Step(s, false)
    else
      var prev := ScheduleApps(s, appIds[..|appIds| - 1], apps, selection, cdn, localTags, remoteTags);
      if prev.aborted then prev
      else ScheduleApp(prev.s, appIds[|appIds| - 1], apps, selection, cdn, localTags, remoteTags)
  }

  /** Once the pass has stopped at a missing app, the rest of the list
      changes nothing. */
  lemma {:induction false} ScheduleAppsAborted(s: Sched, appIds: seq<int>, k: nat, apps: map<int, App>, selection: seq<int>, cdn: Cdn,
                                               localTags: set<string>, remoteTags: set<string>)
    requires k <= |appIds|
    requires ScheduleApps(s, appIds[..k], apps, selection, cdn, localTags, remoteTags).aborted
    ensures ScheduleApps(s, appIds, apps, selection, cdn, localTags, remoteTags)
            == ScheduleApps(s, appIds[..k], apps, selection, cdn, localTags, remoteTags)
    decreases |appIds|
  {
    if k == |appIds| {
      assert appIds[..k] == appIds;
    } else {
      var n := |appIds| - 1;
      assert appIds[..n][..k] == appIds[..k];
      ScheduleAppsAborted(s, appIds[..n], k, apps, selection, cdn, localTags, remoteTags);
    }
  }

  /** The depot ids the app's lock entry holds once its depot loop is done. */
  function ScheduledDepots(app: App): set<string>
  {
    if app.depots.Some? then KeySet(app.depots.value) else {}
  }

  /**
   * What one app does to the lock table. A skipped app changes nothing. An
   * app already locked keeps its entry as it was. Every other entry is left
   * alone. The app's own entry, when it remains, holds the app's depot ids,
   * and it is empty only when the app was missing from the response or is a
   * supported app without `depots`.
   */
  lemma ScheduleAppLock(s: Sched, appId: int, apps: map<int, App>, selection: seq<int>, cdn: Cdn,
                        localTags: set<string>, remoteTags: set<string>)
    ensures var r := ScheduleApp(s, appId, apps, selection, cdn, localTags, remoteTags);
      && ((|selection| > 0 && appId !in selection) || appId in s.lock ==> r == Step(s, false))
      && (forall a :: a != appId ==> (a in r.s.lock <==> a in s.lock))
      && (forall a :: a != appId && a in s.lock ==> r.s.lock[a] == s.lock[a])
      && (r.aborted <==> appId !in s.lock && (|selection| == 0 || appId in selection) && appId !in apps)
      && (appId in r.s.lock && appId !in s.lock && !r.aborted ==>
            appId in apps && SupportedKind(apps[appId]) && r.s.lock[appId] == ScheduledDepots(apps[appId]))
      && (appId in r.s.lock && r.s.lock[appId] == {} ==>
            appId in s.lock || r.aborted || (SupportedKind(apps[appId]) && apps[appId].depots.None?))
  {
    if !((|selection| > 0 && appId !in selection) || appId in s.lock) {
      var s1 := s.(lock := s.lock[appId := {}]);
      if appId in apps && SupportedKind(apps[appId]) && apps[appId].depots.Some? {
        ScheduleDepotsLock(s1, appId, apps[appId].depots.value, cdn, localTags, remoteTags);
      }
    }
  }

  /** One app keeps the jobs already queued and appends only jobs for itself,
      and only when it was not locked before. */
  lemma ScheduleAppJobs(s: Sched, appId: int, apps: map<int, App>, selection: seq<int>, cdn: Cdn,
                        localTags: set<string>, remoteTags: set<string>)
    ensures var r := ScheduleApp(s, appId, apps, selection, cdn, localTags, remoteTags);
      && |s.jobs| <= |r.s.jobs| && r.s.jobs[..|s.jobs|] == s.jobs
      && (forall j :: j in r.s.jobs[|s.jobs|..] ==> j.appId == appId && appId !in s.lock)
      && (NoDups(s.owned) ==> NoDups(r.s.owned))
      && (forall a :: a in s.owned ==> a in r.s.owned)
  {
    var r := ScheduleApp(s, appId, apps, selection, cdn, localTags, remoteTags);
    if !((|selection| > 0 && appId !in selection) || appId in s.lock) {
      var s1 := s.(lock := s.lock[appId := {}]);
      if appId in apps && SupportedKind(apps[appId]) && apps[appId].depots.Some? {
        var depots := apps[appId].depots.value;
        ScheduleDepotsJobs(s1, appId, depots, cdn, localTags, remoteTags);
        ScheduleDepotsOwned(s1, appId, depots, cdn, localTags, remoteTags);
      }
    }
  }

  /** The pass over the app list leaves the lock entries that existed
      before it exactly as they were and adds entries only for listed apps. */
  lemma {:induction false} ScheduleAppsLockFrame(s: Sched, appIds: seq<int>, apps: map<int, App>, selection: seq<int>, cdn: Cdn,
                                                 localTags: set<string>, remoteTags: set<string>)
    ensures var r := ScheduleApps(s, appIds, apps, selection, cdn, localTags, remoteTags);
      && (forall a :: a in s.lock ==> a in r.s.lock && r.s.lock[a] == s.lock[a])
      && (forall a :: a in r.s.lock && a !in s.lock ==> a in appIds)
    decreases |appIds|
  {
    if |appIds| > 0 {
      var n := |appIds| - 1;
      var init := appIds[..n];
      ScheduleAppsLockFrame(s, init, apps, selection, cdn, localTags, remoteTags);
      var prev := ScheduleApps(s, init, apps, selection, cdn, localTags, remoteTags);
      assert forall a :: a in init ==> a in appIds;
      if !prev.aborted {
        ScheduleAppLock(prev.s, appIds[n], apps, selection, cdn, localTags, remoteTags);
      }
    }
  }

  /** The pass keeps the jobs already queued in front and adds only jobs
      for listed apps that were not locked before. */
  lemma {:induction false} ScheduleAppsJobsFrame(s: Sched, appIds: seq<int>, apps: map<int, App>, selection: seq<int>, cdn: Cdn,
                                                 localTags: set<string>, remoteTags: set<string>)
    ensures var r := ScheduleApps(s, appIds, apps, selection, cdn, localTags, remoteTags);
      && |s.jobs| <= |r.s.jobs| && r.s.jobs[..|s.jobs|] == s.jobs
      && (forall j :: j in r.s.jobs[|s.jobs|..] ==> j.appId in appIds && j.appId !in s.lock)
    decreases |appIds|
  {
    if |appIds| > 0 {
      var n := |appIds| - 1;
      var init := appIds[..n];
      ScheduleAppsJobsFrame(s, init, apps, selection, cdn, localTags, remoteTags);
      ScheduleAppsLockFrame(s, init, apps, selection, cdn, localTags, remoteTags);
      var prev := ScheduleApps(s, init, apps, selection, cdn, localTags, remoteTags);
      var r := ScheduleApps(s, appIds, apps, selection, cdn, localTags, remoteTags);
      assert forall a :: a in init ==> a in appIds;
      if !prev.aborted {
        var a := appIds[n];
        ScheduleAppJobs(prev.s, a, apps, selection, cdn, localTags, remoteTags);
        var added := prev.s.jobs[|s.jobs|..];
        assert r.s.jobs[..|prev.s.jobs|] == prev.s.jobs;
        assert r.s.jobs[|s.jobs|..] == added + r.s.jobs[|prev.s.jobs|..];
        forall j | j in r.s.jobs[|s.jobs|..] ensures j.appId in appIds && j.appId !in s.lock {
          if j !in added {
            assert j in r.s.jobs[|prev.s.jobs|..];
          }
        }
      }
    }
  }

  /** The pass never drops an owned app and keeps the owned list free of
      duplicates. */
  lemma {:induction false} ScheduleAppsOwnedFrame(s: Sched, appIds: seq<int>, apps: map<int, App>, selection: seq<int>, cdn: Cdn,
                                                  localTags: set<string>, remoteTags: set<string>)
    ensures var r := ScheduleApps(s, appIds, apps, selection, cdn, localTags, remoteTags);
      && (forall a :: a in s.owned ==> a in r.s.owned)
      && (NoDups(s.owned) ==> NoDups(r.s.owned))
    decreases |appIds|
  {
    if |appIds| > 0 {
      var n := |appIds| - 1;
      ScheduleAppsOwnedFrame(s, appIds[..n], apps, selection, cdn, localTags, remoteTags);
      var prev := ScheduleApps(s, appIds[..n], apps, selection, cdn, localTags, remoteTags);
      if !prev.aborted {
        ScheduleAppJobs(prev.s, appIds[n], apps, selection, cdn, localTags, remoteTags);
      }
    }
  }

  /**
   * The pass over the app list: lock entries that existed before it are
   * left exactly as they were, every new entry belongs to a listed app, the
   * jobs already queued stay in front, every new job is for a listed app
   * that was not locked before, and the owned list keeps its apps and stays
   * free of duplicates.
   */
  lemma ScheduleAppsFrame(s: Sched, appIds: seq<int>, apps: map<int, App>, selection: seq<int>, cdn: Cdn,
                          localTags: set<string>, remoteTags: set<string>)
    ensures var r := ScheduleApps(s, appIds, apps, selection, cdn, localTags, remoteTags);
      && (forall a :: a in s.lock ==> a in r.s.lock && r.s.lock[a] == s.lock[a])
      && (forall a :: a in r.s.lock && a !in s.lock ==> a in appIds)
      && |s.jobs| <= |r.s.jobs| && r.s.jobs[..|s.jobs|] == s.jobs
      && (forall j :: j in r.s.jobs[|s.jobs|..] ==> j.appId in appIds && j.appId !in s.lock)
      && (forall a :: a in s.owned ==> a in r.s.owned)
      && (NoDups(s.owned) ==> NoDups(r.s.owned))
  {
    ScheduleAppsLockFrame(s, appIds, apps, selection, cdn, localTags, remoteTags);
    ScheduleAppsJobsFrame(s, appIds, apps, selection, cdn, localTags, remoteTags);
    ScheduleAppsOwnedFrame(s, appIds, apps, selection, cdn, localTags, remoteTags);
  }

}
