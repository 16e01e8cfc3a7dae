/**
 * The engine object `ManifestAutoUpdate` of main.py: its bookkeeping
 * fields, the start-up selection, the per-user run `get_manifest` with its
 * login, scheduling and completion steps, the cached git queries and the
 * staleness sweep `update`. The Steam session, the CDN client and the
 * manifest fetches are replaced by their answers (`Remote`), the clock by
 * its readings `now` and `stamp`, and the output of git commands by strings.
 */
module Updater {
  import opened Wrappers
  import opened Steam
  import opened Text
  import opened Collections
  import opened Records
  import opened GitRefs
  import opened Retry
  import opened Login
  import opened Scheduling
  import opened Completion
  import opened Staleness
  import opened Selection

  /** The answers of Steam during one run of `get_manifest`: the relogin
      result, the k-th password login's result, the interactive login's
      result, the k-th attempt of each retried request, the value each fetch
      job ends with, and the order in which the jobs finish. */
  datatype Remote = Remote(
    relogin: EResult,
    passwordLogin: nat -> EResult,
    cliLogin: EResult,
    cdn: nat -> Attempt<Cdn>,
    packages: nat -> Attempt<seq<Package>>,
    apps: nat -> Attempt<map<int, App>>,
    fetch: Job -> FetchResult,
    finish: seq<Job> -> seq<Job>)

  /** Where a run of `get_manifest` ended. */
  datatype RunOutcome =
    | UserDisabled
    | CoolingDown(remaining: int)
    | LoginFailed(result: EResult)
    | CdnFailed
    | PackagesFailed
    | NoPaidApps
    | AppInfoFailed
    | AppMissing(jobs: seq<Job>)
    | Completed(jobs: seq<Job>)

  /** The default of `-r` and of a zero `retry_num`. */
  const DefaultRetryNum: nat := 3
  /** The default of `-t` and of a zero `update_wait_time`, one day in seconds. */
  const DefaultWaitTime: int := 86400

  /** The user's record with a new owned list. */
  function WithApps(info: map<string, UserRecord>, username: string, owned: seq<int>): map<string, UserRecord>
    requires username in info
  {
    info[username := info[username].(app := owned)]
  }

  /** The fields a run of `get_manifest` reads and writes. */
  datatype State = State(userInfo: map<string, UserRecord>, appLock: map<int, set<string>>,
                         appInfo: map<string, string>, localTags: set<string>)

  /** Where the requests after a successful login lead (main.py:466-510):
      the run stops at the first request whose retries give nothing, or at
      an empty paid app list; otherwise it goes on with the CDN view, the
      paid apps and the app info. */
  datatype Prep = Stop(outcome: RunOutcome) | Ready(cdn: Cdn, appIds: seq<int>, apps: map<int, App>)

  function Prepare(remote: Remote, retryNum: nat, paidTypes: set<int>): Prep
  {
    match RetryFrom(remote.cdn, retryNum, 0)
    case None => Stop(CdnFailed)
    case Some(cdn) =>
      var products := if cdn.packagesInfo == [] then Some([]) else RetryFrom(remote.packages, retryNum, 0);
      if products.None? then Stop(PackagesFailed)
      else
        var appIds := PaidApps(products.value, paidTypes);
        if appIds == [] then Stop(NoPaidApps)
        else match RetryFrom(remote.apps, retryNum, 0)
          case None => Stop(AppInfoFailed)
          case Some(apps) => Ready(cdn, appIds, apps)
  }

  /** The paid app list `Prepare` goes on with is non-empty and holds
      exactly the apps some paid package lists; it stops for want of paid
      apps only when no paid package lists an app. */
  lemma PrepareApps(remote: Remote, retryNum: nat, paidTypes: set<int>)
    ensures var p := Prepare(remote, retryNum, paidTypes);
            var products := RetryFrom(remote.packages, retryNum, 0);
      && (p == Stop(CdnFailed) <==> RetryFrom(remote.cdn, retryNum, 0).None?)
      && (p.Ready? ==>
            && RetryFrom(remote.cdn, retryNum, 0) == Some(p.cdn)
            && RetryFrom(remote.apps, retryNum, 0) == Some(p.apps)
            && p.cdn.packagesInfo != [] && products.Some? && p.appIds != []
            && forall a :: a in p.appIds <==>
                 exists i :: 0 <= i < |products.value| && IsPaid(products.value[i], paidTypes) && a in products.value[i].appIds)
      && (p == Stop(NoPaidApps) ==>
            && RetryFrom(remote.cdn, retryNum, 0).Some?
            && (RetryFrom(remote.cdn, retryNum, 0).value.packagesInfo == []
                || (products.Some? && forall i :: 0 <= i < |products.value| && IsPaid(products.value[i], paidTypes) ==>
                                                  products.value[i].appIds == [])))
  {
    var p := Prepare(remote, retryNum, paidTypes);
    var products := RetryFrom(remote.packages, retryNum, 0);
    if p.Ready? {
      forall a ensures a in p.appIds <==>
        exists i :: 0 <= i < |products.value| && IsPaid(products.value[i], paidTypes) && a in products.value[i].appIds
      {
        PaidAppsMembers(products.value, paidTypes, a);
      }
    }
    if p == Stop(NoPaidApps) && RetryFrom(remote.cdn, retryNum, 0).value.packagesInfo != [] {
      forall i | 0 <= i < |products.value| && IsPaid(products.value[i], paidTypes)
        ensures products.value[i].appIds == []
      {
        if products.value[i].appIds != [] {
          PaidAppsMembers(products.value, paidTypes, products.value[i].appIds[0]);
        }
      }
    }
  }

  /** What a run that schedules leaves alone: the other users' records, its
      own user's enable flag and status, and the lock entries held before it
      started; the owned list only grows and stays free of duplicates. */
  predicate RunKeeps(b: State, a: State, username: string)
  {
    && username in b.userInfo && username in a.userInfo
    && a.userInfo == b.userInfo[username := b.userInfo[username].(app := a.userInfo[username].app,
                                                                  update := a.userInfo[username].update)]
    && (forall x :: x in b.userInfo[username].app ==> x in a.userInfo[username].app)
    && (NoDups(b.userInfo[username].app) ==> NoDups(a.userInfo[username].app))
    && (forall x :: x in b.appLock ==> x in a.appLock && a.appLock[x] == b.appLock[x])
  }

  /**
   * A run that gets to schedule `appIds`: the jobs are the ones the
   * scheduling queues. When the response lacks an app, the state is the
   * scheduling's and no callback runs. Otherwise the callbacks of the
   * finished jobs follow, the update time is refreshed exactly when no job
   * was queued, and the tags of the successful fetches are added.
   */
  predicate ScheduledRun(b: State, a: State, username: string, appIds: seq<int>, apps: map<int, App>,
                         selection: seq<int>, cdn: Cdn, remoteTags: set<string>, remote: Remote, stamp: int,
                         outcome: RunOutcome)
  {
    && (outcome.AppMissing? || outcome.Completed?)
    && RunKeeps(b, a, username)
    && var st := ScheduleApps(Sched(b.appLock, b.appInfo, b.userInfo[username].app, []),
                              appIds, apps, selection, cdn, b.localTags, remoteTags);
       && outcome.jobs == st.s.jobs
       && (outcome.AppMissing? <==> st.aborted)
       && (outcome.AppMissing? ==>
             && Sched(a.appLock, a.appInfo, a.userInfo[username].app, outcome.jobs) == st.s
             && a.localTags == b.localTags
             && a.userInfo[username].update == b.userInfo[username].update)
       && (outcome.Completed? ==>
             && Books(a.appLock, a.appInfo, a.userInfo[username].app, a.localTags)
                == AfterFetches(Books(st.s.lock, st.s.appInfo, st.s.owned, b.localTags), remote.finish(outcome.jobs), remote.fetch)
             && a.userInfo[username].update == (if outcome.jobs == [] then Some(stamp) else b.userInfo[username].update)
             && a.localTags == b.localTags + FetchedTags(outcome.jobs, remote.fetch))
  }

  /** The run after a successful login: it ends where `Prepare` stops, with
      only an empty paid app list changing anything (the account is
      disabled), or goes on to schedule. */
  predicate SessionRun(b: State, a: State, username: string, remote: Remote, retryNum: nat, paidTypes: set<int>,
                       selection: seq<int>, remoteTags: set<string>, stamp: int, outcome: RunOutcome)
  {
    var p := Prepare(remote, retryNum, paidTypes);
    && username in b.userInfo
    && (p.Stop? ==>
          && outcome == p.outcome
          && a == (if p.outcome == NoPaidApps
                   then b.(userInfo := b.userInfo[username := b.userInfo[username].(enable := Some(false), status := Some(OK))])
                   else b))
    && (p.Ready? ==> ScheduledRun(b, a, username, p.appIds, p.apps, selection, p.cdn, remoteTags, remote, stamp, outcome))
  }

  /**
   * The sweep of `update` over the records `info` and the recorded
   * manifests `depots`: the owned apps of the enabled users go out once each
   * in chunks of 300, all full but the last, so N apps take ceil(N/300)
   * requests; what is collected is the merge of every chunk's retried
   * request, and the stale apps are the collected ones with a stale depot.
   */
  ghost predicate SweepRun(info: map<string, UserRecord>, depots: map<string, string>,
                     outcome: nat -> nat -> Attempt<map<int, App>>, retryNum: nat,
                     chunks: seq<seq<int>>, fetched: map<int, seq<(string, Depot)>>, stale: set<int>)
  {
    && NoDups(Concat(chunks))
    && (forall a :: a in Concat(chunks) <==> a in OwnedByEnabled(info))
    && (forall c :: 0 <= c < |chunks| ==> 1 <= |chunks[c]| <= ChunkSize)
    && (forall c :: 0 <= c < |chunks| - 1 ==> |chunks[c]| == ChunkSize)
    && |chunks| == (|OwnedByEnabled(info)| + ChunkSize - 1) / ChunkSize
    && fetched == MergeResponses(Replies(outcome, retryNum, |chunks|))
    && stale == set a | a in fetched && StaleApp(fetched[a], depots)
  }

  class ManifestAutoUpdate {
    /** `userinfo.json`: the record of each account. */
    var userInfo: map<string, UserRecord>
    /** `app_lock`: the depots still pending for each app being processed. */
    var appLock: map<int, set<string>>
    /** `appinfo.json`: the last manifest recorded for each depot id. */
    var appInfo: map<string, string>
    /** The tags of the local repository. */
    var localTags: set<string>
    /** `tags`: the cached tags of the remote. */
    var remoteTags: set<string>
    /** `remote_head`: the cached branches of the remote. */
    var remoteHead: map<string, string>
    var updateUserList: seq<string>
    var updateAppIdList: seq<int>
    /** The accounts of `users.json`. */
    const accountInfo: set<string>
    const retryNum: nat
    const updateWaitTime: int
    const cli: bool
    /** `BillingType.PaidList`. */
    const paidBillingTypes: set<int>

    /**
     * main.py:99-103 and 159-174: the settings with their defaults, the stores
     * as loaded, the remote tags read once, and the selection of what to
     * update.
     */
    constructor(retryNumArg: nat, updateWaitTimeArg: int, cliArg: bool, paidTypes: set<int>,
                accounts: set<string>, info: map<string, UserRecord>, depots: map<string, string>,
                tags: set<string>, lsRemoteTags: string, userList: seq<string>, appIdArgs: seq<string>)
      requires appIdArgs != [] ==> AllHaveEnable(info)
      // a tag line that does not split into two fields makes `__init__` raise
      requires var lines := SplitOn(lsRemoteTags, '\n'); ParsedCount(lines) == |lines|
      ensures retryNum == (if retryNumArg == 0 then DefaultRetryNum else retryNumArg)
      ensures updateWaitTime == (if updateWaitTimeArg == 0 then DefaultWaitTime else updateWaitTimeArg)
      ensures cli == cliArg && paidBillingTypes == paidTypes && accountInfo == accounts
      ensures userInfo == info && appInfo == depots && localTags == tags
      ensures appLock == map[] && remoteHead == map[]
      ensures var lines := SplitOn(lsRemoteTags, '\n'); remoteTags == TagsBefore(lines, |lines|)
      ensures NoDups(updateUserList) && NoDups(updateAppIdList)
      ensures forall a :: a in updateAppIdList <==> a in ArgIds(appIdArgs)
      ensures forall u :: u in updateUserList <==>
        u in userList || (appIdArgs != [] && u in info && Enabled(info[u]) && OwnsAny(info[u], ArgIds(appIdArgs)))
    {
      retryNum := if retryNumArg == 0 then DefaultRetryNum else retryNumArg;
      updateWaitTime := if updateWaitTimeArg == 0 then DefaultWaitTime else updateWaitTimeArg;
      cli := cliArg;
      paidBillingTypes := paidTypes;
      accountInfo := accounts;
      userInfo := info;
      appInfo := depots;
      localTags := tags;
      appLock := map[];
      remoteHead := map[];
      remoteTags := {};
      updateUserList := [];
      updateAppIdList := [];
      new;
      var ok := GetRemoteTags(lsRemoteTags);
      var users, appIds := SelectUpdates(userList, appIdArgs, info);
      updateUserList := users;
      updateAppIdList := appIds;
    }

    // -------------------------------------------------------------------
    // Cached git queries
    // -------------------------------------------------------------------

    /** `get_remote_tags`: reads the remote tags when none are cached. A
        line that raises ends the read, and the tags added before it stay. */
    method GetRemoteTags(output: string) returns (ok: bool)
      modifies this`remoteTags
      ensures old(remoteTags) != {} ==> ok && remoteTags == old(remoteTags)
      ensures old(remoteTags) == {} ==>
        var lines := SplitOn(output, '\n');
        && remoteTags == TagsBefore(lines, ParsedCount(lines))
        && (ok <==> ParsedCount(lines) == |lines|)
    {
      if remoteTags != {} {
        return true;
      }
      var tags, parsed;
      tags, parsed, ok := ParseRemoteTags(output);
      remoteTags := tags;
    }

    /** `get_remote_head`: the cached branches, or the parsed output of
        `ls-remote --head`, which is cached; `None` where Python raises,
        and then nothing is cached. */
    method GetRemoteHead(output: string) returns (heads: Option<map<string, string>>)
      modifies this`remoteHead
      ensures old(remoteHead) != map[] ==> heads == Some(old(remoteHead)) && remoteHead == old(remoteHead)
      ensures old(remoteHead) == map[] ==>
        && (heads.Some? <==> AllHeads(SplitOn(output, '\n')))
        && (heads.Some? ==> heads.value == HeadMap(SplitOn(output, '\n')) && remoteHead == heads.value)
        && (heads.None? ==> remoteHead == old(remoteHead))
    {
      if remoteHead != map[] {
        return Some(remoteHead);
      }
      heads := ParseRemoteHeads(output);
      if heads.Some? {
        remoteHead := heads.value;
      }
    }

    /** `check_app_repo_remote`: the remote has a branch named `repo`;
        `None` where reading the branches raises. */
    method CheckAppRepoRemote(repo: string, output: string) returns (r: Option<bool>)
      modifies this`remoteHead
      ensures r.Some? <==> old(remoteHead) != map[] || AllHeads(SplitOn(output, '\n'))
      ensures r.Some? ==> r.value == (repo in remoteHead)
      ensures old(remoteHead) != map[] ==> remoteHead == old(remoteHead)
      ensures old(remoteHead) == map[] ==>
        remoteHead == if AllHeads(SplitOn(output, '\n')) then HeadMap(SplitOn(output, '\n')) else old(remoteHead)
    {
      var heads := GetRemoteHead(output);
      if heads.None? {
        return None;
      }
      r := Some(repo in heads.value);
    }

    /** `check_manifest_exist` on the current tags. */
    predicate CheckManifestExist(depotId: string, gid: string)
      reads this
    {
      ManifestExists(localTags, remoteTags, depotId, gid)
    }

    // -------------------------------------------------------------------
    // get_manifest
    // -------------------------------------------------------------------

    /** main.py:428-451: the record gets its defaults, then the gate decides. */
    method CheckGate(username: string, now: int) returns (g: Gate)
      modifies this`userInfo
      ensures userInfo == old(userInfo)[username := WithDefaults(old(userInfo), username)]
      ensures g == GateOf(userInfo[username], updateWaitTime, now)
    {
      var rec := if username in userInfo then userInfo[username] else UserRecord([], None, None, None);
      if rec.update.None? {
        rec := rec.(update := Some(0));
      }
      if rec.enable.None? {
        rec := rec.(enable := Some(true));
      }
      userInfo := userInfo[username := rec];
      if !rec.enable.value {
        return Disabled;
      }
      var t := rec.update.value + updateWaitTime - now;
      if t > 0 {
        return Gate.CoolingDown(t);
      }
      g := Open;
    }

    /** `login` (main.py:320-410): runs the login loop and applies its
        verdict; `calls` counts the relogin, password and interactive
        logins made. */
    method Login(username: string, remote: Remote) returns (result: EResult, disabled: bool, calls: nat)
      requires username in userInfo
      modifies this`userInfo
      ensures 1 <= calls <= 3 + retryNum
      ensures remote.relogin == OK ==> result == OK && calls == 1 && !disabled
      ensures disabled ==> IsDisqualifying(result)
      // the result, the disabling and the number of remote calls are those of the login loop's verdict
      ensures var v := LoginVerdict(remote.relogin, remote.passwordLogin, remote.cliLogin, cli, retryNum);
        result == v.result && disabled == v.disabled && calls == 1 + v.passwordCalls + v.cliCalls
      ensures !disabled ==> userInfo == old(userInfo)
      ensures disabled ==> userInfo == old(userInfo)[username := old(userInfo)[username].(enable := Some(false), status := Some(result))]
    {
      var passwordCalls, cliCalls, sleeps, iterations;
      result, disabled, passwordCalls, cliCalls, sleeps, iterations :=
        LoginAttempts(remote.relogin, remote.passwordLogin, remote.cliLogin, cli, retryNum);
      calls := 1 + passwordCalls + cliCalls;
      if disabled {
        var rec := userInfo[username];
        userInfo := userInfo[username := rec.(enable := Some(false), status := Some(result))];
      }
    }

    /** One depot of an app that holds the lock (main.py:543-566). A queued
        job turns `flag` false. */
    method QueueDepot(username: string, appId: int, entry: (string, Depot), cdn: Cdn, jobs0: seq<Job>, flag0: bool)
      returns (jobs: seq<Job>, flag: bool)
      requires username in userInfo && appId in appLock
      modifies this`appLock, this`appInfo, this`userInfo
      ensures username in userInfo
      ensures Sched(appLock, appInfo, userInfo[username].app, jobs)
              == DepotStep(Sched(old(appLock), old(appInfo), old(userInfo)[username].app, jobs0),
                           appId, entry, cdn, localTags, remoteTags)
      ensures userInfo == WithApps(old(userInfo), username, userInfo[username].app)
      ensures |jobs0| <= |jobs| && jobs[..|jobs0|] == jobs0
      ensures flag <==> flag0 && jobs == jobs0
    {
      jobs, flag := jobs0, flag0;
      var depotId := entry.0;
      var depot := entry.1;
      appLock := appLock[appId := appLock[appId] + {depotId}];
      if depot.manifests.Some? && "public" in depot.manifests.value
         && IsDecimal(depotId) && DecimalValue(depotId) in cdn.licensedDepotIds + cdn.licensedAppIds {
        var gid := depot.manifests.value["public"];
        appInfo := appInfo[depotId := gid];
        var rec := userInfo[username];
        if appId !in rec.app {
          userInfo := userInfo[username := rec.(app := rec.app + [appId])];
        }
        if !CheckManifestExist(depotId, gid) {
          flag := false;
          jobs := jobs + [Job(appId, depotId, gid)];
        }
      }
    }

    /** The depot loop of main.py:542-566 over the items of an app's
        `depots`. */
    method QueueDepots(username: string, appId: int, depots: seq<(string, Depot)>, cdn: Cdn, jobs0: seq<Job>, flag0: bool)
      returns (jobs: seq<Job>, flag: bool)
      requires username in userInfo && appId in appLock
      modifies this`appLock, this`appInfo, this`userInfo
      ensures username in userInfo
      ensures Sched(appLock, appInfo, userInfo[username].app, jobs)
              == ScheduleDepots(Sched(old(appLock), old(appInfo), old(userInfo)[username].app, jobs0),
                                appId, depots, cdn, localTags, remoteTags)
      ensures userInfo == WithApps(old(userInfo), username, userInfo[username].app)
      ensures |jobs0| <= |jobs| && jobs[..|jobs0|] == jobs0
      ensures flag <==> flag0 && jobs == jobs0
    {
      ghost var s0 := Sched(appLock, appInfo, userInfo[username].app, jobs0);
      jobs, flag := jobs0, flag0;
      var i := 0;
      while i < |depots|
        invariant i <= |depots|
        invariant username in userInfo && appId in appLock
        invariant Sched(appLock, appInfo, userInfo[username].app, jobs)
                  == ScheduleDepots(s0, appId, depots[..i], cdn, localTags, remoteTags)
        invariant userInfo == WithApps(old(userInfo), username, userInfo[username].app)
        invariant |jobs0| <= |jobs| && jobs[..|jobs0|] == jobs0
        invariant flag <==> flag0 && jobs == jobs0
      {
        assert depots[..i + 1][..i] == depots[..i];
        ghost var prefix := jobs;
        jobs, flag := QueueDepot(username, appId, depots[i], cdn, jobs, flag);
        assert jobs[..|jobs0|] == prefix[..|jobs0|];
        i := i + 1;
      }
      assert depots[..i] == depots;
    }

    /** One pass of the app loop (main.py:525-575). */
    method QueueApp(username: string, appId: int, apps: map<int, App>, cdn: Cdn, jobs0: seq<Job>, flag0: bool)
      returns (jobs: seq<Job>, flag: bool, aborted: bool)
      requires username in userInfo
      modifies this`appLock, this`appInfo, this`userInfo
      ensures username in userInfo
      ensures var st := ScheduleApp(Sched(old(appLock), old(appInfo), old(userInfo)[username].app, jobs0),
                                    appId, apps, updateAppIdList, cdn, localTags, remoteTags);
        Sched(appLock, appInfo, userInfo[username].app, jobs) == st.s && aborted == st.aborted
      ensures userInfo == WithApps(old(userInfo), username, userInfo[username].app)
      ensures |jobs0| <= |jobs| && jobs[..|jobs0|] == jobs0
      ensures flag <==> flag0 && jobs == jobs0
    {
      jobs, flag, aborted := jobs0, flag0, false;
      if |updateAppIdList| > 0 && appId !in updateAppIdList {
        return;
      }
      if appId in appLock {
        return;
      }
      appLock := appLock[appId := {}];
      if appId !in apps {
        aborted := true;
        return;
      }
      var app := apps[appId];
      if app.kind.Some? && Lower(app.kind.value) in ["game", "dlc", "application"] {
        if app.depots.None? {
          return;
        }
        jobs, flag := QueueDepots(username, appId, app.depots.value, cdn, jobs0, flag0);
      }
      if appId in appLock && appLock[appId] == {} {
        appLock := appLock - {appId};
      }
    }

    /** The app loop over the paid app list; it stops with `aborted` where
        the response lacks an app. */
    method QueueApps(username: string, appIds: seq<int>, apps: map<int, App>, cdn: Cdn)
      returns (jobs: seq<Job>, flag: bool, aborted: bool)
      requires username in userInfo
      modifies this`appLock, this`appInfo, this`userInfo
      ensures username in userInfo
      ensures var st := ScheduleApps(Sched(old(appLock), old(appInfo), old(userInfo)[username].app, []),
                                     appIds, apps, updateAppIdList, cdn, localTags, remoteTags);
        Sched(appLock, appInfo, userInfo[username].app, jobs) == st.s && aborted == st.aborted
      ensures userInfo == WithApps(old(userInfo), username, userInfo[username].app)
      ensures flag <==> jobs == []
    {
      ghost var s0 := Sched(appLock, appInfo, userInfo[username].app, []);
      jobs, flag, aborted := [], true, false;
      var i := 0;
      while i < |appIds| && !aborted
        invariant i <= |appIds|
        invariant username in userInfo
        invariant var st := ScheduleApps(s0, appIds[..i], apps, updateAppIdList, cdn, localTags, remoteTags);
          Sched(appLock, appInfo, userInfo[username].app, jobs) == st.s && aborted == st.aborted
        invariant userInfo == WithApps(old(userInfo), username, userInfo[username].app)
        invariant flag <==> jobs == []
      {
        assert appIds[..i + 1][..i] == appIds[..i];
        jobs, flag, aborted := QueueApp(username, appIds[i], apps, cdn, jobs, flag);
        i := i + 1;
      }
      if aborted {
        ScheduleAppsAborted(s0, appIds, i, apps, updateAppIdList, cdn, localTags, remoteTags);
      } else {
        assert appIds[..i] == appIds;
      }
    }

    /** `get_manifest_callback` (main.py:194-229) for a job of `username`. */
    method ManifestCallback(username: string, job: Job, res: FetchResult)
      requires username in userInfo
      modifies this`appLock, this`appInfo, this`userInfo, this`localTags
      ensures username in userInfo
      ensures Books(appLock, appInfo, userInfo[username].app, localTags)
              == AfterFetch(Books(old(appLock), old(appInfo), old(userInfo)[username].app, old(localTags)), job, res)
      ensures userInfo == WithApps(old(userInfo), username, userInfo[username].app)
      ensures res.Failed? ==>
        appLock == old(appLock) && appInfo == old(appInfo) && userInfo == old(userInfo) && localTags == old(localTags)
    {
      if res.Failed? {
        return;
      }
      appInfo := appInfo[job.depotId := job.gid];
      localTags := localTags + {TagName(job.depotId, job.gid)};
      if job.appId in appLock {
        if job.depotId !in appLock[job.appId] {
          return;
        }
        appLock := appLock[job.appId := appLock[job.appId] - {job.depotId}];
        var rec := userInfo[username];
        if job.appId !in rec.app {
          userInfo := userInfo[username := rec.(app := rec.app + [job.appId])];
        }
        if appLock[job.appId] == {} {
          appLock := appLock - {job.appId};
        }
      }
    }

    /** The callbacks of the finished jobs, in the order they finish. */
    method CompleteJobs(username: string, jobs: seq<Job>, fetch: Job -> FetchResult)
      requires username in userInfo
      modifies this`appLock, this`appInfo, this`userInfo, this`localTags
      ensures username in userInfo
      ensures Books(appLock, appInfo, userInfo[username].app, localTags)
              == AfterFetches(Books(old(appLock), old(appInfo), old(userInfo)[username].app, old(localTags)), jobs, fetch)
      ensures userInfo == WithApps(old(userInfo), username, userInfo[username].app)
    {
      ghost var b0 := Books(appLock, appInfo, userInfo[username].app, localTags);
      var i := 0;
      while i < |jobs|
        invariant i <= |jobs|
        invariant username in userInfo
        invariant Books(appLock, appInfo, userInfo[username].app, localTags) == AfterFetches(b0, jobs[..i], fetch)
        invariant userInfo == WithApps(old(userInfo), username, userInfo[username].app)
      {
        assert jobs[..i + 1][..i] == jobs[..i];
        ManifestCallback(username, jobs[i], fetch(jobs[i]));
        i := i + 1;
      }
      assert jobs[..i] == jobs;
    }

    /** `joinall` and the callbacks of the jobs in the order they finish.
        No job belongs to an app of `held`, so the lock entries of those
        apps stay as they are. */
    method FinishJobs(username: string, jobs: seq<Job>, remote: Remote, ghost held: set<int>)
      requires username in userInfo
      requires forall js :: multiset(remote.finish(js)) == multiset(js)
      requires forall j :: j in jobs ==> j.appId !in held
      modifies this`appLock, this`appInfo, this`userInfo, this`localTags
      ensures username in userInfo
      ensures Books(appLock, appInfo, userInfo[username].app, localTags)
              == AfterFetches(Books(old(appLock), old(appInfo), old(userInfo)[username].app, old(localTags)),
                              remote.finish(jobs), remote.fetch)
      ensures userInfo == WithApps(old(userInfo), username, userInfo[username].app)
      ensures forall a :: a in held && a in old(appLock) ==> a in appLock && appLock[a] == old(appLock)[a]
      ensures forall a :: a in old(userInfo)[username].app ==> a in userInfo[username].app
      ensures NoDups(old(userInfo)[username].app) ==> NoDups(userInfo[username].app)
      ensures localTags == old(localTags) + FetchedTags(jobs, remote.fetch)
    {
      ghost var b0 := Books(appLock, appInfo, userInfo[username].app, localTags);
      var finished := remote.finish(jobs);
      CompleteJobs(username, finished, remote.fetch);
      AfterFetchesLock(b0, finished, remote.fetch);
      AfterFetchesOwned(b0, finished, remote.fetch);
      AfterFetchesTags(b0, finished, remote.fetch);
      FetchedTagsReordered(jobs, finished, remote.fetch);
      forall a | a in held ensures NoJobFor(finished, a) {
        forall i | 0 <= i < |finished| ensures finished[i].appId != a {
          assert finished[i] in multiset(jobs);
        }
      }
    }

    /** The state a run of `get_manifest` works on. */
    function Snapshot(): State
      reads this
    {
      State(userInfo, appLock, appInfo, localTags)
    }

    /**
     * main.py:505-582: the paid apps are scheduled, the update time is
     * refreshed when no job was queued, and the callbacks run in the order
     * the jobs finish. A paid app missing from the response raises and ends
     * the run once the apps before it are scheduled.
     */
    method ScheduleAndWait(username: string, appIds: seq<int>, apps: map<int, App>, cdn: Cdn, remote: Remote, stamp: int)
      returns (outcome: RunOutcome)
      requires username in userInfo
      requires forall js :: multiset(remote.finish(js)) == multiset(js)
      modifies this`appLock, this`appInfo, this`userInfo, this`localTags
      ensures ScheduledRun(old(Snapshot()), Snapshot(), username, appIds, apps, updateAppIdList, cdn, remoteTags, remote, stamp, outcome)
    {
      ghost var before := Snapshot();
      ghost var s0 := Sched(appLock, appInfo, userInfo[username].app, []);
      var jobs, flag, aborted := QueueApps(username, appIds, apps, cdn);
      ScheduleAppsFrame(s0, appIds, apps, updateAppIdList, cdn, localTags, remoteTags);
      ghost var st := ScheduleApps(s0, appIds, apps, updateAppIdList, cdn, localTags, remoteTags);
      assert st.s.jobs[|s0.jobs|..] == jobs;
      if aborted {
        return AppMissing(jobs);
      }
      if flag {
        var rec := userInfo[username];
        userInfo := userInfo[username := rec.(update := Some(stamp))];
      }
      FinishJobs(username, jobs, remote, before.appLock.Keys);
      outcome := Completed(jobs);
    }

    /** main.py:466-582 after a successful login: the retried requests, the
        paid app list, and the scheduling. */
    method Session(username: string, remote: Remote, stamp: int) returns (outcome: RunOutcome)
      requires username in userInfo
      requires forall js :: multiset(remote.finish(js)) == multiset(js)
      modifies this`appLock, this`appInfo, this`userInfo, this`localTags
      ensures SessionRun(old(Snapshot()), Snapshot(), username, remote, retryNum, paidBillingTypes,
                         updateAppIdList, remoteTags, stamp, outcome)
    {
      var cdn, _ := Retry.Retry(remote.cdn, retryNum);
      if cdn.None? {
        return CdnFailed;
      }
      var appIds: seq<int> := [];
      if |cdn.value.packagesInfo| > 0 {
        var productInfo, _ := Retry.Retry(remote.packages, retryNum);
        if productInfo.None? {
          return PackagesFailed;
        }
        appIds := CollectPaidApps(productInfo.value, paidBillingTypes);
      }
      if appIds == [] {
        // The status recorded is the login's result, which is `OK` here.
        var rec := userInfo[username];
        userInfo := userInfo[username := rec.(enable := Some(false), status := Some(OK))];
        return NoPaidApps;
      }
      var freshResp, _ := Retry.Retry(remote.apps, retryNum);
      if freshResp.None? {
        return AppInfoFailed;
      }
      outcome := ScheduleAndWait(username, appIds, freshResp.value, cdn.value, remote, stamp);
    }

    /**
     * `get_manifest` (main.py:412-582) for one account. The record gets its
     * defaults; a disabled or cooling-down user is left with no login made.
     * A failed login ends the run, possibly disabling the account; after a
     * successful one the run goes on as `SessionRun` describes. The clock is
     * read twice: `now` for the gate (main.py:448) and `stamp` for the new
     * update time (main.py:579), after the login and the requests.
     */
    method GetManifest(username: string, remote: Remote, now: int, stamp: int) returns (outcome: RunOutcome, loginCalls: nat)
      requires forall js :: multiset(remote.finish(js)) == multiset(js)
      modifies this`appLock, this`appInfo, this`userInfo, this`localTags
      ensures var rec := WithDefaults(old(userInfo), username);
              var g := GateOf(rec, updateWaitTime, now);
              var gated := old(Snapshot()).(userInfo := old(userInfo)[username := rec]);
              var v := LoginVerdict(remote.relogin, remote.passwordLogin, remote.cliLogin, cli, retryNum);
        && (g.Disabled? ==> outcome == UserDisabled)
        && (g.CoolingDown? ==> outcome == RunOutcome.CoolingDown(g.remaining))
        && (!g.Open? ==> loginCalls == 0 && Snapshot() == gated)
        && (g.Open? ==> 1 <= loginCalls <= 3 + retryNum)
        && (g.Open? && remote.relogin == OK ==> loginCalls == 1 && !outcome.LoginFailed?)
        // an open gate runs the login loop; its verdict decides whether the run goes on
        && (g.Open? ==> loginCalls == 1 + v.passwordCalls + v.cliCalls)
        && (outcome.LoginFailed? <==> g.Open? && v.result != OK)
        && (outcome.LoginFailed? ==>
              && outcome.result == v.result && outcome.result != OK
              && Snapshot() == if v.disabled
                               then gated.(userInfo := gated.userInfo[username := rec.(enable := Some(false), status := Some(v.result))])
                               else gated)
        && (g.Open? && v.result == OK ==>
              SessionRun(gated, Snapshot(), username, remote, retryNum, paidBillingTypes, updateAppIdList, remoteTags, stamp, outcome))
    {
      var g := CheckGate(username, now);
      if g.Disabled? {
        return UserDisabled, 0;
      }
      if g.CoolingDown? {
        return RunOutcome.CoolingDown(g.remaining), 0;
      }
      var result, disabled;
      result, disabled, loginCalls := Login(username, remote);
      if result != OK {
        return LoginFailed(result), loginCalls;
      }
      outcome := Session(username, remote, stamp);
    }

    // -------------------------------------------------------------------
    // update
    // -------------------------------------------------------------------

    /**
     * The sweep of `update` (main.py:597-642): the owned apps of the
     * enabled users go out in chunks, and the apps whose public manifest of
     * some depot differs from the recorded one are stale. `outcome(c)`
     * scripts the calls of the c-th chunk request.
     */
    method StaleSweep(outcome: nat -> nat -> Attempt<map<int, App>>)
      returns (chunks: seq<seq<int>>, fetched: map<int, seq<(string, Depot)>>, stale: set<int>)
      requires AllHaveEnable(userInfo)
      ensures SweepRun(userInfo, appInfo, outcome, retryNum, chunks, fetched, stale)
      // every collected app comes from a value one attempt returned
      ensures forall a :: a in fetched ==>
        exists c, k :: 0 <= c < |chunks| && 0 <= k < retryNum && outcome(c)(k).Value?
                       && a in outcome(c)(k).value && HasDepots(outcome(c)(k).value[a])
    {
      var appIds := OwnedApps(userInfo);
      var responses;
      fetched, chunks, responses := FetchAppInfo(appIds, outcome, retryNum);
      forall a | a in fetched
        ensures exists c, k :: 0 <= c < |chunks| && 0 <= k < retryNum && outcome(c)(k).Value?
                               && a in outcome(c)(k).value && HasDepots(outcome(c)(k).value[a])
      {
        FetchedFromReplies(responses, outcome, retryNum, a);
      }
      stale := StaleApps(fetched, appInfo);
    }

    /**
     * `update` (main.py:595-672): after the sweep, the enabled owners of
     * stale apps and the accounts with no record join `update_user_list`.
     */
    method Update(outcome: nat -> nat -> Attempt<map<int, App>>)
      returns (users: seq<string>, chunks: seq<seq<int>>, fetched: map<int, seq<(string, Depot)>>, stale: set<int>)
      requires AllHaveEnable(userInfo)
      modifies this`updateUserList
      ensures users == updateUserList
      ensures |old(updateUserList)| <= |updateUserList| && updateUserList[..|old(updateUserList)|] == old(updateUserList)
      ensures NoDups(updateUserList[|old(updateUserList)|..])
      ensures forall u :: u in updateUserList[|old(updateUserList)|..] <==>
        (u in userInfo && Enabled(userInfo[u]) && OwnsAny(userInfo[u], stale)) || (u in accountInfo && u !in userInfo)
      ensures SweepRun(userInfo, appInfo, outcome, retryNum, chunks, fetched, stale)
    {
      chunks, fetched, stale := StaleSweep(outcome);
      var userSet := UsersToUpdate(userInfo, accountInfo, stale);
      var added := ListOfSet(userSet);
      updateUserList := updateUserList + added;
      assert updateUserList[|old(updateUserList)|..] == added;
      users := updateUserList;
    }
  }
}
