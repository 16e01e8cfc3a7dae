/**
 * The completion handler of a manifest fetch job, `get_manifest_callback`
 * (main.py:194-229), as functions on values, and the effect of any sequence
 * of completions. Git always succeeds here: a successful fetch adds the
 * version tag.
 */
module Completion {
  import opened Wrappers
  import opened Steam
  import opened Collections
  import opened Records
  import opened GitRefs
  import opened Scheduling

  /** `app_lock[app].remove(depot)`, then the entry is popped when it became
      empty (main.py:222-229). `None` is the `KeyError` of removing a depot
      the set does not hold. An app without an entry is left alone. */
  function ReleaseDepot(lock: map<int, set<string>>, appId: int, depotId: string): (r: Option<map<int, set<string>>>)
    ensures r.None? <==> appId in lock && depotId !in lock[appId]
    ensures appId !in lock ==> r == Some(lock)
    ensures r.Some? && appId in lock ==>
      && (appId in r.value <==> lock[appId] != {depotId})
      && (appId in r.value ==> r.value[appId] == lock[appId] - {depotId} && depotId !in r.value[appId])
    ensures r.Some? ==> forall a :: a != appId ==> (a in r.value <==> a in lock)
    ensures r.Some? ==> forall a :: a != appId && a in lock ==> r.value[a] == lock[a]
  {
    if appId !in lock then Some(lock)
    else if depotId !in lock[appId] then None
    else
      var rest := lock[appId] - {depotId};
      Some(if rest == {} then lock - {appId} else lock[appId := rest])
  }

  /** What a completion changes: the lock table, the recorded manifests, the
      user's owned apps and the repository's tags. */
  datatype Books = Books(lock: map<int, set<string>>, appInfo: map<string, string>, owned: seq<int>, tags: set<string>)

  /** One callback. A falsy result changes nothing. Otherwise the manifest is
      recorded and tagged; then, when the app still holds the lock, the depot
      leaves its set and the app becomes owned. A `KeyError` from the removal
      ends the handler before the app is made owned. */
  function AfterFetch(b: Books, job: Job, res: FetchResult): Books
  {
    if res.Failed? then b
    else
      var b1 := b.(appInfo := b.appInfo[job.depotId := job.gid], tags := b.tags + {TagName(job.depotId, job.gid)});
      if job.appId !in b1.lock then b1
      else
        match ReleaseDepot(b1.lock, job.appId, job.depotId)
        case None => b1
        case Some(lock) => b1.(lock := lock, owned := AppendIfAbsent(b1.owned, job.appId))
  }

  /** The callbacks of the jobs, in the order the jobs finish. */
  function AfterFetches(b: Books, jobs: seq<Job>, fetch: Job -> FetchResult): Books
    decreases |jobs|
  {
    if |jobs| == 0 then b
    else AfterFetch(AfterFetches(b, jobs[..|jobs| - 1], fetch), jobs[|jobs| - 1], fetch(jobs[|jobs| - 1]))
  }

  /** No job of the sequence belongs to the app. */
  predicate NoJobFor(jobs: seq<Job>, a: int)
  {
    forall i :: 0 <= i < |jobs| ==> jobs[i].appId != a
  }

  /**
   * Completions only take depots out of the lock table: every entry left was
   * there before and holds a subset of what it held. The entry of an app
   * with no job among them is untouched.
   */
  lemma {:induction false} AfterFetchesLock(b: Books, jobs: seq<Job>, fetch: Job -> FetchResult)
    ensures var r := AfterFetches(b, jobs, fetch);
      && (forall a :: a in r.lock ==> a in b.lock && r.lock[a] <= b.lock[a])
      && (forall a :: NoJobFor(jobs, a) ==> (a in r.lock <==> a in b.lock))
      && (forall a :: NoJobFor(jobs, a) && a in b.lock ==> r.lock[a] == b.lock[a])
    decreases |jobs|
  {
    if |jobs| > 0 {
      var n := |jobs| - 1;
      AfterFetchesLock(b, jobs[..n], fetch);
      forall a | NoJobFor(jobs, a) ensures NoJobFor(jobs[..n], a) {
        forall i | 0 <= i < n ensures jobs[..n][i].appId != a {
          assert jobs[..n][i] == jobs[i];
        }
      }
      assert forall a :: NoJobFor(jobs, a) ==> jobs[n].appId != a;
    }
  }

  /** The version tags of the jobs whose fetch succeeded. */
  function FetchedTags(jobs: seq<Job>, fetch: Job -> FetchResult): set<string>
  {
    set i | 0 <= i < |jobs| && fetch(jobs[i]).Fetched? :: TagName(jobs[i].depotId, jobs[i].gid)
  }

  /** The tags do not depend on the order in which the jobs finish. */
  lemma FetchedTagsReordered(jobs: seq<Job>, finished: seq<Job>, fetch: Job -> FetchResult)
    requires multiset(finished) == multiset(jobs)
    ensures FetchedTags(finished, fetch) == FetchedTags(jobs, fetch)
  {
    forall t | t in FetchedTags(finished, fetch) ensures t in FetchedTags(jobs, fetch) {
      var i :| 0 <= i < |finished| && fetch(finished[i]).Fetched? && t == TagName(finished[i].depotId, finished[i].gid);
      assert finished[i] in multiset(jobs);
      var j :| 0 <= j < |jobs| && jobs[j] == finished[i];
    }
    forall t | t in FetchedTags(jobs, fetch) ensures t in FetchedTags(finished, fetch) {
      var i :| 0 <= i < |jobs| && fetch(jobs[i]).Fetched? && t == TagName(jobs[i].depotId, jobs[i].gid);
      assert jobs[i] in multiset(finished);
      var j :| 0 <= j < |finished| && finished[j] == jobs[i];
    }
  }

  /** After the completions the tags are the old ones plus the version tag of
      every job whose fetch succeeded. */
  lemma {:induction false} AfterFetchesTags(b: Books, jobs: seq<Job>, fetch: Job -> FetchResult)
    ensures AfterFetches(b, jobs, fetch).tags == b.tags + FetchedTags(jobs, fetch)
    decreases |jobs|
  {
    if |jobs| > 0 {
      var n := |jobs| - 1;
      AfterFetchesTags(b, jobs[..n], fetch);
      var before := set i | 0 <= i < n && fetch(jobs[..n][i]).Fetched? :: TagName(jobs[..n][i].depotId, jobs[..n][i].gid);
      var after := set i | 0 <= i < |jobs| && fetch(jobs[i]).Fetched? :: TagName(jobs[i].depotId, jobs[i].gid);
      var last := if fetch(jobs[n]).Fetched? then {TagName(jobs[n].depotId, jobs[n].gid)} else {};
      assert forall i :: 0 <= i < n ==> jobs[..n][i] == jobs[i];
      assert after == before + last by {
        forall t | t in after ensures t in before + last {
          var i :| 0 <= i < |jobs| && fetch(jobs[i]).Fetched? && t == TagName(jobs[i].depotId, jobs[i].gid);
          if i < n { assert t in before; }
        }
      }
    }
  }

  /** Completions keep the owned list free of duplicates, never drop an app
      from it, and add only apps of jobs whose fetch succeeded. */
  lemma {:induction false} AfterFetchesOwned(b: Books, jobs: seq<Job>, fetch: Job -> FetchResult)
    ensures var r := AfterFetches(b, jobs, fetch);
      && (NoDups(b.owned) ==> NoDups(r.owned))
      && (forall a :: a in b.owned ==> a in r.owned)
      && (forall a :: a in r.owned ==> a in b.owned || exists i :: 0 <= i < |jobs| && jobs[i].appId == a && fetch(jobs[i]).Fetched?)
    decreases |jobs|
  {
    if |jobs| > 0 {
      var n := |jobs| - 1;
      AfterFetchesOwned(b, jobs[..n], fetch);
      assert forall i :: 0 <= i < n ==> jobs[..n][i] == jobs[i];
    }
  }

  /** Completions record a manifest only for a depot of a job whose fetch
      succeeded, and a depot's record after them is the manifest of the last
      such job for it. */
  lemma {:induction false} AfterFetchesRecords(b: Books, jobs: seq<Job>, fetch: Job -> FetchResult)
    ensures var r := AfterFetches(b, jobs, fetch);
      && (forall d :: d in r.appInfo ==> d in b.appInfo || exists i :: 0 <= i < |jobs| && jobs[i].depotId == d && fetch(jobs[i]).Fetched?)
      && (forall i :: 0 <= i < |jobs| && fetch(jobs[i]).Fetched?
                      && (forall k :: i < k < |jobs| && jobs[k].depotId == jobs[i].depotId ==> fetch(jobs[k]).Failed?) ==>
            jobs[i].depotId in r.appInfo && r.appInfo[jobs[i].depotId] == jobs[i].gid)
    decreases |jobs|
  {
    if |jobs| > 0 {
      var n := |jobs| - 1;
      AfterFetchesRecords(b, jobs[..n], fetch);
      assert forall i :: 0 <= i < n ==> jobs[..n][i] == jobs[i];
    }
  }
}
