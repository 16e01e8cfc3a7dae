/**
 * The staleness sweep `update` (main.py:595-672): the apps the enabled
 * users own, their product info fetched in chunks of 300, the apps whose
 * public manifest moved away from the recorded one, and the users to run
 * again.
 */
module Staleness {
  import opened Wrappers
  import opened Steam
  import opened Text
  import opened Collections
  import opened Records
  import opened Retry
  import opened Scheduling

  /** The number of app ids per product-info request. */
  const ChunkSize: nat := 300

  // ---------------------------------------------------------------------
  // Owned apps
  // ---------------------------------------------------------------------

  /** The app ids owned by enabled users among `users`. */
  function OwnedBy(info: map<string, UserRecord>, users: set<string>): set<int>
  {
    set u, a | u in users && u in info && Enabled(info[u]) && a in info[u].app :: a
  }

  /** The app ids owned by enabled users. */
  function OwnedByEnabled(info: map<string, UserRecord>): set<int>
  {
    OwnedBy(info, info.Keys)
  }

  lemma OwnedByAdd(info: map<string, UserRecord>, users: set<string>, u: string)
    requires u in info
    ensures OwnedBy(info, users + {u})
            == OwnedBy(info, users) + (if Enabled(info[u]) then set a | a in info[u].app else {})
  {
    var l := OwnedBy(info, users + {u});
    var r := OwnedBy(info, users) + (if Enabled(info[u]) then set a | a in info[u].app else {});
    forall a | a in l ensures a in r {
      var v :| v in users + {u} && v in info && Enabled(info[v]) && a in info[v].app;
      if v != u {
        assert a in OwnedBy(info, users);
      }
    }
    forall a | a in r ensures a in l {
      if a in OwnedBy(info, users) {
        var v :| v in users && v in info && Enabled(info[v]) && a in info[v].app;
        assert v in users + {u};
      }
    }
  }

  /** The loop of main.py:598-604: the owned app ids of the enabled users,
      once each. */
  method OwnedApps(info: map<string, UserRecord>) returns (ids: seq<int>)
    requires AllHaveEnable(info)
    ensures NoDups(ids)
    ensures forall a :: a in ids <==> a in OwnedByEnabled(info)
    ensures |ids| == |OwnedByEnabled(info)|
  {
    var acc: set<int> := {};
    var rest := info.Keys;
    while rest != {}
      invariant rest <= info.Keys
      invariant acc == OwnedBy(info, info.Keys - rest)
      decreases rest
    {
      var u :| u in rest;
      var rec := info[u];
      OwnedByAdd(info, info.Keys - rest, u);
      assert info.Keys - (rest - {u}) == (info.Keys - rest) + {u};
      if rec.enable.value && |rec.app| > 0 {
        acc := acc + set a | a in rec.app;
      }
      rest := rest - {u};
    }
    assert info.Keys - rest == info.Keys;
    ids := ListOfSet(acc);
  }

  // ---------------------------------------------------------------------
  // Fetching product info in chunks
  // ---------------------------------------------------------------------

  /** `app_id_list[lo:lo + 300]`. */
  function Chunk(appIds: seq<int>, lo: nat): seq<int>
  {
    Slice(appIds, lo, lo + ChunkSize)
  }

  /** An app of a response whose `depots` is present and non-empty. */
  predicate HasDepots(app: App)
  {
    app.depots.Some? && |app.depots.value| > 0
  }

  /** `app_info_dict` after taking in the keys `keys` of one response. */
  function MergeKeys(prev: map<int, seq<(string, Depot)>>, resp: map<int, App>, keys: set<int>): map<int, seq<(string, Depot)>>
    requires keys <= resp.Keys
  {
    map a | a in prev.Keys + (set k | k in keys && HasDepots(resp[k])) ::
      if a in keys && HasDepots(resp[a]) then resp[a].depots.value else prev[a]
  }

  /** `app_info_dict` after all the responses that arrived, a later one
      winning. */
  function MergeResponses(responses: seq<Option<map<int, App>>>): map<int, seq<(string, Depot)>>
    decreases |responses|
  {
    if |responses| == 0 then map[]
    else
      var prev := MergeResponses(responses[..|responses| - 1]);
      var last := responses[|responses| - 1];
      if last.Some? then MergeKeys(prev, last.value, last.value.Keys) else prev
  }

  /** An app is collected exactly when some response that arrived lists it
      with depots. */
  lemma {:induction false} MergeResponsesKeys(responses: seq<Option<map<int, App>>>, a: int)
    ensures a in MergeResponses(responses) <==>
      exists c :: 0 <= c < |responses| && responses[c].Some? && a in responses[c].value && HasDepots(responses[c].value[a])
    decreases |responses|
  {
    if |responses| > 0 {
      var n := |responses| - 1;
      MergeResponsesKeys(responses[..n], a);
      assert forall c :: 0 <= c < n ==> responses[..n][c] == responses[c];
    }
  }

  /** The depots collected for an app are those of the last response that
      lists it with depots. */
  lemma {:induction false} MergeResponsesLast(responses: seq<Option<map<int, App>>>, a: int, c: nat)
    requires c < |responses| && responses[c].Some? && a in responses[c].value && HasDepots(responses[c].value[a])
    requires forall d :: c < d < |responses| && responses[d].Some? && a in responses[d].value ==> !HasDepots(responses[d].value[a])
    ensures a in MergeResponses(responses) && MergeResponses(responses)[a] == responses[c].value[a].depots.value
    decreases |responses|
  {
    var n := |responses| - 1;
    if c < n {
      forall d | c < d < n && responses[..n][d].Some? && a in responses[..n][d].value
        ensures !HasDepots(responses[..n][d].value[a])
      {
        assert responses[..n][d] == responses[d];
      }
      MergeResponsesLast(responses[..n], a, c);
    }
  }

  /** Completeness of the sweep: an app whose last listing carries a depot
      with a changed public manifest is stale. */
  lemma ChangedManifestIsStale(responses: seq<Option<map<int, App>>>, a: int, c: nat, appInfo: map<string, string>)
    requires c < |responses| && responses[c].Some? && a in responses[c].value && HasDepots(responses[c].value[a])
    requires forall d :: c < d < |responses| && responses[d].Some? && a in responses[d].value ==> !HasDepots(responses[d].value[a])
    requires StaleApp(responses[c].value[a].depots.value, appInfo)
    ensures a in MergeResponses(responses) && StaleApp(MergeResponses(responses)[a], appInfo)
  {
    MergeResponsesLast(responses, a, c);
  }

  /** Every app collected comes, with its depots, from the value some
      attempt of its chunk's request returned. */
  lemma FetchedFromReplies(responses: seq<Option<map<int, App>>>, outcome: nat -> nat -> Attempt<map<int, App>>,
                           retryNum: nat, a: int)
    requires forall c :: 0 <= c < |responses| && responses[c].Some? ==>
               exists k :: 0 <= k < retryNum && outcome(c)(k) == Value(responses[c].value)
    requires a in MergeResponses(responses)
    ensures exists c, k :: 0 <= c < |responses| && 0 <= k < retryNum && outcome(c)(k).Value?
                           && a in outcome(c)(k).value && HasDepots(outcome(c)(k).value[a])
  {
    MergeResponsesKeys(responses, a);
    var c :| 0 <= c < |responses| && responses[c].Some? && a in responses[c].value && HasDepots(responses[c].value[a]);
    var k :| 0 <= k < retryNum && outcome(c)(k) == Value(responses[c].value);
    assert outcome(c)(k).Value? && a in outcome(c)(k).value;
  }

  /** Python's slicing of the deduplicated list at 0, 300, 600, ... gives
      the chunks back in order. */
  lemma ChunkAppend(appIds: seq<int>, count: nat)
    requires count < |appIds|
    ensures appIds[..count] + Chunk(appIds, count) == appIds[..Clamp(count + ChunkSize, |appIds|)]
  {
  }

  function Clamp(x: nat, n: nat): nat
  {
    if x <= n then x else n
  }

  /** The chunks sent once the count has reached `count`: the successive
      slices of the list, none empty, covering it up to `count`. */
  predicate ChunksSoFar(appIds: seq<int>, chunks: seq<seq<int>>, count: nat)
  {
    && count == |chunks| * ChunkSize
    && (count <= |appIds| ==> Concat(chunks) == appIds[..count])
    && (count > |appIds| ==> Concat(chunks) == appIds && count < |appIds| + ChunkSize)
    && (forall c :: 0 <= c < |chunks| ==> chunks[c] == Chunk(appIds, c * ChunkSize))
    && (forall c :: 0 <= c < |chunks| ==> 1 <= |chunks[c]| <= ChunkSize)
  }

  lemma ChunksSoFarStep(appIds: seq<int>, chunks: seq<seq<int>>, count: nat)
    requires ChunksSoFar(appIds, chunks, count)
    requires |Chunk(appIds, count)| > 0
    ensures ChunksSoFar(appIds, chunks + [Chunk(appIds, count)], count + ChunkSize)
  {
    var chunk := Chunk(appIds, count);
    ChunkAppend(appIds, count);
    assert Concat(chunks + [chunk]) == Concat(chunks) + chunk by {
      assert (chunks + [chunk])[..|chunks|] == chunks;
    }
  }

  /** Once the next slice is empty, every chunk but the last holds exactly
      300 ids, and there are ceil(N/300) chunks for a list of N ids. */
  lemma ChunkCount(appIds: seq<int>, chunks: seq<seq<int>>, count: nat)
    requires ChunksSoFar(appIds, chunks, count)
    requires |Chunk(appIds, count)| == 0
    ensures forall c :: 0 <= c < |chunks| - 1 ==> |chunks[c]| == ChunkSize
    ensures |chunks| == (|appIds| + ChunkSize - 1) / ChunkSize
  {
    var n := |chunks|;
    var m := |appIds|;
    assert m <= n * ChunkSize;
    if n > 0 {
      assert |Chunk(appIds, (n - 1) * ChunkSize)| > 0;
      assert (n - 1) * ChunkSize < m;
      forall c | 0 <= c < n - 1
        ensures |chunks[c]| == ChunkSize
      {
        assert c * ChunkSize + ChunkSize <= (n - 1) * ChunkSize;
        assert chunks[c] == appIds[c * ChunkSize..c * ChunkSize + ChunkSize];
      }
    }
    var r := m + ChunkSize - 1 - n * ChunkSize;
    assert 0 <= r < ChunkSize;
    assert m + ChunkSize - 1 == n * ChunkSize + r;
  }

  /** The replies of `n` chunk requests, each retried on its own script
      with the full budget. */
  function Replies(outcome: nat -> nat -> Attempt<map<int, App>>, retryNum: nat, n: nat): seq<Option<map<int, App>>>
  {
    seq(n, c requires 0 <= c => RetryFrom(outcome(c), retryNum, 0))
  }

  /** The replies so far are those of the first `|responses|` requests. */
  predicate RepliesFrom(responses: seq<Option<map<int, App>>>, outcome: nat -> nat -> Attempt<map<int, App>>, retryNum: nat)
  {
    responses == Replies(outcome, retryNum, |responses|)
  }

  lemma RepliesFromStep(responses: seq<Option<map<int, App>>>, outcome: nat -> nat -> Attempt<map<int, App>>,
                        retryNum: nat, resp: Option<map<int, App>>)
    requires RepliesFrom(responses, outcome, retryNum)
    requires resp == RetryFrom(outcome(|responses|), retryNum, 0)
    ensures RepliesFrom(responses + [resp], outcome, retryNum)
  {
    assert forall c :: 0 <= c < |responses| ==> (responses + [resp])[c] == responses[c];
  }

  /** A reply that arrived is the value of one of its request's attempts. */
  lemma RepliesValues(responses: seq<Option<map<int, App>>>, outcome: nat -> nat -> Attempt<map<int, App>>, retryNum: nat)
    requires RepliesFrom(responses, outcome, retryNum)
    ensures forall c :: 0 <= c < |responses| && responses[c].Some? ==>
              exists k :: 0 <= k < retryNum && outcome(c)(k) == Value(responses[c].value)
  {
    forall c | 0 <= c < |responses| && responses[c].Some?
      ensures exists k :: 0 <= k < retryNum && outcome(c)(k) == Value(responses[c].value)
    {
      RetryFromValue(outcome(c), retryNum, 0, responses[c].value);
    }
  }

  /**
   * The request loop of main.py:618-631: the list goes out in chunks of at
   * most 300 ids, each request retried on timeout; the apps of every
   * response that arrived are collected. `outcome(c)` scripts the calls of
   * chunk `c`. The chunks are the successive slices of the list and cover it
   * exactly.
   */
  method FetchAppInfo(appIds: seq<int>, outcome: nat -> nat -> Attempt<map<int, App>>, retryNum: nat)
    returns (fetched: map<int, seq<(string, Depot)>>, chunks: seq<seq<int>>, responses: seq<Option<map<int, App>>>)
    ensures Concat(chunks) == appIds
    ensures forall c :: 0 <= c < |chunks| ==> chunks[c] == Chunk(appIds, c * ChunkSize)
    ensures forall c :: 0 <= c < |chunks| ==> 1 <= |chunks[c]| <= ChunkSize
    ensures |chunks| * ChunkSize < |appIds| + ChunkSize
    ensures forall c :: 0 <= c < |chunks| - 1 ==> |chunks[c]| == ChunkSize
    ensures |chunks| == (|appIds| + ChunkSize - 1) / ChunkSize
    ensures |responses| == |chunks|
    ensures responses == Replies(outcome, retryNum, |chunks|)
    ensures forall c :: 0 <= c < |chunks| && responses[c].Some? ==>
              exists k :: 0 <= k < retryNum && outcome(c)(k) == Value(responses[c].value)
    ensures fetched == MergeResponses(responses)
  {
    fetched := map[];
    chunks := [];
    responses := [];
    var count: nat := 0;
    while |Chunk(appIds, count)| > 0
      invariant ChunksSoFar(appIds, chunks, count)
      invariant |responses| == |chunks|
      invariant RepliesFrom(responses, outcome, retryNum)
      invariant fetched == MergeResponses(responses)
      decreases |appIds| - count
    {
      var chunk := Chunk(appIds, count);
      var resp, calls := Retry.Retry(outcome(|chunks|), retryNum);
      ChunksSoFarStep(appIds, chunks, count);
      RepliesFromStep(responses, outcome, retryNum, resp);
      assert (responses + [resp])[..|responses|] == responses;
      if resp.Some? {
        fetched := MergeReply(fetched, resp.value);
      }
      chunks := chunks + [chunk];
      responses := responses + [resp];
      count := count + ChunkSize;
    }
    if count <= |appIds| {
      assert appIds[..count] == appIds;
    }
    ChunkCount(appIds, chunks, count);
    RepliesValues(responses, outcome, retryNum);
  }

  /** The inner loop of main.py:627-630 over one response. */
  method MergeReply(prev: map<int, seq<(string, Depot)>>, resp: map<int, App>) returns (merged: map<int, seq<(string, Depot)>>)
    ensures merged == MergeKeys(prev, resp, resp.Keys)
  {
    merged := prev;
    var keys := ListOfSet(resp.Keys);
    ghost var done: set<int> := {};
    var i := 0;
    while i < |keys|
      invariant i <= |keys|
      invariant done <= resp.Keys
      invariant forall k :: k in done <==> k in keys[..i]
      invariant merged == MergeKeys(prev, resp, done)
    {
      var a := keys[i];
      assert keys[..i + 1] == keys[..i] + [a];
      MergeKeysAdd(prev, resp, done, a);
      if HasDepots(resp[a]) {
        merged := merged[a := resp[a].depots.value];
      }
      done := done + {a};
      i := i + 1;
    }
    assert keys[..i] == keys;
    assert forall k :: k in done <==> k in resp.Keys;
    assert done == resp.Keys;
  }

  lemma MergeKeysAdd(prev: map<int, seq<(string, Depot)>>, resp: map<int, App>, done: set<int>, a: int)
    requires done <= resp.Keys && a in resp
    ensures MergeKeys(prev, resp, done + {a})
            == if HasDepots(resp[a]) then MergeKeys(prev, resp, done)[a := resp[a].depots.value] else MergeKeys(prev, resp, done)
  {
  }

  // ---------------------------------------------------------------------
  // Stale apps
  // ---------------------------------------------------------------------

  /** A depot reports a change: its id is decimal, it has a non-empty public
      manifest, the manifest recorded for it is known and differs. */
  predicate StaleDepot(entry: (string, Depot), appInfo: map<string, string>)
  {
    && IsDecimal(entry.0)
    && entry.1.manifests.Some?
    && "public" in entry.1.manifests.value
    && entry.1.manifests.value["public"] != ""
    && entry.0 in appInfo
    && appInfo[entry.0] != entry.1.manifests.value["public"]
  }

  predicate StaleApp(depots: seq<(string, Depot)>, appInfo: map<string, string>)
  {
    exists i :: 0 <= i < |depots| && StaleDepot(depots[i], appInfo)
  }

  /** The loop of main.py:636-642: the apps with a stale depot. */
  method StaleApps(fetched: map<int, seq<(string, Depot)>>, appInfo: map<string, string>) returns (stale: set<int>)
    ensures stale == set a | a in fetched && StaleApp(fetched[a], appInfo)
  {
    stale := {};
    var keys := ListOfSet(fetched.Keys);
    var j := 0;
    while j < |keys|
      invariant j <= |keys|
      invariant stale == set a | a in keys[..j] && a in fetched && StaleApp(fetched[a], appInfo)
    {
      var a := keys[j];
      assert keys[..j + 1] == keys[..j] + [a];
      var depots := fetched[a];
      var i := 0;
      var found := false;
      while i < |depots|
        invariant i <= |depots|
        invariant found <==> exists k :: 0 <= k < i && StaleDepot(depots[k], appInfo)
      {
        var entry := depots[i];
        var manifests := entry.1.manifests;
        if IsDecimal(entry.0) && manifests.Some? && "public" in manifests.value {
          var manifest := manifests.value["public"];
          if manifest != "" && entry.0 in appInfo && appInfo[entry.0] != manifest {
            found := true;
          }
        }
        i := i + 1;
      }
      if found {
        stale := stale + {a};
      }
      j := j + 1;
    }
    assert keys[..j] == keys;
  }

  /** A depot the app-info table does not know never makes an app stale, and
      neither does one whose recorded manifest is its public one. */
  lemma UnknownOrCurrentNotStale(depots: seq<(string, Depot)>, appInfo: map<string, string>)
    requires forall i :: 0 <= i < |depots| ==>
      depots[i].0 !in appInfo
      || (depots[i].1.manifests.Some? && "public" in depots[i].1.manifests.value
          && appInfo[depots[i].0] == depots[i].1.manifests.value["public"])
      || depots[i].1.manifests.None?
      || "public" !in depots[i].1.manifests.value
    ensures !StaleApp(depots, appInfo)
  {
    forall i | 0 <= i < |depots| ensures !StaleDepot(depots[i], appInfo) {
    }
  }

  /** A depot that scheduling recorded is not stale against the recorded
      manifests until Steam publishes a new one: scheduling writes the
      public manifest before any fetch, so even a later failed fetch leaves
      the depot current for the sweep. */
  lemma ScheduledDepotsNotStale(s: Sched, appId: int, depots: seq<(string, Depot)>, cdn: Cdn,
                                localTags: set<string>, remoteTags: set<string>)
    requires appId in s.lock
    requires DistinctKeys(depots)
    ensures forall i :: 0 <= i < |depots| && Fetchable(depots[i].0, depots[i].1, cdn) ==>
      !StaleDepot(depots[i], ScheduleDepots(s, appId, depots, cdn, localTags, remoteTags).appInfo)
  {
    ScheduleDepotsAppInfo(s, appId, depots, cdn, localTags, remoteTags);
  }

  // ---------------------------------------------------------------------
  // Users to update
  // ---------------------------------------------------------------------

  /** The loops of main.py:647-664: the enabled owners of stale apps, and
      the accounts that have no record yet. */
  method UsersToUpdate(info: map<string, UserRecord>, accounts: set<string>, stale: set<int>) returns (users: set<string>)
    requires AllHaveEnable(info)
    ensures users == (set u | u in info && Enabled(info[u]) && OwnsAny(info[u], stale)) + (accounts - info.Keys)
  {
    users := {};
    var rest := info.Keys;
    while rest != {}
      invariant rest <= info.Keys
      invariant users == set u | u in info.Keys - rest && Enabled(info[u]) && OwnsAny(info[u], stale)
      decreases rest
    {
      var u :| u in rest;
      var rec := info[u];
      if rec.enable.value && |rec.app| > 0 {
        var i := 0;
        var owns := false;
        while i < |rec.app|
          invariant i <= |rec.app|
          invariant owns <==> exists k :: 0 <= k < i && rec.app[k] in stale
        {
          if rec.app[i] in stale {
            owns := true;
          }
          i := i + 1;
        }
        if owns {
          users := users + {u};
        }
      }
      rest := rest - {u};
    }
    var pending := accounts;
    ghost var seen: set<string> := {};
    while pending != {}
      invariant pending <= accounts && seen == accounts - pending
      invariant users == (set u | u in info && Enabled(info[u]) && OwnsAny(info[u], stale)) + (seen - info.Keys)
      decreases pending
    {
      var u :| u in pending;
      if u !in info {
        users := users + {u};
      }
      seen := seen + {u};
      pending := pending - {u};
    }
  }
}
