/**
 * The per-user record of `userinfo.json` and the gate at the top of
 * `get_manifest` (main.py:428-451).
 */
module Records {
  import opened Wrappers
  import opened Steam
  import opened Collections

  /** A user record: the owned app ids (`app`), the last update time
      (`update`), whether the account is enabled (`enable`) and the result
      that disabled it (`status`). A record read from disk may lack
      `update`, `enable` and `status`. */
  datatype UserRecord = UserRecord(app: seq<int>, update: Option<int>, enable: Option<bool>, status: Option<EResult>)

  /** The record `get_manifest` works on: a missing user gets a fresh record,
      and only missing fields of an existing one get their default value. */
  function WithDefaults(info: map<string, UserRecord>, username: string): (r: UserRecord)
    ensures r.update.Some? && r.enable.Some?
    ensures username !in info ==> r == UserRecord([], Some(0), Some(true), None)
    ensures username in info ==>
      && r.app == info[username].app
      && r.status == info[username].status
      && (info[username].update.Some? ==> r.update == info[username].update)
      && (info[username].enable.Some? ==> r.enable == info[username].enable)
      && (info[username].update.None? ==> r.update == Some(0))
      && (info[username].enable.None? ==> r.enable == Some(true))
  {
    var rec := if username in info then info[username] else UserRecord([], None, None, None);
    rec.(update := Some(rec.update.GetOr(0)), enable := Some(rec.enable.GetOr(true)))
  }

  /** The gate's verdict on a user. */
  datatype Gate = Disabled | CoolingDown(remaining: int) | Open

  /** A disabled user is skipped; an enabled one is skipped while
      `update + waitTime - now` is still positive. */
  function GateOf(rec: UserRecord, waitTime: int, now: int): (g: Gate)
    requires rec.update.Some? && rec.enable.Some?
    ensures g.Open? <==> rec.enable.value && rec.update.value + waitTime <= now
    ensures g.Disabled? <==> !rec.enable.value
    ensures g.CoolingDown? ==> g.remaining > 0 && now < rec.update.value + waitTime
  {
    if !rec.enable.value then Disabled
    else
      var t := rec.update.value + waitTime - now;
      if t > 0 then CoolingDown(t) else Open
  }

  /** An enabled record, in the sense of `if info['enable']`. */
  predicate Enabled(rec: UserRecord)
  {
    rec.enable == Some(true)
  }

  /** The record owns one of the apps `ids`. */
  predicate OwnsAny(rec: UserRecord, ids: set<int>)
  {
    exists i :: 0 <= i < |rec.app| && rec.app[i] in ids
  }

  /** Every record carries `enable`; the sweep and the start-up selection
      read it from every record. */
  predicate AllHaveEnable(info: map<string, UserRecord>)
  {
    forall u :: u in info ==> info[u].enable.Some?
  }

  /** `if x not in s: s.append(x)`. */
  function AppendIfAbsent(s: seq<int>, x: int): (r: seq<int>)
    ensures x in r
    ensures forall y :: y in r <==> y in s || y == x
    ensures |s| <= |r| <= |s| + 1 && r[..|s|] == s
    ensures NoDups(s) ==> NoDups(r)
  {
    if x in s then s else s + [x]
  }
}
