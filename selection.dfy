/**
 * The start-up selection of main.py:165-174: the users named on the command
 * line, and the app ids named there together with the enabled users who own
 * one of them.
 */
module Selection {
  import opened Text
  import opened Collections
  import opened Records

  /** The decimal arguments of `-a`, read as numbers; the others are ignored. */
  function ArgIds(args: seq<string>): set<int>
  {
    set i | 0 <= i < |args| && IsDecimal(args[i]) :: DecimalValue(args[i]) as int
  }

  /** Numbers the decimal arguments and drops the duplicates. */
  method SelectAppIds(args: seq<string>) returns (ids: seq<int>)
    ensures NoDups(ids)
    ensures forall a :: a in ids <==> a in ArgIds(args)
  {
    var acc: set<int> := {};
    var i := 0;
    while i < |args|
      invariant i <= |args|
      invariant acc == set k | 0 <= k < i && IsDecimal(args[k]) :: DecimalValue(args[k]) as int
    {
      if IsDecimal(args[i]) {
        acc := acc + {DecimalValue(args[i]) as int};
      }
      i := i + 1;
    }
    ids := ListOfSet(acc);
  }

  /**
   * `update_user_list` and `update_app_id_list`: the users asked for by
   * name, plus, when app ids were given, every enabled user owning one of
   * the decimal ones; both lists free of duplicates.
   */
  method SelectUpdates(userList: seq<string>, appIdArgs: seq<string>, info: map<string, UserRecord>)
    returns (users: seq<string>, appIds: seq<int>)
    requires appIdArgs != [] ==> AllHaveEnable(info)
    ensures NoDups(users) && NoDups(appIds)
    ensures appIdArgs == [] ==> appIds == []
    ensures forall a :: a in appIds <==> a in ArgIds(appIdArgs)
    ensures forall u :: u in users <==>
      u in userList || (appIdArgs != [] && u in info && Enabled(info[u]) && OwnsAny(info[u], ArgIds(appIdArgs)))
  {
    var selected := userList;
    appIds := [];
    if appIdArgs != [] {
      appIds := SelectAppIds(appIdArgs);
      var rest := info.Keys;
      while rest != {}
        invariant rest <= info.Keys
        invariant forall u :: u in selected <==>
          u in userList || (u in info.Keys - rest && Enabled(info[u]) && OwnsAny(info[u], ArgIds(appIdArgs)))
        decreases rest
      {
        var u :| u in rest;
        var rec := info[u];
        if rec.enable.value && |rec.app| > 0 {
          var i := 0;
          while i < |rec.app|
            invariant i <= |rec.app|
            invariant forall v :: v in selected <==>
              v in userList || (v in info.Keys - rest && Enabled(info[v]) && OwnsAny(info[v], ArgIds(appIdArgs)))
              || (v == u && exists k :: 0 <= k < i && rec.app[k] in ArgIds(appIdArgs))
          {
            if rec.app[i] in appIds {
              assert rec.app[i] in ArgIds(appIdArgs);
              selected := selected + [u];
            } else {
              assert rec.app[i] !in ArgIds(appIdArgs);
            }
            i := i + 1;
          }
        }
        rest := rest - {u};
      }
    }
    users := ListOfSet(set u | u in selected);
  }
}
