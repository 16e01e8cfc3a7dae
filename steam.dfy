/**
 * What the Steam session and CDN collaborators hand back, reduced to the
 * fields the update engine looks at.
 */
module Steam {
  import opened Wrappers

  /** Login result codes. `Other` stands for every code the engine does not
      single out. */
  datatype EResult =
    | OK
    | Fail
    | RateLimitExceeded
    | InvalidPassword
    | AccountLogonDenied
    | AccountDisabled
    | AccountLoginDeniedNeedTwoFactor
    | PasswordUnset
    | Other(code: int)

  /** The results that permanently disable an account. */
  predicate IsDisqualifying(r: EResult)
  {
    r == AccountLogonDenied || r == AccountDisabled
    || r == AccountLoginDeniedNeedTwoFactor || r == PasswordUnset
  }

  /** One package of `get_product_info(packages=...)`: its `depotids`
      (absent counts as empty), its `billingtype` and the values of its
      `appids` dictionary, in order. */
  datatype Package = Package(depotIds: seq<int>, billingType: int, appIds: seq<int>)

  /** One depot entry of an app: its `manifests` dictionary, or `None` when
      the entry has no such key (or is not a dictionary at all). */
  datatype Depot = Depot(manifests: Option<map<string, string>>)

  /** One app of `get_product_info(apps)`: `common.type` (`None` when there
      is no `common`) and the `depots` dictionary as its items in iteration
      order, keyed by depot id (`None` when the app has no `depots`). */
  datatype App = App(kind: Option<string>, depots: Option<seq<(string, Depot)>>)

  /** The CDN client's view of the account: the package ids it holds and the
      depot and app ids it is licensed for. */
  datatype Cdn = Cdn(packagesInfo: seq<int>, licensedDepotIds: set<int>, licensedAppIds: set<int>)

  /** The value a manifest fetch job ends with: a falsy result, or a truthy
      one with an optional commit to tag and the files the new manifest drops. */
  datatype FetchResult =
    | Failed(code: EResult)
    | Fetched(manifestCommit: Option<string>, deleteList: seq<string>)
}
