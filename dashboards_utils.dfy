// `log_activity`: records an action of an authenticated user in the
// activity log. Whether the ORM accepts the row is an input.

module DashboardsUtils {
  import opened Values
  import opened AuthMiddleware

  /** One ActivityLog row: who, what, and the detail payload. */
  datatype LogEntry = LogEntry(user: Principal, action: string, details: Json)

  /** `details or {}` */
  function StoredDetails(details: Json): Json {
    Or(details, EmptyDict)
  }

  /** The activity-log table, append-only as far as this code is concerned. */
  class ActivityLog {
    var entries: seq<LogEntry>

    constructor ()
      ensures entries == []
    {
      entries := [];
    }

    /**
     * `log_activity(user, action_type, details)`. `user` is None for a
     * missing user; `storageRaises` says whether creating the row raised,
     * which is swallowed. Exactly one row is added when the user is
     * authenticated and storage succeeds, none otherwise.
     */
    method LogActivity(user: Option<Principal>, actionType: string, details: Json, storageRaises: bool)
      returns (logged: bool)
      modifies this
      ensures logged <==> user.Some? && user.value.authenticated && !storageRaises
      ensures logged ==> entries == old(entries) + [LogEntry(user.value, actionType, StoredDetails(details))]
      ensures !logged ==> entries == old(entries)
      ensures old(entries) <= entries && |entries| <= |old(entries)| + 1
      ensures logged ==> Truthy(entries[|entries| - 1].details) || entries[|entries| - 1].details == EmptyDict
    {
      logged := false;
      if user.None? || !user.value.authenticated {
        return;
      }
      if storageRaises {
        return;
      }
      entries := entries + [LogEntry(user.value, actionType, StoredDetails(details))];
      logged := true;
    }
  }
}
