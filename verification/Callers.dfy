/** Who makes a call, and which calls a caller may make. */
module Callers {
  import opened Model
  import opened Validation

  /** What the verified token of a request says. */
  datatype AuthInfo = AuthInfo(userId: IdField, username: string, hubId: IdField)

  type Caller = Option<AuthInfo>

  /** A hub's token carries no user name. */
  predicate IsServiceAccount(caller: Caller) {
    caller.Some? && caller.value.username == ""
  }

  function RequireAuthenticatedUser(caller: Caller): (r: Result<nat>)
    ensures r.Ok? <==> caller.Some? && caller.value.username != "" && caller.value.userId.Id?
    ensures r.Ok? ==> caller.value.userId == Id(r.value)
    ensures r.Err? ==> r.code == if IsServiceAccount(caller) then PermissionDenied else Unauthenticated
  {
    if IsServiceAccount(caller) then Err(PermissionDenied)
    else if caller.None? || caller.value.userId == BlankId then Err(Unauthenticated)
    else if caller.value.userId == MalformedId then Err(Unauthenticated)
    else Ok(caller.value.userId.id)
  }

  function RequireHubServiceAccount(caller: Caller): (r: Result<nat>)
    ensures r.Ok? <==> IsServiceAccount(caller) && caller.value.hubId.Id?
    ensures r.Ok? ==> caller.value.hubId == Id(r.value)
    ensures r.Err? ==> r.code == PermissionDenied
  {
    if !IsServiceAccount(caller) then Err(PermissionDenied)
    else if caller.value.hubId == BlankId then Err(PermissionDenied)
    else if caller.value.hubId == MalformedId then Err(PermissionDenied)
    else Ok(caller.value.hubId.id)
  }
}
