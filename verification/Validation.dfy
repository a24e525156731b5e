/** The request validators of the control service. */
module Validation {
  import opened Model

  // ---------- Strings ----------

  predicate IsSpace(ch: char) {
    || ch == ' ' || ch == '\t' || ch == '\n' || ch == '\U{0B}' || ch == '\U{0C}' || ch == '\r'
    || ch == '\U{85}' || ch == '\U{A0}'
  }

  function TrimLeft(s: string): string {
    if s != "" && IsSpace(s[0]) then TrimLeft(s[1..]) else s
  }

  function TrimRight(s: string): string {
    if s != "" && IsSpace(s[|s| - 1]) then TrimRight(s[..|s| - 1]) else s
  }

  function Trim(s: string): string {
    TrimRight(TrimLeft(s))
  }

  /** Nothing but white space: tab, line feed, vertical tab, form feed, carriage return,
      space, next line, no-break space. */
  predicate Blank(s: string) {
    forall k :: 0 <= k < |s| ==> s[k] as int in {9, 10, 11, 12, 13, 32, 0x85, 0xA0}
  }

  lemma {:induction false} TrimLeftDrops(s: string) returns (k: nat)
    ensures k <= |s| && TrimLeft(s) == s[k..] && Blank(s[..k])
    ensures k < |s| ==> !Blank([s[k]])
  {
    if s != "" && IsSpace(s[0]) {
      k := TrimLeftDrops(s[1..]);
      assert s[1..][k..] == s[k + 1..];
      assert forall j :: 1 <= j < k + 1 ==> s[j] == s[1..][..k][j - 1];
      k := k + 1;
    } else {
      k := 0;
      assert s != "" ==> !Blank([s[0]]) by {
        if s != "" {
          assert [s[0]][0] == s[0];
        }
      }
    }
  }

  lemma {:induction false} TrimRightDrops(s: string) returns (k: nat)
    ensures k <= |s| && TrimRight(s) == s[..k] && Blank(s[k..])
    ensures k > 0 ==> !Blank([s[k - 1]])
  {
    if s != "" && IsSpace(s[|s| - 1]) {
      var n := |s| - 1;
      k := TrimRightDrops(s[..n]);
      assert s[..n][..k] == s[..k];
      assert forall j :: k <= j < n ==> s[j] == s[..n][k..][j - k];
    } else {
      k := |s|;
      assert s != "" ==> !Blank([s[|s| - 1]]) by {
        if s != "" {
          assert [s[|s| - 1]][0] == s[|s| - 1];
        }
      }
    }
  }

  lemma BlankAround(before: string, middle: string, after: string)
    requires Blank(before) && Blank(after) && (middle != "" ==> !Blank([middle[0]]))
    ensures Blank(before + middle + after) <==> middle == ""
  {
    var s := before + middle + after;
    if middle != "" {
      assert s[|before|] == middle[0] && [middle[0]][0] == middle[0];
    }
  }

  /** Trimming cuts off exactly the white space at both ends. */
  lemma TrimCutsBlanks(s: string) returns (before: string, after: string)
    ensures s == before + Trim(s) + after && Blank(before) && Blank(after)
    ensures Trim(s) != "" ==> !Blank([Trim(s)[0]]) && !Blank([Trim(s)[|Trim(s)| - 1]])
    ensures Trim(s) == "" <==> Blank(s)
  {
    var j := TrimLeftDrops(s);
    var k := TrimRightDrops(s[j..]);
    before, after := s[..j], s[j..][k..];
    assert s == s[..j] + s[j..] && s[j..] == s[j..][..k] + after;
    if Trim(s) != "" {
      assert Trim(s)[0] == s[j];
    }
    hide Blank;
    BlankAround(before, Trim(s), after);
  }

  // ---------- Creating ----------

  function ValidateMotorAction(action: Option<Action>, durationMs: int): (r: Result<Action>)
    ensures r.Ok? ==> 0 <= durationMs <= MAX_DURATION_MS && Some(r.value) == action
    ensures r.Ok? ==> (durationMs == 0 <==> r.value == Stop)
    ensures r.Ok? <==>
              action.Some? && 0 <= durationMs <= MAX_DURATION_MS && (durationMs == 0 <==> action.value == Stop)
    ensures r.Err? ==> r.code == InvalidArgument
  {
    match action
    case Some(RunForDuration) =>
      if durationMs <= 0 then Err(InvalidArgument)
      else if durationMs > MAX_DURATION_MS then Err(InvalidArgument)
      else Ok(RunForDuration)
    case Some(Stop) =>
      if durationMs != 0 then Err(InvalidArgument) else Ok(Stop)
    case None => Err(InvalidArgument)
  }

  /** Every accepted expiry, given or defaulted, lies from 5 s to 5 min after the clock
      reading; a given one is accepted exactly when it does. */
  function ValidateMotorExpiry(expiresAtMillis: int, now: Time): (r: Result<Time>)
    ensures r.Ok? ==> now + MIN_TTL <= r.value <= now + MAX_TTL
    ensures expiresAtMillis == 0 ==> r == Ok(now + DEFAULT_EXPIRY)
    ensures expiresAtMillis != 0 ==>
              (r.Ok? <==> now + MIN_TTL <= expiresAtMillis * MILLISECOND <= now + MAX_TTL)
    ensures expiresAtMillis != 0 && r.Ok? ==> r.value == expiresAtMillis * MILLISECOND
    ensures r.Err? ==> r.code == InvalidArgument
  {
    if expiresAtMillis == 0 then Ok(now + DEFAULT_EXPIRY)
    else
      var expiresAt := expiresAtMillis * MILLISECOND;
      if expiresAt <= now then Err(InvalidArgument)
      else
        var ttl := expiresAt - now;
        if ttl < MIN_TTL then Err(InvalidArgument)
        else if ttl > MAX_TTL then Err(InvalidArgument)
        else Ok(expiresAt)
  }

  datatype IdField = BlankId | MalformedId | Id(id: nat)

  datatype CreateRequest = CreateRequest(
    key: string,
    hubId: IdField,
    nodeId: string,
    action: Option<Action>,
    durationMs: int,
    expiresAtMillis: int)

  datatype Draft = Draft(
    hubId: nat,
    nodeId: string,
    key: string,
    action: Action,
    durationMs: int,
    expiresAt: Time)

  /** The checks that need no table, made at the first clock reading of the call. */
  function Prepare(req: CreateRequest, readAt: Time): (r: Result<Draft>)
    ensures r.Ok? ==> 0 <= r.value.durationMs <= MAX_DURATION_MS
    ensures r.Ok? ==> readAt + MIN_TTL <= r.value.expiresAt <= readAt + MAX_TTL
    ensures r.Err? ==> r.code == InvalidArgument
  {
    if Trim(req.key) == "" then Err(InvalidArgument)
    else if req.hubId == BlankId then Err(InvalidArgument)
    else if Trim(req.nodeId) == "" then Err(InvalidArgument)
    else if req.hubId == MalformedId then Err(InvalidArgument)
    else
      match ValidateMotorAction(req.action, req.durationMs)
      case Err(code) => Err(code)
      case Ok(action) =>
        match ValidateMotorExpiry(req.expiresAtMillis, readAt)
        case Err(code) => Err(code)
        case Ok(expiresAt) =>
          Ok(Draft(req.hubId.id, req.nodeId, req.key, action, req.durationMs, expiresAt))
  }

  // ---------- Pulling and acknowledging ----------

  function ValidateLeaseDuration(leaseDurationMs: int): (r: Result<Time>)
    ensures r.Ok? <==> leaseDurationMs >= 0
    ensures r.Ok? ==> r.value >= MILLISECOND
    ensures r.Ok? ==> r.value == if leaseDurationMs == 0 then 15 * SECOND else leaseDurationMs * MILLISECOND
    ensures r.Err? ==> r.code == InvalidArgument
  {
    if leaseDurationMs == 0 then Ok(DEFAULT_LEASE)
    else if leaseDurationMs < 0 then Err(InvalidArgument)
    else Ok(leaseDurationMs * MILLISECOND)
  }

  function ValidatePullMax(maxCommands: int): (r: Result<nat>)
    ensures r.Ok? <==> maxCommands >= 0
    ensures r.Ok? ==> 1 <= r.value <= MAX_PULL
    ensures 1 <= maxCommands <= 10 ==> r == Ok(maxCommands)
    ensures maxCommands == 0 ==> r == Ok(1)
    ensures maxCommands > 10 ==> r == Ok(10)
    ensures r.Err? ==> r.code == InvalidArgument
  {
    if maxCommands == 0 then Ok(1)
    else if maxCommands < 0 then Err(InvalidArgument)
    else if maxCommands > MAX_PULL then Ok(MAX_PULL)
    else Ok(maxCommands)
  }

  /** The statuses a hub may report. */
  predicate AckStatus(s: Status) {
    s == Sent || s == Executing || s == Succeeded || s == Failed || s == Expired
  }

  /** The transitions a hub may report. */
  predicate AckEdge(current: Status, next: Status) {
    match current
    case Leased => next == Sent || next == Expired || next == Failed
    case Sent => next == Executing || next == Succeeded || next == Failed || next == Expired
    case Executing => next == Succeeded || next == Failed || next == Expired
    case _ => false
  }

  datatype AckRequest = AckRequest(
    commandId: Option<nat>,
    nodeId: string,
    status: Status,
    reason: Option<Reason>,
    message: string)
}
