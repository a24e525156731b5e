/** Whole runs of the service against the reference machine. */
module TimerRuns {
  import opened Model
  import opened Validation
  import opened Lifecycle
  import opened Store
  import opened Transactions
  import opened Runs
  import opened Invariants
  import opened Timer
  import opened TimerCalls
  import opened TimerCreates

  // ---------- The other calls ----------

  predicate TableCall(call: Call) {
    call.ReadingCall? || call.AssociateCall? || call.ClaimCall? || call.RevokeCall?
  }

  ghost predicate TableWrites(ws: seq<Write>) {
    forall k :: 0 <= k < |ws| ==> !ws[k].Insert? && !ws[k].Change?
  }

  lemma TableCallReadsTables(l: Db, e: Db, call: Call)
    requires TableCall(call) && Twins(l, e, call.now)
    ensures Exec(l, call) == Exec(e, Bare(call)) && TableWrites(Exec(l, call).writes)
  {
  }

  lemma TableCallAgrees(l: Db, e: Db, call: Call)
    requires TableCall(call) && Twins(l, e, call.now)
    ensures Exec(l, call) == Exec(e, Bare(call))
    ensures Twins(Step(l, call), Step(e, Bare(call)), call.now)
  {
    TableCallReadsTables(l, e, call);
    TableWritesKeepTwins(l, e, Exec(l, call).writes, call.now);
  }

  lemma {:induction false} TableWritesKeepTwins(l: Db, e: Db, ws: seq<Write>, now: Time)
    requires Twins(l, e, now) && TableWrites(ws)
    ensures Twins(ApplyAll(l, ws), ApplyAll(e, ws), now)
  {
    if ws != [] {
      TableWritesKeepTwins(l, e, ws[..|ws| - 1], now);
    }
  }

  // ---------- Runs ----------

  /** The reference machine at a later instant. */
  function Aged(e: Db, t1: Time, t2: Time): Db {
    e.(commands := Advance(e.commands, t1, t2))
  }

  /** A call of the reference machine, between two turns of the timer at its instant. */
  function TimerStep(e: Db, call: Call): Db {
    Ticked(Step(e, Bare(call)), call.now)
  }

  /** The reference machine's run over the same calls at the same instants, but for the
      creates that an overdue command blocks: they are refused by the service and never
      reach the reference machine. */
  function TimerRun(db: Db, calls: seq<Call>, start: Time): Db {
    if calls == [] then db
    else
      var init, last := calls[..|calls| - 1], calls[|calls| - 1];
      var e := Aged(TimerRun(db, init, start), ClockOf(init, start), last.now);
      if OverdueBlocks(Run(db, init), last) then e else TimerStep(e, last)
  }

  /** How the answer `r` of the service in the state `l` compares with the answer `s` of the
      reference machine in the state `e` to the same call. */
  ghost predicate Answers(l: Db, e: Db, call: Call, r: Reply, s: Reply) {
    match call
    case PullCall(hub, _, _, _, queue, _, _) => r == s && IsListing(e.commands, HubQueued(hub), queue)
    case AckCall(_, _, _, _) => SameReply(r, s)
    case CreateCall(_, _, _, _, _) => SameReply(r, s) <==> !OverdueBlocks(l, call) && !ReplaysLapsed(l, call)
    case StatusCall(user, id, now) =>
      SameReply(r, s) <==>
        !(&& id < |l.commands| && Visible(l, user, l.commands[id])
          && LeaseLapsed(l.commands[id], now) && now < l.commands[id].expiresAt)
    case _ => r == s
  }

  lemma StepAnswers(l: Db, e: Db, call: Call)
    requires AllShaped(l.commands) && Twins(l, e, call.now) && Legal(l, call)
    ensures Answers(l, e, call, Exec(l, call).reply, Exec(e, Bare(call)).reply)
  {
    match call
    case ReconcileCall(_, _, _, _, _) => ReconcileAgrees(l, e, call);
    case CreateCall(_, _, _, _, _) => CreateDecisionsAgree(l, e, call);
    case StatusCall(_, _, _) => StatusAgrees(l, e, call);
    case PullCall(_, _, _, _, _, _, _) => PullAgrees(l, e, call);
    case AckCall(_, _, _, _) => AckAgrees(l, e, call);
    case _ => TableCallAgrees(l, e, call);
  }

  lemma StepTwins(l: Db, e: Db, call: Call)
    requires AllShaped(l.commands) && AllShaped(Step(l, call).commands) && Twins(l, e, call.now) && Legal(l, call)
    ensures OverdueBlocks(l, call) ==> Twins(Step(l, call), e, call.now)
    ensures !OverdueBlocks(l, call) ==> Twins(Step(l, call), TimerStep(e, call), call.now)
  {
    if call.CreateCall? {
      CreateDecisionsAgree(l, e, call);
    } else {
      match call {
        case ReconcileCall(_, _, _, _, _) => ReconcileAgrees(l, e, call);
        case StatusCall(_, _, _) => StatusAgrees(l, e, call);
        case PullCall(_, _, _, _, _, _, _) => PullAgrees(l, e, call);
        case AckCall(_, _, _, _) => AckAgrees(l, e, call);
        case _ => TableCallAgrees(l, e, call);
      }
      TickedTwins(Step(l, call), Step(e, Bare(call)), call.now);
    }
  }

  lemma SoundIsShaped(db: Db)
    requires SoundRows(db)
    ensures AllShaped(db.commands)
  {
    forall i | 0 <= i < |db.commands| ensures Shaped(db.commands[i]) {
      assert Sound(db.commands[i], History(db.events, i));
    }
  }

  lemma AgedTwins(l: Db, e: Db, t1: Time, t2: Time)
    requires AllShaped(l.commands) && Twins(l, e, t1) && t1 <= t2
    ensures Twins(l, Aged(e, t1, t2), t2)
  {
    AdvanceKeepsMirror(l.commands, e.commands, t1, t2);
  }

  lemma ReachableShaped(db: Db, calls: seq<Call>)
    requires Initial(db) && LegalRun(db, calls)
    ensures AllShaped(Run(db, calls).commands)
  {
    ReachableInv(db, calls, Run(db, calls));
    SoundIsShaped(Run(db, calls));
  }

  lemma LastCall(db: Db, calls: seq<Call>, start: Time) returns (init: seq<Call>, last: Call)
    requires LegalRun(db, calls) && ClockedRun(calls, start) && calls != []
    ensures init == calls[..|calls| - 1] && last == calls[|calls| - 1]
    ensures LegalRun(db, init) && ClockedRun(init, start) && Legal(Run(db, init), last)
    ensures ClockOf(init, start) <= last.now == ClockOf(calls, start)
    ensures Run(db, calls) == Step(Run(db, init), last)
  {
    init, last := calls[..|calls| - 1], calls[|calls| - 1];
    RunPrefix(db, calls, |calls| - 1);
    assert LegalAt(db, calls, |calls| - 1);
  }

  /** After every run with a clock that never goes back, cleaning up the service's commands
      at the present instant gives the reference machine's, in status, reasons and lease
      fields; nodes, hubs, tokens and readings are the same. */
  lemma {:induction false} LazyExpiryRefinesTimer(db: Db, calls: seq<Call>, d: Db, start: Time)
    requires Initial(db) && IsRun(db, calls, d) && ClockedRun(calls, start)
    ensures Twins(d, TimerRun(db, calls, start), ClockOf(calls, start))
    decreases |calls|
  {
    if calls != [] {
      var init, last := LastCall(db, calls, start);
      LazyExpiryRefinesTimer(db, init, Run(db, init), start);
      ReachableShaped(db, init);
      ReachableShaped(db, calls);
      AgedTwins(Run(db, init), TimerRun(db, init, start), ClockOf(init, start), last.now);
      StepTwins(Run(db, init), Aged(TimerRun(db, init, start), ClockOf(init, start), last.now), last);
    }
  }

  /** The reference machine after the run of `calls`, when its timer has worked up to `now`. */
  function TimerState(db: Db, calls: seq<Call>, start: Time, now: Time): Db {
    Aged(TimerRun(db, calls, start), ClockOf(calls, start), now)
  }

  lemma TimerStateTwins(db: Db, calls: seq<Call>, d: Db, start: Time, now: Time)
    requires Initial(db) && IsRun(db, calls, d) && ClockedRun(calls, start) && ClockOf(calls, start) <= now
    ensures AllShaped(d.commands) && Twins(d, TimerState(db, calls, start, now), now)
  {
    LazyExpiryRefinesTimer(db, calls, d, start);
    ReachableShaped(db, calls);
    AgedTwins(d, TimerRun(db, calls, start), ClockOf(calls, start), now);
  }

  /** Every call of every such run gets the reference machine's answer: pulls take from that
      machine's own queue and hand out the same commands, acks are accepted or rejected
      alike, creates are answered alike exactly unless an overdue command blocks them or
      they replay a lapsed one, and status reads differ exactly by showing a lapsed
      lease as leased. */
  lemma AnswersAreTheTimers(db: Db, calls: seq<Call>, d: Db, start: Time, call: Call, r: Reply, d': Db, e: Db, s: Reply)
    requires Initial(db) && IsRun(db, calls, d) && ClockedRun(calls, start)
    requires ClockOf(calls, start) <= call.now && Performed(d, call, r, d')
    requires e == TimerState(db, calls, start, call.now) && s == Exec(e, Bare(call)).reply
    ensures Answers(d, e, call, r, s)
  {
    TimerStateTwins(db, calls, d, start, call.now);
    StepAnswers(d, e, call);
  }

  /** Each pull of the reference machine's run takes from a queue that its own tables list
      when the pull is made. */
  lemma TimerPullsFromItsOwnQueue(db: Db, calls: seq<Call>, d: Db, start: Time, k: nat)
    requires Initial(db) && IsRun(db, calls, d) && ClockedRun(calls, start)
    requires k < |calls| && calls[k].PullCall?
    ensures IsListing(TimerState(db, calls[..k], start, calls[k].now).commands, HubQueued(calls[k].hub), calls[k].queue)
  {
    RunPrefix(db, calls, k);
    assert LegalAt(db, calls, k);
    var l, e := Run(db, calls[..k]), TimerState(db, calls[..k], start, calls[k].now);
    hide Run, Legal, TimerState, IsListing, Twins;
    TimerStateTwins(db, calls[..k], l, start, calls[k].now);
    PullTakesReferenceQueue(l, e, calls[k]);
  }

  // ---------- Withholding nothing ----------

  /** The reference machine's run over all of the calls, whatever the service answers. */
  function FullTimerRun(db: Db, calls: seq<Call>, start: Time): Db {
    if calls == [] then db
    else
      var init, last := calls[..|calls| - 1], calls[|calls| - 1];
      TimerStep(Aged(FullTimerRun(db, init, start), ClockOf(init, start), last.now), last)
  }

  predicate BlockedAt(db: Db, calls: seq<Call>, k: nat)
    requires k < |calls|
  {
    OverdueBlocks(Run(db, calls[..k]), calls[k])
  }

  ghost predicate NeverBlocked(db: Db, calls: seq<Call>) {
    forall k :: 0 <= k < |calls| ==> !BlockedAt(db, calls, k)
  }

  lemma {:induction false} NothingIsWithheld(db: Db, calls: seq<Call>, start: Time)
    requires NeverBlocked(db, calls)
    ensures FullTimerRun(db, calls, start) == TimerRun(db, calls, start)
  {
    if calls != [] {
      hide Run, OverdueBlocks, Aged, TimerStep;
      var init, n := calls[..|calls| - 1], |calls| - 1;
      forall k | 0 <= k < n ensures !BlockedAt(db, init, k) {
        assert !BlockedAt(db, calls, k);
        assert init[..k] == calls[..k];
      }
      NothingIsWithheld(db, init, start);
      assert !BlockedAt(db, calls, n);
    }
  }

  lemma NewRowCounts(e: Db, call: Call)
    requires call.CreateCall? && Exec(e, call).writes != []
    ensures |TimerStep(e, call).commands| == |e.commands| + 1
  {
    OneWrite(e, Exec(e, call).writes[0]);
  }

  lemma BlockedPartsTwins(l: Db, e: Db, call: Call)
    requires AllShaped(l.commands) && Twins(l, e, call.now) && OverdueBlocks(l, call)
    ensures !Twins(Step(l, call), TimerStep(e, call), call.now)
  {
    CreateDecisionsAgree(l, e, call);
    NewRowCounts(e, call);
    NoWrites(l);
  }

  /** A machine with a timer that gets every call stays with the service until the first
      create that an overdue command blocks, and parts from it there. */
  lemma FullTimerPartsAtFirstBlock(db: Db, calls: seq<Call>, d: Db, start: Time, last: Call, r: Reply, d': Db)
    requires Initial(db) && IsRun(db, calls, d) && ClockedRun(calls, start) && NeverBlocked(db, calls)
    requires ClockOf(calls, start) <= last.now && Performed(d, last, r, d')
    ensures Twins(d, FullTimerRun(db, calls, start), ClockOf(calls, start))
    ensures Twins(d', FullTimerRun(db, calls + [last], start), last.now) <==> !OverdueBlocks(d, last)
  {
    var e := TimerState(db, calls, start, last.now);
    NothingIsWithheld(db, calls, start);
    LazyExpiryRefinesTimer(db, calls, d, start);
    TimerStateTwins(db, calls, d, start, last.now);
    FullTimerOneMore(db, calls, start, last, e);
    StepShaped(db, calls, d, last, r, d');
    if OverdueBlocks(d, last) {
      BlockedPartsTwins(d, e, last);
    } else {
      StepTwins(d, e, last);
    }
  }

  lemma FullTimerOneMore(db: Db, calls: seq<Call>, start: Time, last: Call, e: Db)
    requires FullTimerRun(db, calls, start) == TimerRun(db, calls, start) && e == TimerState(db, calls, start, last.now)
    ensures FullTimerRun(db, calls + [last], start) == TimerStep(e, last)
  {
    assert (calls + [last])[..|calls|] == calls;
  }

  lemma StepShaped(db: Db, calls: seq<Call>, d: Db, last: Call, r: Reply, d': Db)
    requires Initial(db) && IsRun(db, calls, d) && Performed(d, last, r, d')
    ensures AllShaped(d'.commands)
  {
    PerformedExtendsRun(db, calls, d, last, r, d');
    ReachableInv(db, calls + [last], d');
    SoundIsShaped(d');
  }
}
