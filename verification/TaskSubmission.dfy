/** Submitting a task: attempts, the reservation's final adjustment, the durable insert, settlement, and
    the deferred decision between a refund and a hold. What the provider, the database and the client
    do is given by a script.
 */
module TaskSubmission {
  import opened BillingLedger
  import opened BillingSession
  import QuotaMath

  datatype Reply = TransportError | EmptyReply | Status(code: int) | Unreadable | Panicked | Accepted(quota: int)

  /** One submit call. `before` and `during` are what others do to the ledger meanwhile. */
  datatype Submission = Submission(invalid: bool, free: bool, quota: int, buildFails: bool,
                                   before: seq<Event>, during: seq<Event>, reply: Reply)

  datatype Attempt = Attempt(cancelled: bool, channelFails: bool, bodyFails: bool,
                             submission: Submission, cancelledAfter: bool, retry: bool)

  datatype Ending = Finish(cancelledBeforeReserve: bool, cancelledBeforeInsert: bool, insertFails: bool)

  /** How the submission ended: its row is stored; or it is not, and the reservation was given back,
      is held for recovery, or never existed. */
  datatype Outcome = Stored | Refunded | Held | NoBilling

  datatype OperationState = Submitting | TaskFailed | RecoveryRequired | TaskAccepted

  /** The request's state across attempts. */
  class Info {
    const ledger: Ledger
    const request: string
    const user: int
    const key: int
    const unlimited: bool
    var billing: Session?
    var started: bool
    var rejected: bool

    constructor (ledger: Ledger, request: string, user: int, key: int, unlimited: bool)
      ensures this.ledger == ledger && this.request == request && this.user == user && this.key == key
      ensures this.unlimited == unlimited && billing == null && !started && !rejected
    {
      this.ledger, this.request, this.user, this.key, this.unlimited := ledger, request, user, key, unlimited;
      billing, started, rejected := null, false, false;
    }

    ghost function Bill(): int
      reads ledger
    {
      Paid(ledger.closed, request)
    }

    /** An open session is this request's, and nothing is settled or refunded yet. */
    ghost predicate Valid()
      reads this, ledger, billing
    {
      && Unique(ledger.records)
      && (billing != null ==>
            && billing.ledger == ledger && billing.request == request && billing.user == user && billing.key == key
            && billing.Sound() && !billing.settled && !billing.refunded)
    }

    /** The session's view of its record is true. */
    ghost predicate Good()
      reads this, ledger, billing
    {
      billing != null ==> billing.ledger == ledger && billing.Own()
    }

    /** The reservation, if there is one, is this session's own and marked as sent. */
    ghost predicate InFlight()
      reads this, ledger, billing
    {
      billing != null ==> billing.ledger == ledger && !billing.replay && billing.Mine() != [] && billing.Mine()[0].phase == ProviderStarted
    }
  }

  predicate Rejection(code: int) {
    code in {400, 401, 403, 404, 422, 429}
  }

  /** While the submission runs, nobody else acts on the request's record but the recovery and cleanup
      jobs. */
  predicate Quiet(sub: Submission, request: string) {
    AllForeign(sub.before, request) && AllForeign(sub.during, request)
  }

  predicate Undisturbed(script: seq<Attempt>, request: string) {
    forall i :: 0 <= i < |script| ==> Quiet(script[i].submission, request)
  }

  /** Opens the billing session on the first attempt that needs one. */
  method EnsureBilling(info: Info, sub: Submission) returns (ok: bool)
    requires info.Valid()
    modifies info`billing, info.ledger
    ensures info.Valid() && info.started == old(info.started) && info.rejected == old(info.rejected)
    ensures old(info.Good()) ==> info.Good()
    ensures old(info.billing) != null || sub.free ==> ok && info.billing == old(info.billing) && info.ledger.State() == old(info.ledger.State())
    ensures old(info.billing) == null && !sub.free ==>
              var b := old(info.ledger.State());
              var covered := sub.quota >= 0 && info.user in b.users && b.users[info.user] > 0 && b.users[info.user] >= sub.quota;
              var opens := && covered && sub.quota > 0 && info.request != "" && info.user > 0
                           && (!Unknown(b, info.request) || KeyCovers(b, info.key, info.unlimited, sub.quota));
              (info.billing != null <==> opens) && (ok <==> opens || (covered && sub.quota == 0))
    ensures old(info.billing) == null && info.billing != null ==>
              info.billing.preConsumed == sub.quota && (!info.billing.replay ==> info.billing.Mine() != [] && Active(info.billing.Mine()[0].phase))
    ensures info.Bill() == old(info.Bill()) && Conserves(old(info.ledger.State()), info.ledger.State())
    ensures old(info.billing) != null ==> info.billing == old(info.billing)
    ensures info.billing != old(info.billing) ==> fresh(info.billing)
    ensures info.billing == null ==> info.ledger.records == old(info.ledger.records)
    ensures old(info.billing) == null && info.billing != null ==>
              (info.billing.replay <==> old(Lookup(info.ledger.records, info.request)) != [])
  {
    hide Conserves, Lookup, Unique, Paid;
    ConservesSame(info.ledger.State());
    ok := true;
    if info.billing == null && !sub.free {
      var o := Open(info.ledger, info.request, info.user, info.key, info.unlimited, sub.quota);
      if o.Rejected? {
        return false;
      }
      if o.Opened? {
        info.billing := o.session;
      }
    }
  }

  /** Marks the reservation, and lets others act while the provider is called. */
  method Dispatch(s: Session, sub: Submission) returns (marked: bool)
    requires s.Sound() && !s.settled && !s.refunded
    modifies s.ledger
    ensures s.Sound() && Conserves(old(s.ledger.State()), s.ledger.State())
    ensures
      var met := After(old(s.ledger.State()), sub.before);
      && (marked <==> !s.replay && Lookup(met.records, s.request) != [] && Active(Lookup(met.records, s.request)[0].phase))
      && s.ledger.State() == if s.replay then met
                             else if marked then After(MarkStep(met, s.request).books, sub.during) else MarkStep(met, s.request).books
    ensures Quiet(sub, s.request) ==>
              && s.Bill() == old(s.Bill()) && (old(s.Own()) ==> s.Own())
              && (marked ==> s.Mine() != [] && s.Mine()[0].phase == ProviderStarted)
  {
    hide Conserves, Lookup, Unique, Paid, AllForeign, Duplicate, After, MarkStep;
    s.Meanwhile(sub.before);
    ghost var met := s.ledger.State();
    marked := s.MarkProviderStarted();
    ConservesOn(old(s.ledger.State()), met, s.ledger.State());
    if marked {
      ghost var started := s.ledger.State();
      s.Meanwhile(sub.during);
      ConservesOn(old(s.ledger.State()), started, s.ledger.State());
    }
  }

  /** One submit call: nothing reaches the provider unless the mark was made first. */
  method Submit(info: Info, sub: Submission) returns (accepted: seq<int>, panicked: bool, sent: bool)
    requires info.Valid()
    modifies info, info.ledger
    ensures info.Valid() && info.started == (old(info.started) || sent)
    ensures Conserves(old(info.ledger.State()), info.ledger.State())
    ensures sent && info.billing != null ==> !info.billing.replay
    ensures Quiet(sub, info.request) ==>
              && info.Bill() == old(info.Bill()) && (old(info.Good()) ==> info.Good())
              && (sent ==> info.InFlight())
    ensures old(info.billing) != null ==> info.billing == old(info.billing)
    ensures info.billing != old(info.billing) ==> fresh(info.billing)
    ensures info.billing == null ==> info.ledger.records == old(info.ledger.records)
    ensures old(info.billing) == null && info.billing != null ==>
              (info.billing.replay <==> old(Lookup(info.ledger.records, info.request)) != [])
    ensures sent ==> !sub.invalid && !sub.buildFails
    ensures sub.free && old(info.billing) == null ==> (sent <==> !sub.invalid && !sub.buildFails)
    ensures old(info.billing) != null ==>
              (sent <==> && !sub.invalid && !sub.buildFails && !info.billing.replay
                         && InUse(After(old(info.ledger.State()), sub.before), info.request))
    ensures old(info.billing) == null && info.billing != null && sub.before == [] ==>
              (sent <==> !sub.invalid && !sub.buildFails && !info.billing.replay)
    ensures sent ==> (info.rejected <==> sub.reply.Status? && sub.reply.code in {400, 401, 403, 404, 422, 429})
    ensures !sent ==> info.rejected == old(info.rejected)
    ensures accepted == if sent && sub.reply.Accepted? then [sub.reply.quota] else []
    ensures panicked <==> sent && sub.reply == Panicked
  {
    hide Conserves, Lookup, Unique, Paid, Quiet;
    accepted, panicked, sent := [], false, false;
    ConservesSame(info.ledger.State());
    if sub.invalid {
      return;
    }
    var ok := EnsureBilling(info, sub);
    if !ok || sub.buildFails {
      return;
    }
    if info.billing != null {
      ghost var entered := info.ledger.State();
      var marked := Dispatch(info.billing, sub);
      ConservesOn(old(info.ledger.State()), entered, info.ledger.State());
      if !marked {
        return;
      }
    }
    sent := true;
    info.started, info.rejected := true, false;
    match sub.reply {
      case TransportError =>
      case EmptyReply =>
      case Unreadable =>
      case Status(code) => info.rejected := Rejection(code);
      case Panicked => panicked := true;
      case Accepted(quota) => accepted := [quota];
    }
  }

  /** Nothing before the submit call stops the attempt. */
  predicate Reaches(a: Attempt) {
    !a.cancelled && !a.channelFails && !a.bodyFails
  }

  /** The reply says that the provider refused the submission and did nothing. */
  predicate Refuses(r: Reply) {
    r.Status? && r.code in {400, 401, 403, 404, 422, 429}
  }

  /** What the attempts did, told from the script: `taken` were entered, all but the last of which reached
      the submit call, were not cancelled and were retried; `last` is the last one that was sent, or -1. */
  predicate Told(script: seq<Attempt>, imageOperation: bool, taken: nat, last: int, started: bool, rejected: bool, result: seq<int>, submits: nat) {
    && taken <= |script| && (taken == 0 <==> script == [])
    && (forall k :: 0 <= k < taken - 1 ==> Reaches(script[k]) && !script[k].cancelledAfter && script[k].retry && !imageOperation)
    && submits == (if taken > 0 && !Reaches(script[taken - 1]) then taken - 1 else taken)
    && -1 <= last < submits && (started <==> last >= 0)
    && (last >= 0 ==> !script[last].submission.invalid && !script[last].submission.buildFails)
    && (started ==> (rejected <==> Refuses(script[last].submission.reply)))
    && result == (if taken > 0 && last == taken - 1 && script[last].submission.reply.Accepted? && !script[last].cancelledAfter
                  then [script[last].submission.reply.quota] else [])
    && (taken < |script| ==>
          var a := script[taken - 1];
          !Reaches(a) || a.cancelledAfter || imageOperation || !a.retry || result != []
          || (last == taken - 1 && a.submission.reply == Panicked))
  }

  /** The attempts. An image operation is submitted at most once; `result` is what an accepted and
      uncancelled submit returned. */
  method Attempts(info: Info, imageOperation: bool, script: seq<Attempt>) returns (result: seq<int>, submits: nat, ghost taken: nat, ghost last: int)
    requires info.Valid() && info.billing == null && !info.started
    modifies info, info.ledger
    ensures info.Valid() && (info.billing != null ==> fresh(info.billing))
    ensures Conserves(old(info.ledger.State()), info.ledger.State())
    ensures Told(script, imageOperation, taken, last, info.started, info.rejected, result, submits)
    ensures result != [] && info.billing != null ==> !info.billing.replay
    ensures imageOperation ==> submits <= 1 && (info.started && info.billing != null ==> !info.billing.replay)
    ensures script == [] ==> info.billing == null
    ensures info.billing != null ==> (info.billing.replay <==> old(Lookup(info.ledger.records, info.request)) != [])
    ensures Undisturbed(script, info.request) ==>
              && info.Bill() == old(info.Bill()) && info.Good()
              && (result != [] || (imageOperation && info.started) ==> info.InFlight())
  {
    hide Conserves, Lookup, Unique, Paid, Quiet, After, InUse, Info.Valid, Info.InFlight, Info.Bill, Ledger.State, Session.Own;
    ghost var calm := Undisturbed(script, info.request);
    result, submits, taken, last := [], 0, 0, -1;
    ConservesSame(info.ledger.State());
    for i := 0 to |script|
      invariant submits == i == taken && -1 <= last < i && (info.started <==> last >= 0)
      invariant last >= 0 ==> !script[last].submission.invalid && !script[last].submission.buildFails
      invariant info.started ==> (info.rejected <==> Refuses(script[last].submission.reply))
      invariant last >= 0 && last == i - 1 ==> !script[last].submission.reply.Accepted?
      invariant forall k :: 0 <= k < i ==> Reaches(script[k]) && !script[k].cancelledAfter && script[k].retry && !imageOperation
      invariant info.Valid() && (info.billing != null ==> fresh(info.billing))
      invariant Conserves(old(info.ledger.State()), info.ledger.State())
      invariant calm ==> info.Bill() == old(info.Bill()) && info.Good()
      invariant imageOperation ==> submits == 0 && !info.started
      invariant info.billing == null ==> info.ledger.records == old(info.ledger.records)
      invariant info.billing != null ==> (info.billing.replay <==> old(Lookup(info.ledger.records, info.request)) != [])
      invariant i == 0 ==> info.billing == null
    {
      var a := script[i];
      taken := i + 1;
      if a.cancelled || a.channelFails || a.bodyFails {
        return;
      }
      ghost var before := info.ledger.State();
      var accepted, panicked, sent := Submit(info, a.submission);
      ConservesOn(old(info.ledger.State()), before, info.ledger.State());
      submits := submits + 1;
      if sent { last := i; }
      if panicked || a.cancelledAfter {
        return;
      }
      if accepted != [] {
        result := accepted;
        return;
      }
      if imageOperation || !a.retry {
        return;
      }
    }
  }

  /** The quota and the reservation are within what an image operation may cost. */
  ghost predicate InBounds(info: Info, quota: int)
    reads info, info.billing
  {
    0 <= quota <= QuotaMath.MAX_QUOTA && (info.billing != null ==> info.billing.preConsumed <= QuotaMath.MAX_QUOTA)
  }

  /** There is no record and nothing to pay; or the record is the request's own, was sent, is within what an
      image operation may cost, and settles at the quota. */
  ghost predicate Attaches(info: Info, quota: int)
    reads info, info.ledger
  {
    var found := Lookup(info.ledger.records, info.request);
    if found == [] then quota == 0
    else
      var r := found[0];
      && info.request != "" && r.user == info.user && r.key == info.key && r.phase == ProviderStarted
      && 0 <= r.amount <= QuotaMath.MAX_QUOTA
      && (quota <= r.amount || (WalletCovers(info.ledger.State(), r.user, quota - r.amount)
                                && KeyCovers(info.ledger.State(), r.key, r.unlimited, quota - r.amount)))
  }

  /** Stores the accepted row. For an image operation the same transaction also settles the reservation, which
      must still be marked as sent. */
  method Insert(info: Info, imageOperation: bool, quota: int, fails: bool) returns (stored: bool)
    requires info.Valid()
    modifies info.ledger
    ensures Conserves(old(info.ledger.State()), info.ledger.State()) && info.Valid()
    ensures old(info.Good()) ==> info.Good()
    ensures !stored || !imageOperation ==> info.ledger.State() == old(info.ledger.State())
    ensures
      var sure := imageOperation ==> old(info.InFlight() && info.Good()) && InBounds(info, quota);
      !fails && sure && info.billing != null && quota <= info.billing.preConsumed ==> stored
    ensures !imageOperation ==> (stored <==> !fails)
    ensures imageOperation ==> (stored <==> !fails && 0 <= quota <= QuotaMath.MAX_QUOTA && old(Attaches(info, quota)))
    ensures stored && imageOperation && info.billing != null && old(info.billing.Mine()) != [] ==>
              && info.Bill() == old(info.Bill()) + quota
              && info.billing.Mine() == [old(info.billing.Mine())[0].(phase := Settled)]
  {
    hide Conserves, Unique, Paid, SettleStep;
    ConservesSame(info.ledger.State());
    if fails {
      return false;
    }
    if !imageOperation {
      return true;
    }
    if quota < 0 || quota > QuotaMath.MAX_QUOTA {
      return false;
    }
    var i := Find(info.ledger.records, info.request);
    if i == |info.ledger.records| {
      return quota == 0;
    }
    var r := info.ledger.records[i];
    if info.request == "" || r.user != info.user || r.key != info.key || r.phase != ProviderStarted || r.amount < 0 || r.amount > QuotaMath.MAX_QUOTA {
      return false;
    }
    SettleOwn(info.ledger.State(), info.request, quota - r.amount);
    SettleIsGrantedIff(info.ledger.State(), i, quota - r.amount);
    StepConservesAll(info.ledger.State(), Event.Settle(info.request, quota - r.amount));
    var reply := info.ledger.Settle(info.request, quota - r.amount);
    stored := reply.Done?;
  }

  /** Reserve what the accepted task costs, store it, and settle. `stored` is the durability barrier. */
  method Complete(info: Info, imageOperation: bool, quota: int, finish: Ending) returns (stored: bool)
    requires info.Valid()
    modifies info.ledger, info.billing
    ensures Conserves(old(info.ledger.State()), info.ledger.State())
    ensures info.billing != null ==> !info.billing.refunded
    ensures !stored ==> info.Valid() && info.Bill() == old(info.Bill())
    ensures finish != Finish(false, false, false) ==> !stored
    ensures info.billing == null ==>
              (stored <==> finish == Finish(false, false, false)
                           && (imageOperation ==> 0 <= quota <= QuotaMath.MAX_QUOTA && old(Attaches(info, quota))))
    ensures old(info.InFlight() && info.Good()) ==>
              && (info.billing != null ==> info.billing.preConsumed == old(info.billing.preConsumed))
              && (!stored ==> info.InFlight() && info.Good())
              && (info.billing != null && stored ==>
                    && quota <= old(info.billing.preConsumed) && info.billing.settled
                    && info.Bill() == old(info.Bill()) + quota
                    && info.billing.Mine() != [] && info.billing.Mine()[0].phase == Settled)
              && (info.billing != null && finish == Finish(false, false, false) && (imageOperation ==> old(InBounds(info, quota))) ==>
                    (stored <==> quota <= old(info.billing.preConsumed)))
  {
    hide Conserves, Lookup, Unique, Paid;
    ConservesSame(info.ledger.State());
    if finish.cancelledBeforeReserve {
      return false;
    }
    if info.billing != null {
      var r := info.billing.Reserve(quota);
      if r != Ok {
        return false;
      }
    }
    if finish.cancelledBeforeInsert {
      return false;
    }
    ghost var reserved := info.ledger.State();
    stored := Insert(info, imageOperation, quota, finish.insertFails);
    ConservesOn(old(info.ledger.State()), reserved, info.ledger.State());
    if stored && info.billing != null {
      ghost var inserted := info.ledger.State();
      var _ := info.billing.Settle(quota);
      ConservesOn(old(info.ledger.State()), inserted, info.ledger.State());
    }
  }

  /** Submits a task. On every path either its row is stored once and never refunded, or it is not stored and exactly one of three things holds: the reservation was given
      back, an image operation whose fate is unknown keeps it for recovery, or there was none. A
      submission that finds a record under its request id always ends in a refund, which ends the record
      that the first submission made. When no duplicate acts on the record meanwhile, a stored row is
      settled at its quota, a held record stays marked as sent, and otherwise nothing is paid. */
  method SubmitTask(info: Info, imageOperation: bool, cancelledAtStart: bool, script: seq<Attempt>, finish: Ending)
    returns (outcome: Outcome, operation: OperationState, submits: nat, quota: int, ghost result: seq<int>, ghost taken: nat, ghost last: int)
    requires info.Valid() && info.billing == null && !info.started
    modifies info, info.ledger
    ensures Conserves(old(info.ledger.State()), info.ledger.State())
    ensures imageOperation ==> submits <= 1
    ensures Told(if cancelledAtStart then [] else script, imageOperation, taken, last, info.started, info.rejected, result, submits)
    ensures (outcome == Stored ==> result != []) && (result != [] ==> result == [quota])
    ensures info.billing == null && !imageOperation ==> (outcome == Stored <==> result != [] && finish == Finish(false, false, false))
    ensures cancelledAtStart || script == [] ==> outcome == NoBilling && submits == 0 && !info.started
    ensures outcome == Stored ==> finish == Finish(false, false, false)
    ensures imageOperation && info.started ==>
              && last == 0
              && var reply := script[0].submission.reply;
              if Refuses(reply) then outcome == (if info.billing != null then Refunded else NoBilling)
              else if reply.Accepted? then outcome == Stored || outcome == Held
              else outcome == Held
    ensures outcome == Stored ==> info.started && !info.rejected && (imageOperation ==> operation == TaskAccepted)
    ensures outcome == Stored && info.billing != null ==> !info.billing.replay && !info.billing.refunded
    ensures outcome != Stored && info.billing != null ==> !info.billing.settled
    ensures outcome != Stored && imageOperation ==> operation == if info.started && !info.rejected then RecoveryRequired else TaskFailed
    ensures outcome == Held <==> outcome != Stored && imageOperation && info.started && !info.rejected
    ensures outcome == Held && info.billing != null ==> !info.billing.refunded && !info.billing.replay
    ensures outcome == Refunded ==>
              && info.billing != null && info.billing.refunded
              && (info.billing.Mine() == [] || Terminal(info.billing.Mine()[0].phase))
    ensures outcome == NoBilling ==> info.billing == null
    ensures info.billing != null ==> (info.billing.replay <==> old(Lookup(info.ledger.records, info.request)) != [])
    ensures info.billing != null && info.billing.replay ==> outcome == Refunded
    ensures Undisturbed(script, info.request) && result != [] && info.billing != null && (imageOperation ==> InBounds(info, quota)) ==>
              (outcome == Stored <==> finish == Finish(false, false, false) && quota <= info.billing.preConsumed)
    ensures Undisturbed(script, info.request) ==>
              && (outcome == Stored && info.billing != null ==>
                    info.billing.settled && quota <= info.billing.preConsumed && info.Bill() == old(info.Bill()) + quota)
              && (outcome != Stored ==> info.Bill() == old(info.Bill()))
              && (outcome == Held && info.billing != null ==>
                    info.billing.Mine() != [] && info.billing.Mine()[0].phase == ProviderStarted)
  {
    hide Conserves, Lookup, Unique, Paid, Undisturbed;
    operation, submits, quota, result, taken, last := Submitting, 0, 0, [], 0, -1;
    ConservesSame(info.ledger.State());
    var stored := false;
    if !cancelledAtStart {
      var got, n;
      ghost var t, l;
      got, n, t, l := Attempts(info, imageOperation, script);
      submits, result, taken, last := n, got, t, l;
      if got != [] {
        quota := got[0];
        ghost var accepted := info.ledger.State();
        stored := Complete(info, imageOperation, quota, finish);
        ConservesOn(old(info.ledger.State()), accepted, info.ledger.State());
      }
    }
    if stored {
      outcome, operation := Stored, TaskAccepted;
      return;
    }
    if imageOperation {
      var uncertain := info.started && !info.rejected;
      operation := if uncertain then RecoveryRequired else TaskFailed;
      if uncertain {
        outcome := Held;
        return;
      }
    }
    if info.billing != null {
      ghost var tried := info.ledger.State();
      info.billing.Refund();
      ConservesOn(old(info.ledger.State()), tried, info.ledger.State());
      outcome := Refunded;
      return;
    }
    outcome := NoBilling;
  }
}
