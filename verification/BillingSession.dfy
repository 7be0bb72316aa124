/** One request's billing session on the wallet: reserve, top up, mark as sent, settle or refund. The
    reservation record behind it makes every one of these safe to repeat.
 */
module BillingSession {
  import opened BillingLedger

  // ---------------------------------------------------------------------------
  // What the ledger's transactions do to the session's own record
  // ---------------------------------------------------------------------------

  lemma MarkOwn(b: Books, request: string)
    requires Unique(b.records) && request != ""
    ensures
      var was, st := Lookup(b.records, request), MarkStep(b, request);
      && Unique(st.books.records) && st.books.closed == b.closed
      && (st.reply.Done? <==> was != [] && Active(was[0].phase))
      && Lookup(st.books.records, request) == if st.reply.Done? then [was[0].(phase := ProviderStarted)] else was
  {
    hide Find, Lookup, Unique;
    var i := Find(b.records, request);
    FindLookup(b.records, request);
    if i < |b.records| {
      LookupUpdate(b.records, i, b.records[i].(phase := ProviderStarted), request);
    }
  }

  lemma AppendOwn(b: Books, request: string, delta: int)
    requires Unique(b.records) && request != "" && delta > 0
    ensures
      var was, st := Lookup(b.records, request), AppendStep(b, request, delta);
      && Unique(st.books.records) && st.books.closed == b.closed
      && (st.reply.Done? ==> was != [] && was[0].phase == Reserved)
      && (st.reply == Failed(NotFound) <==> was == [])
      && Lookup(st.books.records, request) == if st.reply.Done? then [was[0].(amount := was[0].amount + delta)] else was
  {
    hide Find, Lookup, Unique, Refusal, Take;
    var i := Find(b.records, request);
    FindLookup(b.records, request);
    if i < |b.records| {
      var r := b.records[i];
      LookupUpdate(b.records, i, r.(amount := r.amount + delta), request);
      TakeKeeps(b, r.user, r.key, delta);
      RefusalKinds(b, r.user, r.key, r.unlimited, delta);
    }
  }

  lemma RefusalKinds(b: Books, user: int, key: int, unlimited: bool, amount: int)
    ensures
      var refusal := Refusal(b, user, key, unlimited, amount);
      && (refusal != [] ==> refusal[0] == InsufficientUser || refusal[0] == InsufficientKey)
      && (amount <= 0 ==> refusal == [])
  {
  }

  lemma SettleOwn(b: Books, request: string, delta: int)
    requires Unique(b.records) && request != ""
    ensures
      var was, st := Lookup(b.records, request), SettleStep(b, request, delta);
      var ends := was != [] && Active(was[0].phase) && st.reply.Done?;
      && Unique(st.books.records)
      && (st.reply == Failed(NotFound) <==> was == [])
      && (st.reply.Failed? ==> st.books == b)
      && (delta <= 0 && was != [] ==> st.reply.Done?)
      && Lookup(st.books.records, request) == (if ends then [was[0].(phase := Settled)] else was)
      && Paid(st.books.closed, request) == Paid(b.closed, request) + (if ends then was[0].amount + delta else 0)
  {
    hide Find, Lookup, Unique, Refusal, Take, Paid;
    var i := Find(b.records, request);
    FindLookup(b.records, request);
    if i < |b.records| {
      var r := b.records[i];
      LookupUpdate(b.records, i, r.(phase := Settled), request);
      TakeKeeps(b, r.user, r.key, delta);
      PaidAppend(b.closed, Entry(r.request, r.user, r.key, r.amount + delta), request);
      RefusalKinds(b, r.user, r.key, r.unlimited, delta);
    }
  }

  lemma ReleaseOwn(b: Books, request: string)
    requires Unique(b.records) && request != ""
    ensures
      var was, st := Lookup(b.records, request), ReleaseStep(b, request, false);
      && Unique(st.books.records)
      && Lookup(st.books.records, request) == (if was != [] && Active(was[0].phase) then [was[0].(phase := Released)] else was)
      && Paid(st.books.closed, request) == Paid(b.closed, request)
  {
    hide Find, Lookup, Unique, Take, Paid;
    var i := Find(b.records, request);
    FindLookup(b.records, request);
    if i < |b.records| {
      var r := b.records[i];
      LookupUpdate(b.records, i, r.(phase := Released), request);
      TakeKeeps(b, r.user, r.key, -r.amount);
      PaidAppend(b.closed, Entry(r.request, r.user, r.key, 0), request);
    }
  }

  // ---------------------------------------------------------------------------
  // The session
  // ---------------------------------------------------------------------------

  /** `WithoutRecord`: the ledger knows no record, and the caller turns to bookkeeping without one. */
  datatype Outcome = Ok | Refused(error: Error) | WithoutRecord

  class Session {
    const ledger: Ledger
    const request: string
    const user: int
    const key: int
    const unlimited: bool
    /** The record existed before this session: the request id is being replayed. */
    const replay: bool
    var preConsumed: int
    var settled: bool
    var refunded: bool

    ghost function Mine(): seq<Record>
      reads ledger
    {
      Lookup(ledger.records, request)
    }

    ghost function Bill(): int
      reads ledger
    {
      Paid(ledger.closed, request)
    }

    /** The session has something reserved under its request id. */
    ghost predicate Sound()
      reads this, ledger
    {
      Unique(ledger.records) && request != "" && preConsumed > 0
    }

    /** The record, while it exists, is the session's user's and holds exactly what the session believes it
        reserved. */
    ghost predicate Own()
      reads this, ledger
    {
      && Sound()
      && (replay || Mine() == [] || (Mine()[0].amount == preConsumed && Mine()[0].user == user && Mine()[0].key == key))
    }

    /** Binds a session to the reply of its reservation. */
    constructor (ledger: Ledger, request: string, user: int, key: int, unlimited: bool, quota: int, replay: bool)
      ensures this.ledger == ledger && this.request == request && this.user == user && this.key == key
      ensures this.unlimited == unlimited && this.replay == replay
      ensures preConsumed == quota && !settled && !refunded
    {
      this.ledger, this.request, this.user, this.key, this.unlimited := ledger, request, user, key, unlimited;
      this.replay, preConsumed, settled, refunded := replay, quota, false, false;
    }

    /** Charges the actual cost in place of what was reserved. */
    method Settle(actual: int) returns (r: Outcome)
      requires Sound()
      modifies this`settled, ledger
      ensures Sound() && (old(Own()) ==> Own()) && Conserves(old(ledger.State()), ledger.State())
      ensures old(settled) ==> r == Ok && settled && ledger.State() == old(ledger.State())
      ensures !old(settled) ==>
                var st := SettleStep(old(ledger.State()), request, actual - preConsumed);
                && ledger.State() == st.books
                && (settled <==> r == Ok)
                && r == (if st.reply.Done? || actual == preConsumed then Ok
                         else if st.reply.error == NotFound then WithoutRecord else Refused(st.reply.error))
      ensures actual <= preConsumed && old(Mine()) != [] ==> r == Ok
      ensures
        var was := old(Mine());
        var ends := !old(settled) && was != [] && Active(was[0].phase) && r == Ok;
        && Mine() == (if ends then [was[0].(phase := Settled)] else was)
        && Bill() == old(Bill()) + (if ends then was[0].amount + actual - preConsumed else 0)
        && (!replay && old(Own()) ==> Bill() == old(Bill()) + (if ends then actual else 0))
    {
      hide SettleStep, Lookup, Unique, Paid, Conserves;
      ConservesSame(ledger.State());
      if settled {
        return Ok;
      }
      var delta := actual - preConsumed;
      SettleOwn(ledger.State(), request, delta);
      StepConservesAll(ledger.State(), Event.Settle(request, delta));
      if delta == 0 {
        // No difference to move, but the record must still end.
        var _ := ledger.Settle(request, 0);
        settled := true;
        return Ok;
      }
      var reply := ledger.Settle(request, delta);
      if reply.Failed? {
        if reply.error == NotFound {
          return WithoutRecord;
        }
        return Refused(reply.error);
      }
      settled := true;
      r := Ok;
    }

    /** Records that the provider is about to be reached; the request must not be sent otherwise. */
    method MarkProviderStarted() returns (ok: bool)
      requires Sound()
      modifies ledger
      ensures Sound() && (old(Own()) ==> Own()) && Conserves(old(ledger.State()), ledger.State())
      ensures settled || refunded ==> ok && ledger.State() == old(ledger.State())
      ensures !settled && !refunded && replay ==> !ok && ledger.State() == old(ledger.State())
      ensures !settled && !refunded && !replay ==>
                && ledger.State() == MarkStep(old(ledger.State()), request).books
                && (ok <==> old(Mine()) != [] && Active(old(Mine())[0].phase))
                && Mine() == (if ok then [old(Mine())[0].(phase := ProviderStarted)] else old(Mine()))
                && Bill() == old(Bill())
    {
      hide MarkStep, Lookup, Unique, Paid, Conserves;
      ConservesSame(ledger.State());
      if settled || refunded {
        return true;
      }
      if replay {
        return false;
      }
      MarkOwn(ledger.State(), request);
      StepConservesAll(ledger.State(), Event.MarkStarted(request));
      var reply := ledger.MarkStarted(request);
      ok := reply.Done?;
    }

    /** Gives everything back, once; the release is the ledger's, so it cannot happen twice. */
    method Refund()
      requires Sound()
      modifies this`refunded, ledger
      ensures Sound() && (old(Own()) ==> Own()) && Conserves(old(ledger.State()), ledger.State())
      ensures old(settled || refunded) ==> ledger.State() == old(ledger.State()) && refunded == old(refunded)
      ensures !old(settled || refunded) ==>
                && refunded
                && ledger.State() == ReleaseStep(old(ledger.State()), request, false).books
                && Mine() == (if old(Mine()) != [] && Active(old(Mine())[0].phase) then [old(Mine())[0].(phase := Released)] else old(Mine()))
      ensures Bill() == old(Bill())
    {
      hide ReleaseStep, Lookup, Unique, Paid, Conserves;
      ConservesSame(ledger.State());
      if settled || refunded {
        return;
      }
      refunded := true;
      ReleaseOwn(ledger.State(), request);
      StepConservesAll(ledger.State(), Event.Release(request));
      var _ := ledger.Release(request, false);
    }

    /** As `Refund`, but a replayed request leaves the first one's reservation alone. */
    method RefundUnsent()
      requires Sound()
      modifies this`refunded, ledger
      ensures Sound() && (old(Own()) ==> Own()) && Conserves(old(ledger.State()), ledger.State())
      ensures old(settled || refunded) || replay ==> ledger.State() == old(ledger.State()) && refunded == old(refunded)
      ensures !old(settled || refunded) && !replay ==>
                && refunded
                && ledger.State() == ReleaseStep(old(ledger.State()), request, false).books
                && Mine() == (if old(Mine()) != [] && Active(old(Mine())[0].phase) then [old(Mine())[0].(phase := Released)] else old(Mine()))
      ensures Bill() == old(Bill())
    {
      hide Conserves;
      ConservesSame(ledger.State());
      if replay {
        return;
      }
      Refund();
    }

    /** Raises the reservation to `target`. Once the provider may have been reached this succeeds only
        when the reservation already covers it. */
    method Reserve(target: int) returns (r: Outcome)
      requires Sound()
      modifies this`preConsumed, ledger
      ensures Sound() && (old(Own()) ==> Own()) && Conserves(old(ledger.State()), ledger.State())
      ensures settled || refunded || target <= old(preConsumed) ==>
                r == Ok && ledger.State() == old(ledger.State()) && preConsumed == old(preConsumed)
      ensures !settled && !refunded && target > old(preConsumed) ==>
                var st := AppendStep(old(ledger.State()), request, target - old(preConsumed));
                && ledger.State() == st.books && (r == Ok <==> st.reply.Done?)
                && (r.Refused? ==> st.reply == Failed(r.error))
                && (r == Ok ==> preConsumed == target && old(Mine()) != [] && old(Mine())[0].phase == Reserved)
                && (r != Ok ==> preConsumed == old(preConsumed) && Mine() == old(Mine()))
                && (r == Ok ==> Mine() == [old(Mine())[0].(amount := old(Mine())[0].amount + target - old(preConsumed))])
                && (r == WithoutRecord <==> old(Mine()) == [])
      ensures Bill() == old(Bill())
    {
      hide AppendStep, Lookup, Unique, Paid, Conserves;
      ConservesSame(ledger.State());
      if settled || refunded || target <= preConsumed {
        return Ok;
      }
      var delta := target - preConsumed;
      AppendOwn(ledger.State(), request, delta);
      StepConservesAll(ledger.State(), Event.Append(request, delta));
      var reply := ledger.Append(request, delta);
      if reply.Failed? {
        return if reply.error == NotFound then WithoutRecord else Refused(reply.error);
      }
      preConsumed := preConsumed + delta;
      r := Ok;
    }

    /** Others run meanwhile, duplicates of this request included. As long as only other requests and the
        background jobs do, the session's view of its record stays true and a started record stays. */
    method Meanwhile(events: seq<Event>)
      requires Sound()
      modifies ledger
      ensures ledger.State() == After(old(ledger.State()), events)
      ensures Sound() && Conserves(old(ledger.State()), ledger.State())
      ensures AllForeign(events, request) ==>
                Drifted(old(Mine()), Mine()) && Bill() == old(Bill()) && (old(Own()) ==> Own())
      ensures
        var was := old(Mine());
        was != [] && was[0].phase == ProviderStarted && (forall i :: 0 <= i < |events| ==> Duplicate(events[i], request)) ==>
          && Bill() == old(Bill())
          && (Mine() == was <==> forall i :: 0 <= i < |events| ==> events[i] != Event.Release(request))
    {
      hide After, Lookup, Unique, Paid, AllForeign, Duplicate, Conserves;
      RunKeepsUnique(ledger.State(), events);
      if AllForeign(events, request) {
        ForeignEvents(ledger.State(), events, request);
      }
      if Mine() != [] && Mine()[0].phase == ProviderStarted && forall i :: 0 <= i < |events| ==> Duplicate(events[i], request) {
        DuplicatesDisturbIff(ledger.State(), events, request);
      }
      RunConservesAll(ledger.State(), events);
      ledger.Run(events);
    }
  }

  /** `Unrecorded`: nothing to reserve, so the session has no record and is not followed further. */
  datatype Opening = Opened(session: Session) | Rejected | Unrecorded

  /** Opens a session on the wallet: the balance must be positive and cover the quota, and the wallet
      and the key must both grant it. A refused opening changes nothing. */
  method Open(ledger: Ledger, request: string, user: int, key: int, unlimited: bool, quota: int) returns (r: Opening)
    requires Unique(ledger.records)
    modifies ledger
    ensures Unique(ledger.records) && Conserves(old(ledger.State()), ledger.State()) && ledger.closed == old(ledger.closed)
    ensures !r.Opened? ==> ledger.State() == old(ledger.State())
    ensures
      var b := old(ledger.State());
      var covered := quota >= 0 && user in b.users && b.users[user] > 0 && b.users[user] >= quota;
      && (r.Unrecorded? <==> covered && quota == 0)
      && (r.Opened? <==> && covered && quota > 0 && request != "" && user > 0
                         && (!Unknown(b, request) || KeyCovers(b, key, unlimited, quota)))
    ensures r.Opened? ==>
              var s := r.session;
              && fresh(s) && s.ledger == ledger && s.request == request && s.user == user && s.key == key && s.Own() && !s.settled && !s.refunded
              && s.preConsumed == quota > 0
              && (s.replay <==> old(Lookup(ledger.records, request)) != [])
              && (s.replay ==> ledger.State() == old(ledger.State()))
              && (!s.replay ==> s.Mine() == [Record(request, user, key, unlimited, quota, Reserved)])
  {
    hide Lookup, Unique, Find, Refusal, Take, Conserves, Paid;
    ConservesSame(ledger.State());
    if quota < 0 || user !in ledger.users || ledger.users[user] <= 0 || ledger.users[user] - quota < 0 {
      return Rejected;
    }
    if quota == 0 {
      return Unrecorded;
    }
    ghost var b := ledger.State();
    StepConservesAll(b, Event.Reserve(request, user, key, unlimited, quota));
    ReserveIsGrantedIff(b, request, user, key, unlimited, quota);
    FindLookup(b.records, request);
    TakeKeeps(b, user, key, quota);
    if Lookup(b.records, request) == [] {
      LookupAppend(b.records, Record(request, user, key, unlimited, quota, Reserved), request);
    }
    var reply := ledger.Reserve(request, user, key, unlimited, quota);
    if reply.Failed? {
      return Rejected;
    }
    var s := new Session(ledger, request, user, key, unlimited, quota, !reply.changed);
    r := Opened(s);
  }

  // ---------------------------------------------------------------------------
  // What a request pays when duplicates share its record
  // ---------------------------------------------------------------------------

  /** The event raised the request's record. */
  predicate Raises(b: Books, e: Event, request: string) {
    e.Append? && e.request == request && Next(b, e).reply == Done(true)
  }

  /** The event ended the request's record by releasing it. */
  predicate Ends(b: Books, e: Event, request: string) {
    (e.Release? || e.ReleaseUnsent?) && e.request == request && Next(b, e).reply == Done(true)
  }

  predicate NoneRaises(b: Books, events: seq<Event>, request: string)
    decreases |events|
  {
    events != [] ==> !Raises(b, events[0], request) && NoneRaises(Next(b, events[0]).books, events[1..], request)
  }

  predicate NoneEnds(b: Books, events: seq<Event>, request: string)
    decreases |events|
  {
    events != [] ==> !Ends(b, events[0], request) && NoneEnds(Next(b, events[0]).books, events[1..], request)
  }

  /** A granted top-up, and nothing else, changes what a record holds; a release that is carried out, and
      nothing else here, ends it. */
  lemma DuplicateStep(b: Books, e: Event, request: string)
    requires Unique(b.records) && request != "" && Lookup(b.records, request) != [] && Duplicate(e, request)
    ensures
      var was, now := Lookup(b.records, request), Lookup(Next(b, e).books.records, request);
      && Unique(Next(b, e).books.records) && now != []
      && was[0].amount <= now[0].amount && (Raises(b, e, request) <==> was[0].amount < now[0].amount)
      && (Terminal(was[0].phase) ==> now == was)
      && (Ends(b, e, request) <==> Active(was[0].phase) && Terminal(now[0].phase))
  {
    hide Lookup, Unique, Count, Find, Refusal, Take, Swept;
    StepMoves(b, e, request);
    FindLookup(b.records, request);
    if e.Append? && e.request == request && e.delta > 0 {
      AppendOwn(b, request, e.delta);
    } else if e.Release? && e.request == request {
      ReleaseOwn(b, request);
    } else if e.ReleaseUnsent? && e.request == request {
      ReleaseUnsentOwn(b, request);
    }
  }

  lemma ReleaseUnsentOwn(b: Books, request: string)
    requires Unique(b.records) && request != ""
    ensures
      var was, st := Lookup(b.records, request), ReleaseStep(b, request, true);
      Lookup(st.books.records, request) == if was != [] && was[0].phase == Reserved then [was[0].(phase := Released)] else was
  {
    hide Find, Lookup, Unique, Take;
    var i := Find(b.records, request);
    FindLookup(b.records, request);
    if i < |b.records| {
      var r := b.records[i];
      LookupUpdate(b.records, i, r.(phase := Released), request);
      TakeKeeps(b, r.user, r.key, -r.amount);
    }
  }

  lemma {:induction false} DuplicateRun(b: Books, events: seq<Event>, request: string)
    requires Unique(b.records) && request != "" && Lookup(b.records, request) != []
    requires forall i :: 0 <= i < |events| ==> Duplicate(events[i], request)
    ensures
      var b' := After(b, events);
      var was, now := Lookup(b.records, request), Lookup(b'.records, request);
      && Unique(b'.records) && now != [] && Paid(b'.closed, request) == Paid(b.closed, request)
      && was[0].amount <= now[0].amount && (NoneRaises(b, events, request) <==> now[0].amount == was[0].amount)
      && (Terminal(was[0].phase) ==> now == was)
      && (Active(was[0].phase) ==> (NoneEnds(b, events, request) <==> Active(now[0].phase)))
    decreases |events|
  {
    hide Next, Lookup, Unique, Count, Paid, Duplicate, Raises, Ends;
    if events != [] {
      DuplicateStep(b, events[0], request);
      DuplicatePaysNothing(b, events[0], request);
      DuplicateRun(Next(b, events[0]).books, events[1..], request);
    }
  }

  lemma DuplicatePaysNothing(b: Books, e: Event, request: string)
    requires Duplicate(e, request)
    ensures Paid(Next(b, e).books.closed, request) == Paid(b.closed, request)
  {
    hide Next, Paid;
    StepPaid(b, e, request);
  }

  /** A session reserves an amount, duplicates and others then act on the ledger, and the session settles
      at the actual cost by the difference it knows of. When that settlement goes through, the request
      pays exactly its cost iff no duplicate raised the record - or, when a release ended it, iff the
      cost is zero. */
  lemma PaysItsCostIff(b: Books, events: seq<Event>, request: string, actual: int)
    requires Unique(b.records) && request != ""
    requires Lookup(b.records, request) != [] && Active(Lookup(b.records, request)[0].phase)
    requires forall i :: 0 <= i < |events| ==> Duplicate(events[i], request)
    requires SettleStep(After(b, events), request, actual - Lookup(b.records, request)[0].amount).reply.Done?
    ensures
      var st := SettleStep(After(b, events), request, actual - Lookup(b.records, request)[0].amount);
      Paid(st.books.closed, request) == Paid(b.closed, request) + actual <==>
      if NoneEnds(b, events, request) then NoneRaises(b, events, request) else actual == 0
  {
    hide After, Lookup, Unique, Paid, Duplicate, NoneRaises, NoneEnds, SettleStep;
    DuplicateRun(b, events, request);
    SettleOwn(After(b, events), request, actual - Lookup(b.records, request)[0].amount);
  }
}
