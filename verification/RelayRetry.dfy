/** The relay's retry loop and its deferred refund: which outcomes of an attempt allow another one, and
    which allow giving the reservation back. What the provider, the channel selection and the retry
    policy do is given by a script, one entry per attempt.
 */
module RelayRetry {
  import opened BillingLedger
  import opened BillingSession

  /** How a call ended for the caller: a success, a refusal the provider states, an error raised before
      anything was sent, any other error, or a panic. */
  datatype Result = Succeeded | ExplicitFailure | NotSent | Unclear | Aborted

  datatype Setup = Ready | Fails | Panics

  /** `setup` is channel selection, `midway` what lies between the top-up and the mark, such as reading
      the body. `before` and `during` are what other requests and background jobs do to the ledger meanwhile;
      `settles` is the cost the handler settles, if it does. */
  datatype Attempt = Attempt(setup: Setup, target: int, midway: Setup, before: seq<Event>, during: seq<Event>,
                             settles: seq<int>, result: Result, retry: bool)

  datatype Provider = ProviderUnsent | ProviderUnknown | ProviderExplicitFailure

  datatype Act = Marked | MarkRefused | Sent(result: Result) | CalledRefund | CalledRefundUnsent

  /** The call certainly left nothing running at the provider. */
  predicate Definite(r: Result) {
    r == ExplicitFailure || r == NotSent
  }

  predicate IsRefund(a: Act) {
    a == CalledRefund || a == CalledRefundUnsent
  }

  predicate AllDefinite(trace: seq<Act>) {
    forall i :: 0 <= i < |trace| && trace[i].Sent? ==> Definite(trace[i].result)
  }

  predicate AnySent(trace: seq<Act>) {
    exists i :: 0 <= i < |trace| && trace[i].Sent?
  }

  /** Every send directly follows a successful mark. */
  predicate MarkedFirst(trace: seq<Act>) {
    forall i :: 0 <= i < |trace| && trace[i].Sent? ==> i > 0 && trace[i - 1] == Marked
  }

  /** A send that may still be running at the provider is the last one. */
  predicate UnknownIsLast(trace: seq<Act>) {
    forall i, j :: 0 <= i < j < |trace| && trace[i].Sent? && trace[j].Sent? ==> Definite(trace[i].result)
  }

  /** A refund can only be the last act, so there is at most one. */
  predicate RefundIsLast(trace: seq<Act>) {
    forall i :: 0 <= i < |trace| && IsRefund(trace[i]) ==> i == |trace| - 1
  }

  /** What the last send says about the provider. */
  function ProviderAfter(trace: seq<Act>): Provider {
    if trace == [] then ProviderUnsent
    else match trace[|trace| - 1]
      case Sent(ExplicitFailure) => ProviderExplicitFailure
      case Sent(NotSent) => ProviderUnsent
      case Sent(_) => ProviderUnknown
      case _ => ProviderAfter(trace[..|trace| - 1])
  }

  /** While the request runs, nobody else acts on its record but the recovery and cleanup jobs. */
  predicate Undisturbed(script: seq<Attempt>, request: string) {
    forall i :: 0 <= i < |script| ==> AllForeign(script[i].before, request) && AllForeign(script[i].during, request)
  }

  /** The trace so far, before any refund. */
  predicate Orderly(trace: seq<Act>, billed: bool) {
    && (billed ==> MarkedFirst(trace))
    && UnknownIsLast(trace)
    && forall i :: 0 <= i < |trace| ==> !IsRefund(trace[i])
  }

  lemma TraceGrows(trace: seq<Act>, act: Act, billed: bool)
    requires Orderly(trace, billed) && AllDefinite(trace) && !IsRefund(act)
    requires act.Sent? && billed ==> trace != [] && trace[|trace| - 1] == Marked
    ensures
      var grown := trace + [act];
      && Orderly(grown, billed)
      && (AllDefinite(grown) <==> act.Sent? ==> Definite(act.result))
      && (AnySent(grown) <==> AnySent(trace) || act.Sent?)
      && ProviderAfter(grown) == match act
         case Sent(ExplicitFailure) => ProviderExplicitFailure
         case Sent(NotSent) => ProviderUnsent
         case Sent(_) => ProviderUnknown
         case _ => ProviderAfter(trace)
  {
    var grown := trace + [act];
    assert grown[..|grown| - 1] == trace && grown[|trace|] == act;
    assert forall i :: 0 <= i < |trace| ==> grown[i] == trace[i];
  }

  lemma TraceEnds(trace: seq<Act>, act: Act)
    requires Orderly(trace, true) && IsRefund(act)
    ensures
      var grown := trace + [act];
      && MarkedFirst(grown) && UnknownIsLast(grown) && RefundIsLast(grown)
      && (AllDefinite(grown) <==> AllDefinite(trace))
      && (AnySent(grown) <==> AnySent(trace))
      && ProviderAfter(grown) == ProviderAfter(trace)
  {
    var grown := trace + [act];
    assert grown[..|grown| - 1] == trace && grown[|trace|] == act;
    assert forall i :: 0 <= i < |trace| ==> grown[i] == trace[i];
  }

  lemma OrderlyTrace(trace: seq<Act>, billed: bool)
    requires Orderly(trace, billed)
    ensures (billed ==> MarkedFirst(trace)) && UnknownIsLast(trace) && RefundIsLast(trace)
    ensures trace != [] ==> !IsRefund(trace[|trace| - 1])
  {
  }

  lemma EmptyTrace(billed: bool)
    ensures Orderly([], billed) && AllDefinite([]) && !AnySent([]) && ProviderAfter([]) == ProviderUnsent
  {
  }

  /** The ledger after the reservation was raised to a target, if it was below it. */
  function Topped(b: Books, request: string, held: int, target: int): BillingLedger.Step {
    if target <= held then BillingLedger.Step(b, Done(false)) else AppendStep(b, request, target - held)
  }

  /** The part of an attempt before the call: the reservation follows a dearer group, the body is read,
      and the mark is made. Neither failing nor marking is a panic. */
  method Prepare(s: Session, a: Attempt) returns (failed: bool, marked: bool, refused: bool)
    requires s.Sound() && !s.refunded
    modifies s`preConsumed, s.ledger
    ensures s.Sound() && Conserves(old(s.ledger.State()), s.ledger.State())
    ensures !(failed && marked) && (refused ==> failed)
    ensures !failed && !marked ==> a.midway == Panics
    ensures marked && s.replay ==> s.settled
    ensures
      var top := Topped(old(s.ledger.State()), s.request, old(s.preConsumed), a.target);
      var met := After(top.books, a.before);
      if s.settled then marked == (a.midway == Ready) && failed == (a.midway == Fails) && !refused
      else
        && (marked <==> top.reply.Done? && a.midway == Ready && !s.replay && InUse(met, s.request))
        && (failed <==> !marked && (top.reply.Done? ==> a.midway != Panics))
        && (refused <==> failed && top.reply.Done? && a.midway == Ready)
        && s.ledger.State() == (if !top.reply.Done? || a.midway != Ready then top.books
                                else if s.replay then met else MarkStep(met, s.request).books)
    ensures marked && !s.settled ==> s.Mine() != [] && s.Mine()[0].phase == ProviderStarted
    ensures AllForeign(a.before, s.request) ==> s.Bill() == old(s.Bill()) && (old(s.Own()) ==> s.Own())
    ensures
      var was := old(s.Mine());
      AllForeign(a.before, s.request) && !s.settled && !s.replay && was != [] && was[0].phase == ProviderStarted ==>
        s.Mine() == was && s.preConsumed == old(s.preConsumed)
  {
    hide Conserves, Lookup, Unique, Paid, AllForeign;
    failed, marked, refused := true, false, false;
    ghost var start := s.ledger.State();
    var r := s.Reserve(a.target);
    ghost var reserved := s.ledger.State();
    if r != Ok {
      return;
    }
    if a.midway != Ready {
      failed := a.midway == Fails;
      return;
    }
    s.Meanwhile(a.before);
    ConservesOn(start, reserved, s.ledger.State());
    ghost var met := s.ledger.State();
    marked := s.MarkProviderStarted();
    ConservesOn(start, met, s.ledger.State());
    failed, refused := !marked, !marked;
  }

  predicate Started(mine: seq<Record>) {
    mine != [] && mine[0].phase == ProviderStarted
  }

  /** The call, as far as the ledger sees it. `charged` is what the handler settled. */
  method Call(s: Session, a: Attempt) returns (charged: int)
    requires s.Sound() && !s.refunded
    modifies s`settled, s.ledger
    ensures s.Sound() && Conserves(old(s.ledger.State()), s.ledger.State())
    ensures (s.settled || charged == 0) && (old(s.settled) ==> charged == 0 && s.settled)
    ensures
      var met := After(old(s.ledger.State()), a.during);
      if old(s.settled) || a.settles == [] then s.ledger.State() == met && s.settled == old(s.settled)
      else
        var st := SettleStep(met, s.request, a.settles[0] - s.preConsumed);
        && s.ledger.State() == st.books
        && (s.settled <==> st.reply.Done? || a.settles[0] == s.preConsumed)
        && charged == if s.settled then a.settles[0] else 0
    ensures AllForeign(a.during, s.request) && old(s.Own()) ==> s.Own()
    ensures AllForeign(a.during, s.request) && old(s.Own()) && (!old(s.settled) ==> !s.replay && Started(old(s.Mine()))) ==>
              s.Bill() == old(s.Bill()) + charged && (!s.settled ==> s.Mine() == old(s.Mine()))
  {
    hide Conserves, Lookup, Unique, Paid, AllForeign, Duplicate;
    charged := 0;
    s.Meanwhile(a.during);
    ghost var met := s.ledger.State();
    if a.settles != [] && !s.settled {
      var r := s.Settle(a.settles[0]);
      ConservesOn(old(s.ledger.State()), met, s.ledger.State());
      if r == Ok {
        charged := a.settles[0];
      }
    }
  }

  /** An attempt with a session: prepared, and called when it was marked. */
  method Serve(s: Session, a: Attempt) returns (failed: bool, marked: bool, refused: bool, charged: int)
    requires s.Sound() && !s.refunded
    modifies s`preConsumed, s`settled, s.ledger
    ensures s.Sound() && Conserves(old(s.ledger.State()), s.ledger.State())
    ensures !(failed && marked) && (refused ==> failed)
    ensures marked && s.replay ==> old(s.settled)
    ensures (old(s.settled) ==> s.settled && charged == 0) && (!s.settled ==> charged == 0)
    ensures !marked ==> s.settled == old(s.settled)
    ensures marked ==> a.midway == Ready
    ensures a.midway == Fails ==> failed
    ensures !failed && !marked ==> a.midway == Panics
    ensures refused ==> a.midway == Ready
    ensures !old(s.settled) ==>
              var top := Topped(old(s.ledger.State()), s.request, old(s.preConsumed), a.target);
              && (marked <==> top.reply.Done? && a.midway == Ready && !s.replay && InUse(After(top.books, a.before), s.request))
              && (refused <==> !marked && top.reply.Done? && a.midway == Ready)
    ensures AllForeign(a.before, s.request) && AllForeign(a.during, s.request) && old(s.Own()) ==>
              && s.Own() && s.Bill() == old(s.Bill()) + charged
              && (!s.settled && (marked || (!s.replay && Started(old(s.Mine())))) ==> Started(s.Mine()))
  {
    hide Conserves, AllForeign, Session.Own, Session.Sound, Session.Mine, Session.Bill, Ledger.State;
    failed, marked, refused := Prepare(s, a);
    charged := 0;
    if marked {
      ghost var prepared := s.ledger.State();
      charged := Call(s, a);
      ConservesOn(old(s.ledger.State()), prepared, s.ledger.State());
    }
  }

  /** The deferred refund: none while the provider's outcome is unknown. */
  method Deferred(s: Session, provider: Provider) returns (act: seq<Act>)
    requires s.Sound() && !s.refunded && (s.replay ==> !s.settled && provider == ProviderUnsent)
    modifies s`refunded, s.ledger
    ensures s.Sound() && (old(s.Own()) ==> s.Own()) && s.Bill() == old(s.Bill()) && Conserves(old(s.ledger.State()), s.ledger.State())
    ensures act == match provider
                   case ProviderUnsent => [CalledRefundUnsent]
                   case ProviderExplicitFailure => [CalledRefund]
                   case ProviderUnknown => []
    ensures s.replay ==> !s.refunded
    ensures act == [] ==> s.Mine() == old(s.Mine())
    ensures !s.replay && !s.settled && act != [] ==> s.Mine() == [] || Terminal(s.Mine()[0].phase)
  {
    hide Conserves, Lookup, Unique, Paid;
    ConservesSame(s.ledger.State());
    match provider {
      case ProviderUnsent =>
        s.RefundUnsent();
        act := [CalledRefundUnsent];
      case ProviderExplicitFailure =>
        s.Refund();
        act := [CalledRefund];
      case ProviderUnknown =>
        act := [];
    }
  }

  /** How far an attempt got: it panicked or was barred before the call, or the call was made. */
  datatype Course = Panicked | Barred | Called

  /** One attempt. With a session the call needs the mark; without one it needs nothing. */
  method Try(s: Session?, a: Attempt) returns (course: Course, refused: bool, charged: int)
    requires s != null ==> s.Sound() && !s.refunded
    modifies if s == null then {} else {s, s.ledger}
    ensures s != null ==> s.Sound() && !s.refunded && Conserves(old(s.ledger.State()), s.ledger.State())
    ensures course == Called ==> a.setup == Ready && a.midway == Ready
    ensures a.setup == Panics ==> course == Panicked
    ensures a.setup == Fails || (a.setup == Ready && a.midway == Fails) ==> course == Barred
    ensures a.setup == Ready && a.midway == Panics ==> course != Called && (s == null ==> course == Panicked)
    ensures a.setup == Ready && a.midway == Ready ==> course != Panicked && (s == null ==> course == Called)
    ensures refused ==> s != null && course == Barred && a.setup == Ready && a.midway == Ready
    ensures s != null && !old(s.settled) && a.setup == Ready ==>
              var top := Topped(old(s.ledger.State()), s.request, old(s.preConsumed), a.target);
              && (course == Called <==> top.reply.Done? && a.midway == Ready && !s.replay && InUse(After(top.books, a.before), s.request))
              && (refused <==> course == Barred && top.reply.Done? && a.midway == Ready)
    ensures s != null && course == Called && s.replay ==> old(s.settled)
    ensures s != null ==>
              && (old(s.settled) ==> s.settled && charged == 0) && (!s.settled ==> charged == 0)
              && (course != Called ==> s.settled == old(s.settled))
    ensures s != null && AllForeign(a.before, s.request) && AllForeign(a.during, s.request) && old(s.Own()) ==>
              && s.Own() && s.Bill() == old(s.Bill()) + charged
              && (!s.settled && (course == Called || (!s.replay && Started(old(s.Mine())))) ==> Started(s.Mine()))
  {
    hide Conserves, AllForeign, Session.Own, Session.Sound, Session.Mine, Session.Bill, Ledger.State, Topped, InUse, After, Started;
    refused, charged := false, 0;
    if s != null { ConservesSame(s.ledger.State()); }
    if a.setup != Ready {
      course := if a.setup == Panics then Panicked else Barred;
      return;
    }
    if s == null {
      course := match a.midway case Ready => Called case Fails => Barred case Panics => Panicked;
      return;
    }
    var failed, marked;
    failed, marked, refused, charged := Serve(s, a);
    course := if marked then Called else if failed then Barred else Panicked;
  }

  /** The acts of the first `n` attempts of a script when each of them made its call. */
  function ActsOf(script: seq<Attempt>, n: nat, billed: bool): seq<Act>
    requires n <= |script|
  {
    if n == 0 then []
    else ActsOf(script, n - 1, billed) + if billed then [Marked, Sent(script[n - 1].result)] else [Sent(script[n - 1].result)]
  }

  /** Nothing in the attempt stops the loop: the call is made, it certainly failed, and the policy retries. */
  predicate GoesOn(a: Attempt) {
    a.setup == Ready && a.midway == Ready && Definite(a.result) && a.retry
  }

  /** What the loop did, told from the script: it entered `taken` attempts, all but the last of which went
      on; `sent` is whether the last made its call, `refused` whether its mark was refused. */
  predicate Told(script: seq<Attempt>, billed: bool, taken: nat, sent: bool, refused: bool, trace: seq<Act>, failed: bool) {
    && taken <= |script| && (taken == 0 <==> script == []) && (taken == 0 ==> !sent && !refused && !failed)
    && (forall k :: 0 <= k < taken - 1 ==> GoesOn(script[k]))
    && (taken < |script| ==> !sent || !GoesOn(script[taken - 1]))
    && trace == (if sent || taken == 0 then ActsOf(script, taken, billed) else ActsOf(script, taken - 1, billed))
                + (if refused then [MarkRefused] else [])
    && (taken > 0 ==> Ended(script[taken - 1], billed, sent, refused, failed, taken > 1))
  }

  /** How the last attempt decides whether an error remains; `again` is whether it was a retry, so that the
      error of the attempt before it is still there. */
  predicate Ended(a: Attempt, billed: bool, sent: bool, refused: bool, failed: bool, again: bool) {
    && (sent ==> a.setup == Ready && a.midway == Ready && !refused)
    && (refused ==> billed && failed && a.setup == Ready && a.midway == Ready)
    && (a.setup == Fails || (a.setup == Ready && a.midway == Fails) ==> failed)
    && (a.setup == Panics ==> (failed <==> again))
    && (a.setup == Ready && a.midway == Panics ==> (again ==> failed) && (!billed ==> (failed <==> again)))
    && (a.setup == Ready && a.midway == Ready && !sent ==> billed && failed)
    && (sent ==> (failed <==> match a.result
                              case Succeeded => false
                              case Aborted => again
                              case _ => true))
  }

  /** The retry loop. On exit the trace holds no refund yet, and `provider` is what the last call says. */
  method Attempts(s: Session?, script: seq<Attempt>)
    returns (trace: seq<Act>, failed: bool, charged: int, provider: Provider, taken: nat, sent: bool, refused: bool)
    requires s != null ==> s.Sound() && !s.settled && !s.refunded
    modifies if s == null then {} else {s, s.ledger}
    ensures Orderly(trace, s != null) && provider == ProviderAfter(trace)
    ensures AllDefinite(trace) <==> provider != ProviderUnknown
    ensures !AnySent(trace) ==> provider == ProviderUnsent
    ensures AnySent(trace) && AllDefinite(trace) ==> failed
    ensures Told(script, s != null, taken, sent, refused, trace, failed)
    ensures script != [] && script[0].setup == Ready && s != null ==> (AnySent(trace) <==> old(FirstCalled(s, script[0])))
    ensures s != null ==> s.Sound() && (!s.settled ==> charged == 0) && !s.refunded
    ensures s != null ==> Conserves(old(s.ledger.State()), s.ledger.State())
    ensures s != null && s.replay ==> !AnySent(trace) && !s.settled
    ensures s != null && Undisturbed(script, s.request) && old(s.Own()) ==>
              && s.Own() && s.Bill() == old(s.Bill()) + charged
              && (!s.settled && AnySent(trace) ==> Started(s.Mine()))
  {
    hide Orderly, AllDefinite, AnySent, ProviderAfter, AllForeign, Conserves, Ledger.State, Started, ActsOf, InUse, Topped, After,
      Session.Own, Session.Sound, Session.Mine, Session.Bill;
    ghost var calm := s != null && Undisturbed(script, s.request) && s.Own();
    ghost var first := s != null && script != [] && FirstCalled(s, script[0]);
    trace, failed, charged, taken, sent, refused := [], false, 0, 0, false, false;
    EmptyTrace(s != null);
    NoActs(script, s != null);
    if s != null { ConservesSame(s.ledger.State()); }
    provider := ProviderUnsent;
    while taken < |script|
      invariant taken <= |script| && (forall k :: 0 <= k < taken ==> GoesOn(script[k]))
      invariant trace == ActsOf(script, taken, s != null) && !refused
      invariant (sent <==> taken > 0) && (failed <==> taken > 0) && (AnySent(trace) <==> taken > 0)
      invariant Orderly(trace, s != null) && AllDefinite(trace)
      invariant provider == ProviderAfter(trace) && provider != ProviderUnknown
      invariant taken == 0 ==> provider == ProviderUnsent
      invariant s != null && taken == 0 ==> !s.settled && s.ledger.State() == old(s.ledger.State()) && s.preConsumed == old(s.preConsumed)
      invariant s != null && taken > 0 && script[0].setup == Ready ==> first
      invariant s != null ==> s.Sound() && (!s.settled ==> charged == 0) && !s.refunded
      invariant s != null ==> Conserves(old(s.ledger.State()), s.ledger.State())
      invariant s != null && s.replay ==> taken == 0 && !s.settled
      invariant calm ==> s.Own() && s.Bill() == old(s.Bill()) + charged
      invariant calm && !s.settled && taken > 0 ==> Started(s.Mine())
    {
      var a := script[taken];
      ghost var before := if s == null then BillingLedger.Books(map[], map[], [], []) else s.ledger.State();
      var course, settledNow;
      course, refused, settledNow := Try(s, a);
      if s != null {
        ConservesOn(old(s.ledger.State()), before, s.ledger.State());
      }
      charged := charged + settledNow;
      taken := taken + 1;
      if course != Called {
        if refused {
          TraceGrows(trace, MarkRefused, true);
          trace := trace + [MarkRefused];
        }
        return trace, course == Barred || failed, charged, provider, taken, false, refused;
      }
      MoreActs(script, taken, s != null, trace);
      if s != null {
        TraceGrows(trace, Marked, true);
        trace := trace + [Marked];
      }
      sent, provider := true, ProviderUnknown;
      TraceGrows(trace, Sent(a.result), s != null);
      trace := trace + [Sent(a.result)];
      if a.result == Aborted {
        return;
      }
      failed := a.result != Succeeded;
      if a.result == Succeeded {
        return;
      }
      if a.result == ExplicitFailure {
        provider := ProviderExplicitFailure;
      } else if a.result == NotSent {
        provider := ProviderUnsent;
      }
      if provider == ProviderUnknown || !a.retry {
        return;
      }
    }
  }

  /** The first attempt's call is made: its top-up goes through, and after what others do before the mark
      the session's own record is there and has not ended. */
  ghost predicate FirstCalled(s: Session, a: Attempt)
    reads s, s.ledger
  {
    var top := Topped(s.ledger.State(), s.request, s.preConsumed, a.target);
    top.reply.Done? && a.midway == Ready && !s.replay && InUse(After(top.books, a.before), s.request)
  }

  lemma NoActs(script: seq<Attempt>, billed: bool)
    ensures ActsOf(script, 0, billed) == []
  {
  }

  lemma MoreActs(script: seq<Attempt>, n: nat, billed: bool, trace: seq<Act>)
    requires 0 < n <= |script| && trace == ActsOf(script, n - 1, billed)
    ensures
      var sent := Sent(script[n - 1].result);
      ActsOf(script, n, billed) == if billed then trace + [Marked] + [sent] else trace + [sent]
  {
  }

  /** Relays one request. `failed` is whether an error remains when the deferred refund looks, `charged`
      what the handler settled. Whatever the script does, including a panic at any step: at most one
      refund is called, as the last act; it is called iff an error remains and no call was left in
      doubt; a call in doubt is the last call; every call follows a successful mark; and a refund leaves
      the record ended. The acts before the refund, and whether an error remains, are told from the
      script. When no duplicate of the request acts on its record meanwhile, the request pays
      exactly what was settled and a reservation whose call is in doubt stays held. */
  method Relay(s: Session?, script: seq<Attempt>)
    returns (trace: seq<Act>, failed: bool, charged: int, ghost taken: nat, ghost sent: bool, ghost refused: bool)
    requires s != null ==> s.Sound() && !s.settled && !s.refunded
    modifies if s == null then {} else {s, s.ledger}
    ensures UnknownIsLast(trace) && RefundIsLast(trace)
    ensures s != null ==> MarkedFirst(trace)
    ensures trace != [] && IsRefund(trace[|trace| - 1]) <==> s != null && failed && AllDefinite(trace)
    ensures trace != [] && trace[|trace| - 1] == CalledRefund ==> ProviderAfter(trace) == ProviderExplicitFailure
    ensures trace != [] && trace[|trace| - 1] == CalledRefundUnsent ==> ProviderAfter(trace) == ProviderUnsent
    ensures Told(script, s != null, taken, sent, refused, BeforeRefund(trace), failed)
    ensures
      var calls := Calls(taken, sent);
      var clear := calls == 0 || script[calls - 1].result in {ExplicitFailure, NotSent};
      if s != null && failed && clear
      then trace == BeforeRefund(trace) + [if calls > 0 && script[calls - 1].result == ExplicitFailure then CalledRefund else CalledRefundUnsent]
      else trace == BeforeRefund(trace)
    ensures script != [] && script[0].setup == Ready && s != null ==> (AnySent(trace) <==> old(FirstCalled(s, script[0])))
    ensures s != null ==> s.Sound() && (!s.settled ==> charged == 0)
    ensures s != null ==> Conserves(old(s.ledger.State()), s.ledger.State())
    ensures s != null && s.replay ==> !AnySent(trace) && !s.refunded
    ensures s != null && Undisturbed(script, s.request) && old(s.Own()) ==>
              && s.Own() && s.Bill() == old(s.Bill()) + charged
              && (!s.settled && AnySent(trace) && !AllDefinite(trace) ==> Started(s.Mine()))
    ensures s != null && !s.replay && !s.settled && failed && AllDefinite(trace) ==>
              s.Mine() == [] || Terminal(s.Mine()[0].phase)
  {
    hide Orderly, MarkedFirst, UnknownIsLast, RefundIsLast, AllDefinite, AnySent, ProviderAfter, Lookup, Paid, Unique,
      Terminal, Undisturbed, Started, Told, FirstCalled, Session.Own, Session.Sound, Session.Mine, Session.Bill, Conserves, Ledger.State;
    var provider, n, called, denied;
    trace, failed, charged, provider, n, called, denied := Attempts(s, script);
    taken, sent, refused := n, called, denied;
    OrderlyTrace(trace, s != null);
    LastCallTells(script, s != null, n, called, denied, trace, failed);
    if failed && s != null {
      ghost var tried := s.ledger.State();
      var act := Deferred(s, provider);
      ConservesOn(old(s.ledger.State()), tried, s.ledger.State());
      if act != [] {
        TraceEnds(trace, act[0]);
        trace := trace + [act[0]];
      }
    }
  }

  /** How many calls were made when `taken` attempts were entered. */
  function Calls(taken: nat, sent: bool): nat {
    if sent || taken == 0 then taken else taken - 1
  }

  /** What the last call says about the provider, read off the script. */
  lemma LastCallTells(script: seq<Attempt>, billed: bool, taken: nat, sent: bool, refused: bool, trace: seq<Act>, failed: bool)
    requires Told(script, billed, taken, sent, refused, trace, failed)
    ensures Calls(taken, sent) <= |script|
    ensures
      var calls := Calls(taken, sent);
      ProviderAfter(trace) == if calls == 0 then ProviderUnsent else match script[calls - 1].result
        case ExplicitFailure => ProviderExplicitFailure
        case NotSent => ProviderUnsent
        case _ => ProviderUnknown
  {
    hide Ended, GoesOn;
    var calls := Calls(taken, sent);
    var acts := ActsOf(script, calls, billed);
    if calls > 0 {
      var last := Sent(script[calls - 1].result);
      assert acts[|acts| - 1] == last;
    }
    if refused {
      assert trace[..|trace| - 1] == acts;
    } else {
      assert trace == acts;
    }
  }

  /** The trace without the refund at its end. */
  function BeforeRefund(trace: seq<Act>): seq<Act> {
    if trace != [] && IsRefund(trace[|trace| - 1]) then trace[..|trace| - 1] else trace
  }

  /** When the first attempt finds no channel, the request fails with the reservation given back at once. */
  lemma NoChannelIsRefunded(script: seq<Attempt>, billed: bool, taken: nat, sent: bool, refused: bool, trace: seq<Act>, failed: bool)
    requires Told(script, billed, taken, sent, refused, BeforeRefund(trace), failed)
    requires script != [] && script[0].setup == Fails
    ensures taken == 1 && failed && BeforeRefund(trace) == []
  {
    assert ActsOf(script, 0, billed) == [];
    assert !GoesOn(script[0]);
  }
}
