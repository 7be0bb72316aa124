/** The reservation ledger: wallet balances, key allowances and one record per request, changed by
    atomic transactions that are keyed by the request id.
 */
module BillingLedger {

  datatype Key = Key(remain: int, used: int)

  datatype Phase = Reserved | ProviderStarted | Settled | Released

  datatype Record = Record(request: string, user: int, key: int, unlimited: bool, amount: int, phase: Phase)

  /** How a record ended: what its user was finally charged, zero for a release. */
  datatype Entry = Entry(request: string, user: int, key: int, charge: int)

  datatype Books = Books(users: map<int, int>, keys: map<int, Key>, records: seq<Record>, closed: seq<Entry>)

  datatype Error = NotFound | InvalidUser | NegativeAmount | InsufficientUser | InsufficientKey | StateConflict

  datatype Reply = Done(changed: bool) | Failed(error: Error)

  datatype Event =
    | Reserve(request: string, user: int, key: int, unlimited: bool, amount: int)
    | Append(request: string, delta: int)
    | MarkStarted(request: string)
    | Settle(request: string, delta: int)
    | Release(request: string)
    | ReleaseUnsent(request: string)
    | Cleanup(requests: set<string>)

  predicate Terminal(p: Phase) {
    p == Settled || p == Released
  }

  predicate Active(p: Phase) {
    p == Reserved || p == ProviderStarted
  }

  /** The position of a request's record, or the number of records when there is none. */
  function Find(records: seq<Record>, request: string): (i: nat)
    ensures i <= |records|
    ensures i < |records| ==> records[i].request == request
    ensures forall j :: 0 <= j < i ==> records[j].request != request
  {
    if records == [] then 0
    else if records[0].request == request then 0
    else
      var i := Find(records[1..], request);
      assert forall j :: 0 < j < i + 1 ==> records[j] == records[1..][j - 1];
      i + 1
  }

  // ---------------------------------------------------------------------------
  // Balances
  // ---------------------------------------------------------------------------

  /** Whether `amount` more can be taken: the wallet must cover it, and so must a limited key. */
  function Refusal(b: Books, user: int, key: int, unlimited: bool, amount: int): (e: seq<Error>) {
    if amount <= 0 then []
    else if user !in b.users || b.users[user] < amount then [InsufficientUser]
    else if key > 0 && (key !in b.keys || (!unlimited && b.keys[key].remain < amount)) then [InsufficientKey]
    else []
  }

  function TakeUser(users: map<int, int>, user: int, amount: int): map<int, int> {
    if user in users then users[user := users[user] - amount] else users
  }

  function TakeKey(keys: map<int, Key>, key: int, amount: int): map<int, Key> {
    if key > 0 && key in keys then keys[key := Key(keys[key].remain - amount, keys[key].used + amount)] else keys
  }

  /** Moves `amount` out of a wallet and a key's allowance, or back when it is negative. */
  function Take(b: Books, user: int, key: int, amount: int): Books {
    b.(users := TakeUser(b.users, user, amount), keys := TakeKey(b.keys, key, amount))
  }

  // ---------------------------------------------------------------------------
  // Transactions
  // ---------------------------------------------------------------------------

  datatype Step = Step(books: Books, reply: Reply)

  function SetPhase(b: Books, i: nat, p: Phase): Books
    requires i < |b.records|
  {
    b.(records := b.records[i := b.records[i].(phase := p)])
  }

  function Close(b: Books, r: Record, charge: int): Books {
    b.(closed := b.closed + [Entry(r.request, r.user, r.key, charge)])
  }

  function ReserveStep(b: Books, request: string, user: int, key: int, unlimited: bool, amount: int): Step {
    if request == "" then Step(b, Failed(NotFound))
    else if user <= 0 then Step(b, Failed(InvalidUser))
    else if amount < 0 then Step(b, Failed(NegativeAmount))
    else if amount == 0 || Find(b.records, request) < |b.records| then Step(b, Done(false))
    else
      var refusal := Refusal(b, user, key, unlimited, amount);
      if refusal != [] then Step(b, Failed(refusal[0]))
      else
        var b' := Take(b, user, key, amount);
        Step(b'.(records := b.records + [Record(request, user, key, unlimited, amount, Reserved)]), Done(true))
  }

  function AppendStep(b: Books, request: string, delta: int): Step {
    var i := Find(b.records, request);
    if delta <= 0 then Step(b, Done(false))
    else if request == "" || i == |b.records| then Step(b, Failed(NotFound))
    else if b.records[i].phase != Reserved then Step(b, Failed(StateConflict))
    else
      var r := b.records[i];
      var refusal := Refusal(b, r.user, r.key, r.unlimited, delta);
      if refusal != [] then Step(b, Failed(refusal[0]))
      else Step(Take(b, r.user, r.key, delta).(records := b.records[i := r.(amount := r.amount + delta)]), Done(true))
  }

  function MarkStep(b: Books, request: string): Step {
    var i := Find(b.records, request);
    if request == "" || i == |b.records| then Step(b, Failed(NotFound))
    else if b.records[i].phase == Reserved then Step(SetPhase(b, i, ProviderStarted), Done(true))
    else if b.records[i].phase == ProviderStarted then Step(b, Done(false))
    else Step(b, Failed(StateConflict))
  }

  function SettleStep(b: Books, request: string, delta: int): Step {
    var i := Find(b.records, request);
    if request == "" || i == |b.records| then Step(b, Failed(NotFound))
    else if Terminal(b.records[i].phase) then Step(b, Done(false))
    else
      var r := b.records[i];
      var refusal := Refusal(b, r.user, r.key, r.unlimited, delta);
      if refusal != [] then Step(b, Failed(refusal[0]))
      else Step(Close(SetPhase(Take(b, r.user, r.key, delta), i, Settled), r, r.amount + delta), Done(true))
  }

  function ReleaseStep(b: Books, request: string, reservedOnly: bool): Step {
    var i := Find(b.records, request);
    if request == "" || i == |b.records| then Step(b, Failed(NotFound))
    else if b.records[i].phase == Reserved || (b.records[i].phase == ProviderStarted && !reservedOnly) then
      var r := b.records[i];
      Step(Close(SetPhase(Take(b, r.user, r.key, -r.amount), i, Released), r, 0), Done(true))
    else Step(b, Done(false))
  }

  /** Cleanup drops records of the given requests, and only ended ones. */
  function Swept(records: seq<Record>, requests: set<string>): seq<Record> {
    if records == [] then []
    else if records[0].request in requests && Terminal(records[0].phase) then Swept(records[1..], requests)
    else [records[0]] + Swept(records[1..], requests)
  }

  function Next(b: Books, e: Event): Step {
    match e
    case Reserve(request, user, key, unlimited, amount) => ReserveStep(b, request, user, key, unlimited, amount)
    case Append(request, delta) => AppendStep(b, request, delta)
    case MarkStarted(request) => MarkStep(b, request)
    case Settle(request, delta) => SettleStep(b, request, delta)
    case Release(request) => ReleaseStep(b, request, false)
    case ReleaseUnsent(request) => ReleaseStep(b, request, true)
    case Cleanup(requests) => Step(b.(records := Swept(b.records, requests)), Done(Swept(b.records, requests) != b.records))
  }

  /** The ledger's tables, changed by transactions that write everything or nothing. */
  class Ledger {
    var users: map<int, int>
    var keys: map<int, Key>
    var records: seq<Record>
    var closed: seq<Entry>

    function State(): Books
      reads this
    {
      Books(users, keys, records, closed)
    }

    method Reserve(request: string, user: int, key: int, unlimited: bool, amount: int) returns (reply: Reply)
      modifies this
      ensures Step(State(), reply) == ReserveStep(old(State()), request, user, key, unlimited, amount)
    {
      if request == "" { return Failed(NotFound); }
      if user <= 0 { return Failed(InvalidUser); }
      if amount < 0 { return Failed(NegativeAmount); }
      if amount == 0 { return Done(false); }
      var i := Find(records, request);
      if i < |records| { return Done(false); }
      reply := TakeAndStore(user, key, unlimited, amount, records + [Record(request, user, key, unlimited, amount, Reserved)]);
    }

    method Append(request: string, delta: int) returns (reply: Reply)
      modifies this
      ensures Step(State(), reply) == AppendStep(old(State()), request, delta)
    {
      if delta <= 0 { return Done(false); }
      if request == "" { return Failed(NotFound); }
      var i := Find(records, request);
      if i == |records| { return Failed(NotFound); }
      var r := records[i];
      if r.phase != Reserved { return Failed(StateConflict); }
      reply := TakeAndStore(r.user, r.key, r.unlimited, delta, records[i := r.(amount := r.amount + delta)]);
    }

    /** One transaction: the conditional updates of the wallet and the key, then the record. Nothing is
        written unless all of it is. */
    method TakeAndStore(user: int, key: int, unlimited: bool, amount: int, stored: seq<Record>) returns (reply: Reply)
      requires amount > 0
      modifies this
      ensures
        var b := old(State());
        var refusal := Refusal(b, user, key, unlimited, amount);
        Step(State(), reply) ==
        if refusal != [] then Step(b, Failed(refusal[0])) else Step(Take(b, user, key, amount).(records := stored), Done(true))
    {
      var newUsers, newKeys := users, keys;
      if user !in newUsers || newUsers[user] < amount {
        return Failed(InsufficientUser);
      }
      newUsers := newUsers[user := newUsers[user] - amount];
      if key > 0 {
        if key !in newKeys || (!unlimited && newKeys[key].remain < amount) {
          return Failed(InsufficientKey);
        }
        newKeys := newKeys[key := Key(newKeys[key].remain - amount, newKeys[key].used + amount)];
      }
      users, keys, records := newUsers, newKeys, stored;
      reply := Done(true);
    }

    method MarkStarted(request: string) returns (reply: Reply)
      modifies this
      ensures Step(State(), reply) == MarkStep(old(State()), request)
    {
      if request == "" { return Failed(NotFound); }
      var i := Find(records, request);
      if i == |records| { return Failed(NotFound); }
      if records[i].phase == Reserved {
        records := records[i := records[i].(phase := ProviderStarted)];
        return Done(true);
      }
      if records[i].phase == ProviderStarted { return Done(false); }
      reply := Failed(StateConflict);
    }

    method Settle(request: string, delta: int) returns (reply: Reply)
      modifies this
      ensures Step(State(), reply) == SettleStep(old(State()), request, delta)
    {
      if request == "" { return Failed(NotFound); }
      var i := Find(records, request);
      if i == |records| { return Failed(NotFound); }
      var r := records[i];
      if r.phase == Settled || r.phase == Released { return Done(false); }
      if delta > 0 {
        if r.user !in users || users[r.user] < delta { return Failed(InsufficientUser); }
        if r.key > 0 && (r.key !in keys || (!r.unlimited && keys[r.key].remain < delta)) { return Failed(InsufficientKey); }
      }
      Finish(i, Settled, delta, r.amount + delta);
      reply := Done(true);
    }

    /** The end of a record and the balance changes that go with it, in one transaction. */
    method Finish(i: nat, phase: Phase, delta: int, charge: int)
      requires i < |records|
      modifies this
      ensures
        var b := old(State());
        State() == Close(SetPhase(Take(b, b.records[i].user, b.records[i].key, delta), i, phase), b.records[i], charge)
    {
      var r := records[i];
      if r.user in users { users := users[r.user := users[r.user] - delta]; }
      if r.key > 0 && r.key in keys {
        keys := keys[r.key := Key(keys[r.key].remain - delta, keys[r.key].used + delta)];
      }
      records := records[i := r.(phase := phase)];
      closed := closed + [Entry(r.request, r.user, r.key, charge)];
    }

    method Release(request: string, reservedOnly: bool) returns (reply: Reply)
      modifies this
      ensures Step(State(), reply) == ReleaseStep(old(State()), request, reservedOnly)
    {
      if request == "" { return Failed(NotFound); }
      var i := Find(records, request);
      if i == |records| { return Failed(NotFound); }
      var r := records[i];
      if r.phase != Reserved {
        if reservedOnly || r.phase != ProviderStarted { return Done(false); }
      }
      Finish(i, Released, -r.amount, 0);
      reply := Done(true);
    }

    /** Ended records of the given requests go; every other record, and everything else, stays. */
    method Cleanup(requests: set<string>) returns (removed: nat)
      modifies this
      ensures State() == Next(old(State()), Event.Cleanup(requests)).books
      ensures Next(old(State()), Event.Cleanup(requests)).reply == Done(removed > 0)
      ensures removed == |old(records)| - |records|
      ensures removed > 0 <==> exists r :: r in old(records) && r.request in requests && Terminal(r.phase)
      ensures forall r :: r in records <==> r in old(records) && !(r.request in requests && Terminal(r.phase))
      ensures users == old(users) && keys == old(keys) && closed == old(closed)
    {
      forall r ensures r in Swept(records, requests) <==> r in records && !(r.request in requests && Terminal(r.phase)) {
        SweptMember(records, requests, r);
      }
      SweptSize(records, requests);
      removed := |records| - |Swept(records, requests)|;
      records := Swept(records, requests);
    }

    /** Other requests and the background jobs at work. */
    method Run(events: seq<Event>)
      modifies this
      ensures State() == After(old(State()), events)
    {
      hide ReserveStep, AppendStep, MarkStep, SettleStep, ReleaseStep, Swept;
      var i := 0;
      assert events[..0] == [];
      while i < |events|
        invariant 0 <= i <= |events|
        invariant State() == After(old(State()), events[..i])
      {
        assert events[..i + 1] == events[..i] + [events[i]];
        AfterSnoc(old(State()), events[..i], events[i]);
        match events[i] {
          case Reserve(request, user, key, unlimited, amount) => var _ := Reserve(request, user, key, unlimited, amount);
          case Append(request, delta) => var _ := Append(request, delta);
          case MarkStarted(request) => var _ := MarkStarted(request);
          case Settle(request, delta) => var _ := Settle(request, delta);
          case Release(request) => var _ := Release(request, false);
          case ReleaseUnsent(request) => var _ := Release(request, true);
          case Cleanup(requests) => var _ := Cleanup(requests);
        }
        i := i + 1;
      }
      assert events[..|events|] == events;
    }

    /** The recovery job over the stale requests it found. */
    method ReleaseStale(stale: seq<string>)
      modifies this
      ensures State() == After(old(State()), Recoveries(stale))
    {
      var i := 0;
      assert stale[..0] == [];
      while i < |stale|
        invariant 0 <= i <= |stale|
        invariant State() == After(old(State()), Recoveries(stale[..i]))
      {
        var _ := Release(stale[i], true);
        assert stale[..i + 1] == stale[..i] + [stale[i]];
        RecoveriesSnoc(stale[..i], stale[i]);
        AfterSnoc(old(State()), Recoveries(stale[..i]), ReleaseUnsent(stale[i]));
        i := i + 1;
      }
      assert stale[..|stale|] == stale;
    }
  }

  function Recoveries(stale: seq<string>): seq<Event> {
    if stale == [] then [] else [ReleaseUnsent(stale[0])] + Recoveries(stale[1..])
  }

  lemma {:induction false} RecoveriesSnoc(stale: seq<string>, last: string)
    ensures Recoveries(stale + [last]) == Recoveries(stale) + [ReleaseUnsent(last)]
  {
    if stale == [] {
      assert stale + [last] == [last] && [last][1..] == [];
    } else {
      assert (stale + [last])[1..] == stale[1..] + [last];
      RecoveriesSnoc(stale[1..], last);
    }
  }

  // ---------------------------------------------------------------------------
  // Runs
  // ---------------------------------------------------------------------------

  function After(b: Books, events: seq<Event>): Books
    decreases |events|
  {
    if events == [] then b else After(Next(b, events[0]).books, events[1..])
  }

  lemma {:induction false} AfterSnoc(b: Books, events: seq<Event>, e: Event)
    ensures After(b, events + [e]) == Next(After(b, events), e).books
    decreases |events|
  {
    hide Next;
    if events == [] {
      assert events + [e] == [e] && [e][1..] == [];
    } else {
      assert (events + [e])[1..] == events[1..] + [e];
      AfterSnoc(Next(b, events[0]).books, events[1..], e);
    }
  }

  // ---------------------------------------------------------------------------
  // Conservation
  // ---------------------------------------------------------------------------

  datatype Account = Wallet(user: int) | Allowance(key: int)

  predicate Has(b: Books, a: Account) {
    match a
    case Wallet(user) => user in b.users
    case Allowance(key) => key > 0 && key in b.keys
  }

  function Balance(b: Books, a: Account): int
    requires Has(b, a)
  {
    match a
    case Wallet(user) => b.users[user]
    case Allowance(key) => b.keys[key].remain
  }

  predicate Concerns(user: int, key: int, a: Account) {
    a == Wallet(user) || a == Allowance(key)
  }

  /** What open reservations hold of an account. */
  function Held(records: seq<Record>, a: Account): int {
    if records == [] then 0
    else Hold(records[0], a) + Held(records[1..], a)
  }

  function Hold(r: Record, a: Account): int {
    if Active(r.phase) && Concerns(r.user, r.key, a) then r.amount else 0
  }

  /** What ended requests were charged to an account. */
  function Charged(closed: seq<Entry>, a: Account): int {
    if closed == [] then 0
    else (if Concerns(closed[0].user, closed[0].key, a) then closed[0].charge else 0) + Charged(closed[1..], a)
  }

  function Total(b: Books, a: Account): int
    requires Has(b, a)
  {
    Balance(b, a) + Held(b.records, a) + Charged(b.closed, a)
  }

  lemma {:induction false} HeldAppend(records: seq<Record>, r: Record, a: Account)
    ensures Held(records + [r], a) == Held(records, a) + Hold(r, a)
  {
    if records == [] {
      assert records + [r] == [r] && [r][1..] == [];
    } else {
      assert (records + [r])[1..] == records[1..] + [r];
      HeldAppend(records[1..], r, a);
    }
  }

  lemma {:induction false} HeldUpdate(records: seq<Record>, i: nat, r: Record, a: Account)
    requires i < |records|
    ensures Held(records[i := r], a) == Held(records, a) - Hold(records[i], a) + Hold(r, a)
  {
    hide Hold;
    if i == 0 {
      assert records[i := r][1..] == records[1..];
    } else {
      assert records[i := r][1..] == records[1..][i - 1 := r];
      HeldUpdate(records[1..], i - 1, r, a);
    }
  }

  lemma {:induction false} HeldSwept(records: seq<Record>, requests: set<string>, a: Account)
    ensures Held(Swept(records, requests), a) == Held(records, a)
  {
    if records != [] { HeldSwept(records[1..], requests, a); }
  }

  lemma {:induction false} ChargedAppend(closed: seq<Entry>, e: Entry, a: Account)
    ensures Charged(closed + [e], a) == Charged(closed, a) + if Concerns(e.user, e.key, a) then e.charge else 0
  {
    if closed == [] {
      assert closed + [e] == [e] && [e][1..] == [];
    } else {
      assert (closed + [e])[1..] == closed[1..] + [e];
      ChargedAppend(closed[1..], e, a);
    }
  }

  lemma TakeMoves(b: Books, user: int, key: int, amount: int, a: Account)
    requires Has(b, a)
    ensures
      var b' := Take(b, user, key, amount);
      && Has(b', a)
      && Balance(b', a) == Balance(b, a) - (if Concerns(user, key, a) then amount else 0)
      && b'.records == b.records && b'.closed == b.closed
  {
  }

  /** Every transaction, whatever its arguments and whether it succeeds, keeps each account's total of
      balance, reservations and charges. */
  lemma StepConserves(b: Books, e: Event, a: Account)
    requires Has(b, a)
    ensures Has(Next(b, e).books, a) && Total(Next(b, e).books, a) == Total(b, a)
  {
    hide Held, Charged, Take, Refusal, Find, Swept, Balance, Has;
    match e
    case Reserve(request, user, key, unlimited, amount) =>
      TakeMoves(b, user, key, amount, a);
      HeldAppend(b.records, Record(request, user, key, unlimited, amount, Reserved), a);
      BalanceOf(Take(b, user, key, amount), ReserveStep(b, request, user, key, unlimited, amount).books, a);
    case Append(request, delta) =>
      var i := Find(b.records, request);
      if i < |b.records| {
        var r := b.records[i];
        TakeMoves(b, r.user, r.key, delta, a);
        HeldUpdate(b.records, i, r.(amount := r.amount + delta), a);
        BalanceOf(Take(b, r.user, r.key, delta), AppendStep(b, request, delta).books, a);
      }
    case MarkStarted(request) =>
      var i := Find(b.records, request);
      if i < |b.records| {
        HeldUpdate(b.records, i, b.records[i].(phase := ProviderStarted), a);
        BalanceOf(b, MarkStep(b, request).books, a);
      }
    case Settle(request, delta) =>
      var i := Find(b.records, request);
      if i < |b.records| && Active(b.records[i].phase) {
        var r := b.records[i];
        ClosingConserves(b, i, Settled, delta, r.amount + delta, a);
      }
    case Release(request) => ReleaseConserves(b, request, false, a);
    case ReleaseUnsent(request) => ReleaseConserves(b, request, true, a);
    case Cleanup(requests) =>
      HeldSwept(b.records, requests, a);
      BalanceOf(b, b.(records := Swept(b.records, requests)), a);
  }

  /** Balances depend on the wallet and key tables alone. */
  lemma BalanceOf(b: Books, b': Books, a: Account)
    requires Has(b, a)
    ensures b.users == b'.users && b.keys == b'.keys ==> Has(b', a) && Balance(b', a) == Balance(b, a)
  {
  }

  lemma ClosingConserves(b: Books, i: nat, p: Phase, delta: int, charge: int, a: Account)
    requires Has(b, a) && i < |b.records| && Active(b.records[i].phase) && Terminal(p)
    requires charge == b.records[i].amount + delta
    ensures
      var r := b.records[i];
      var b' := Close(SetPhase(Take(b, r.user, r.key, delta), i, p), r, charge);
      Has(b', a) && Total(b', a) == Total(b, a)
  {
    hide Held, Charged, Take, Balance, Has;
    var r := b.records[i];
    var taken := Take(b, r.user, r.key, delta);
    TakeMoves(b, r.user, r.key, delta, a);
    HeldUpdate(b.records, i, r.(phase := p), a);
    ChargedAppend(b.closed, Entry(r.request, r.user, r.key, charge), a);
    BalanceOf(taken, Close(SetPhase(taken, i, p), r, charge), a);
  }

  lemma ReleaseConserves(b: Books, request: string, reservedOnly: bool, a: Account)
    requires Has(b, a)
    ensures
      var b' := ReleaseStep(b, request, reservedOnly).books;
      Has(b', a) && Total(b', a) == Total(b, a)
  {
    hide Held, Charged, Take, Find, Balance, Has, Total;
    var i := Find(b.records, request);
    if i < |b.records| && Active(b.records[i].phase) {
      ClosingConserves(b, i, Released, -b.records[i].amount, 0, a);
    }
  }

  /** Over every run, every wallet and every key keeps its total: no transaction, retry, recovery or
      cleanup makes or loses quota. */
  lemma {:induction false} RunConserves(b: Books, events: seq<Event>, a: Account)
    requires Has(b, a)
    ensures Has(After(b, events), a) && Total(After(b, events), a) == Total(b, a)
    decreases |events|
  {
    hide Next, Total, Has;
    if events != [] {
      StepConserves(b, events[0], a);
      RunConserves(Next(b, events[0]).books, events[1..], a);
    }
  }

  /** Every account keeps its total from `b` to `b'`. */
  ghost predicate Conserves(b: Books, b': Books) {
    forall a :: Has(b, a) ==> Has(b', a) && Total(b', a) == Total(b, a)
  }

  lemma RunConservesAll(b: Books, events: seq<Event>)
    ensures Conserves(b, After(b, events))
  {
    hide Has, Total, After;
    forall a | Has(b, a) ensures Has(After(b, events), a) && Total(After(b, events), a) == Total(b, a) {
      RunConserves(b, events, a);
    }
  }

  lemma StepConservesAll(b: Books, e: Event)
    ensures Conserves(b, Next(b, e).books)
  {
    hide Has, Total, Next;
    forall a | Has(b, a) ensures Has(Next(b, e).books, a) && Total(Next(b, e).books, a) == Total(b, a) {
      StepConserves(b, e, a);
    }
  }

  lemma ConservesSame(b: Books)
    ensures Conserves(b, b)
  {
  }

  lemma ConservesOn(b0: Books, b1: Books, b2: Books)
    requires Conserves(b0, b1) && Conserves(b1, b2)
    ensures Conserves(b0, b2)
  {
    hide Has, Total;
  }

  // ---------------------------------------------------------------------------
  // No balance goes below zero
  // ---------------------------------------------------------------------------

  /** Wallets and the given limited keys are not overdrawn, and reservations are not negative. */
  ghost predicate Solvent(b: Books, limited: set<int>) {
    && (forall u :: u in b.users ==> b.users[u] >= 0)
    && (forall k :: k in limited && k in b.keys ==> b.keys[k].remain >= 0)
    && (forall i :: 0 <= i < |b.records| ==> Proper(b.records[i], limited))
  }

  predicate Proper(r: Record, limited: set<int>) {
    r.amount >= 0 && (r.key in limited ==> !r.unlimited)
  }

  /** The event does not treat a limited key as unlimited. */
  predicate RespectsLimits(e: Event, limited: set<int>) {
    e.Reserve? && e.key in limited ==> !e.unlimited
  }

  lemma TakeSolvent(b: Books, r: Record, amount: int, limited: set<int>)
    requires Solvent(b, limited) && Proper(r, limited)
    requires Refusal(b, r.user, r.key, r.unlimited, amount) == []
    ensures Solvent(Take(b, r.user, r.key, amount), limited) && Take(b, r.user, r.key, amount).records == b.records
  {
  }

  lemma {:induction false} SweptProper(records: seq<Record>, requests: set<string>, limited: set<int>)
    requires forall i :: 0 <= i < |records| ==> Proper(records[i], limited)
    ensures forall i :: 0 <= i < |Swept(records, requests)| ==> Proper(Swept(records, requests)[i], limited)
  {
    hide Proper;
    if records != [] { SweptProper(records[1..], requests, limited); }
  }

  lemma StepSolvent(b: Books, e: Event, limited: set<int>)
    requires Solvent(b, limited) && RespectsLimits(e, limited)
    ensures Solvent(Next(b, e).books, limited)
  {
    hide Take, Refusal, Find, Swept;
    match e
    case Reserve(request, user, key, unlimited, amount) =>
      if amount > 0 && Refusal(b, user, key, unlimited, amount) == [] {
        TakeSolvent(b, Record(request, user, key, unlimited, amount, Reserved), amount, limited);
      }
    case Append(request, delta) =>
      var i := Find(b.records, request);
      if i < |b.records| && Refusal(b, b.records[i].user, b.records[i].key, b.records[i].unlimited, delta) == [] {
        TakeSolvent(b, b.records[i], delta, limited);
      }
    case MarkStarted(request) =>
    case Settle(request, delta) =>
      var i := Find(b.records, request);
      if i < |b.records| && Refusal(b, b.records[i].user, b.records[i].key, b.records[i].unlimited, delta) == [] {
        TakeSolvent(b, b.records[i], delta, limited);
      }
    case Release(request) => ReleaseSolvent(b, request, false, limited);
    case ReleaseUnsent(request) => ReleaseSolvent(b, request, true, limited);
    case Cleanup(requests) => SweptProper(b.records, requests, limited);
  }

  lemma ReleaseSolvent(b: Books, request: string, reservedOnly: bool, limited: set<int>)
    requires Solvent(b, limited)
    ensures Solvent(ReleaseStep(b, request, reservedOnly).books, limited)
  {
    hide Take, Find;
    var i := Find(b.records, request);
    if i < |b.records| {
      var r := b.records[i];
      assert Proper(r, limited);
      TakeSolvent(b, r, -r.amount, limited);
    }
  }

  /** Over every run no wallet and no limited key is overdrawn. */
  lemma {:induction false} RunSolvent(b: Books, events: seq<Event>, limited: set<int>)
    requires Solvent(b, limited) && forall i :: 0 <= i < |events| ==> RespectsLimits(events[i], limited)
    ensures Solvent(After(b, events), limited)
    decreases |events|
  {
    hide Next, Solvent, RespectsLimits;
    if events != [] {
      StepSolvent(b, events[0], limited);
      RunSolvent(Next(b, events[0]).books, events[1..], limited);
    }
  }

  // ---------------------------------------------------------------------------
  // The life of one request's record
  // ---------------------------------------------------------------------------

  predicate Unique(records: seq<Record>) {
    forall i, j :: 0 <= i < j < |records| ==> records[i].request != records[j].request
  }

  /** The request's record, if there is one. */
  function Lookup(records: seq<Record>, request: string): (found: seq<Record>)
    ensures |found| <= 1 && (found != [] ==> found[0].request == request)
  {
    var i := Find(records, request);
    if i < |records| then [records[i]] else []
  }

  /** The request has a record that has not ended. */
  predicate InUse(b: Books, request: string) {
    Lookup(b.records, request) != [] && Active(Lookup(b.records, request)[0].phase)
  }

  lemma LookupUpdate(records: seq<Record>, i: nat, r: Record, request: string)
    requires Unique(records) && i < |records| && r.request == records[i].request
    ensures Unique(records[i := r])
    ensures Lookup(records[i := r], request) == if request == r.request then [r] else Lookup(records, request)
  {
    hide Find;
    var updated := records[i := r];
    var j, j' := Find(records, request), Find(updated, request);
    assert forall k :: 0 <= k < |records| ==> updated[k].request == records[k].request;
    if j < j' { assert false; }
    if j' < j { assert false; }
  }

  lemma LookupAppend(records: seq<Record>, r: Record, request: string)
    requires Unique(records) && Lookup(records, r.request) == []
    ensures Unique(records + [r])
    ensures Lookup(records + [r], request) == if request == r.request then [r] else Lookup(records, request)
  {
    hide Find;
    var grown := records + [r];
    var j, j' := Find(records, request), Find(grown, request);
    assert forall k :: 0 <= k < |records| ==> grown[k] == records[k] && records[k].request != r.request;
    assert grown[|records|] == r;
  }

  lemma {:induction false} SweptMember(records: seq<Record>, requests: set<string>, r: Record)
    ensures r in Swept(records, requests) <==> r in records && !(r.request in requests && Terminal(r.phase))
  {
    if records != [] {
      SweptMember(records[1..], requests, r);
      assert records == [records[0]] + records[1..];
    }
  }

  lemma {:induction false} SweptSize(records: seq<Record>, requests: set<string>)
    ensures |Swept(records, requests)| <= |records|
    ensures Swept(records, requests) == records <==> |Swept(records, requests)| == |records|
    ensures Swept(records, requests) != records <==> exists r :: r in records && r.request in requests && Terminal(r.phase)
  {
    if records != [] {
      SweptSize(records[1..], requests);
      assert records == [records[0]] + records[1..];
      assert records[0] in records;
    }
  }

  lemma {:induction false} SweptUnique(records: seq<Record>, requests: set<string>)
    requires Unique(records)
    ensures Unique(Swept(records, requests))
  {
    hide Terminal;
    if records != [] {
      SweptUnique(records[1..], requests);
      var rest := Swept(records[1..], requests);
      forall i | 0 <= i < |rest| ensures rest[i].request != records[0].request {
        SweptMember(records[1..], requests, rest[i]);
        var k :| 0 <= k < |records[1..]| && records[1..][k] == rest[i];
        assert records[k + 1] == rest[i];
      }
    }
  }

  lemma LookupMember(records: seq<Record>, r: Record)
    requires Unique(records)
    ensures r in records <==> Lookup(records, r.request) == [r]
  {
    hide Find;
    if r in records {
      var k :| 0 <= k < |records| && records[k] == r;
      var i := Find(records, r.request);
      if i < k { assert false; }
    }
  }

  lemma LookupSwept(records: seq<Record>, requests: set<string>, request: string)
    requires Unique(records)
    ensures
      var found := Lookup(records, request);
      && Unique(Swept(records, requests))
      && Lookup(Swept(records, requests), request) ==
         if found != [] && request in requests && Terminal(found[0].phase) then [] else found
  {
    hide Lookup, Unique, Swept;
    var swept := Swept(records, requests);
    SweptUnique(records, requests);
    var found, left := Lookup(records, request), Lookup(swept, request);
    if left != [] {
      LookupMember(swept, left[0]);
      SweptMember(records, requests, left[0]);
      LookupMember(records, left[0]);
    }
    if found != [] {
      LookupMember(records, found[0]);
      SweptMember(records, requests, found[0]);
      LookupMember(swept, found[0]);
    }
  }

  predicate Names(e: Event, request: string) {
    if e.Cleanup? then request in e.requests else e.request == request
  }

  function Count(closed: seq<Entry>, request: string): nat {
    if closed == [] then 0 else (if closed[0].request == request then 1 else 0) + Count(closed[1..], request)
  }

  lemma {:induction false} CountAppend(closed: seq<Entry>, e: Entry, request: string)
    ensures Count(closed + [e], request) == Count(closed, request) + if e.request == request then 1 else 0
  {
    if closed == [] {
      assert closed + [e] == [e] && [e][1..] == [];
    } else {
      assert (closed + [e])[1..] == closed[1..] + [e];
      CountAppend(closed[1..], e, request);
    }
  }

  /** What one event does to one request's record and to the number of times it was closed. */
  ghost predicate Moves(b: Books, e: Event, b': Books, request: string) {
    var was, now := Lookup(b.records, request), Lookup(b'.records, request);
    var closes := Count(b'.closed, request) - Count(b.closed, request);
    && (!Names(e, request) ==> now == was && closes == 0)
    && (was == [] ==> closes == 0 && (now == [] || (e.Reserve? && now[0].phase == Reserved && now[0].amount == e.amount)))
    && (was != [] && now == [] ==> e.Cleanup? && Terminal(was[0].phase) && closes == 0)
    && (was != [] && now != [] ==> Evolves(was[0], e, now[0], closes))
  }

  predicate Evolves(r: Record, e: Event, r': Record, closes: int) {
    && r'.user == r.user && r'.key == r.key && r'.unlimited == r.unlimited
    && (r' != r ==>
          match e
          case Append(_, delta) => r.phase == Reserved && r' == r.(amount := r.amount + delta) && delta > 0
          case MarkStarted(_) => r.phase == Reserved && r' == r.(phase := ProviderStarted)
          case Settle(_, _) => Active(r.phase) && r' == r.(phase := Settled)
          case Release(_) => Active(r.phase) && r' == r.(phase := Released)
          case ReleaseUnsent(_) => r.phase == Reserved && r' == r.(phase := Released)
          case Reserve(_, _, _, _, _) => false
          case Cleanup(_) => false)
    && closes == if Active(r.phase) && Terminal(r'.phase) then 1 else 0
  }

  lemma StepMoves(b: Books, e: Event, request: string)
    requires Unique(b.records)
    ensures Unique(Next(b, e).books.records) && Moves(b, e, Next(b, e).books, request)
  {
    hide Find, Lookup, Unique, Refusal, Take, Swept, Count;
    var b' := Next(b, e).books;
    if e.Cleanup? {
      LookupSwept(b.records, e.requests, request);
    } else {
      var i := Find(b.records, e.request);
      FindLookup(b.records, e.request);
      if e.Reserve? {
        TakeKeeps(b, e.user, e.key, e.amount);
        if i == |b.records| {
          LookupAppend(b.records, Record(e.request, e.user, e.key, e.unlimited, e.amount, Reserved), request);
        }
      } else if i < |b.records| {
        var r := b.records[i];
        NamedStep(b, e, i);
        LookupUpdate(b.records, i, b'.records[i], request);
        FindLookup(b.records, request);
        if b'.closed != b.closed {
          CountAppend(b.closed, b'.closed[|b.closed|], request);
        }
      }
    }
  }

  lemma FindLookup(records: seq<Record>, request: string)
    ensures var i := Find(records, request); Lookup(records, request) == if i < |records| then [records[i]] else []
  {
  }

  lemma TakeKeeps(b: Books, user: int, key: int, amount: int)
    ensures var b' := Take(b, user, key, amount); b'.records == b.records && b'.closed == b.closed
  {
  }

  /** An event on an existing record changes that record alone, and logs its end. */
  lemma NamedStep(b: Books, e: Event, i: nat)
    requires !e.Cleanup? && !e.Reserve? && i == Find(b.records, e.request) < |b.records|
    ensures
      var b' := Next(b, e).books;
      var r := b.records[i];
      && |b'.records| == |b.records| && b'.records == b.records[i := b'.records[i]] && b'.records[i].request == r.request
      && (b'.closed == b.closed
          || b'.closed == b.closed + [Entry(r.request, r.user, r.key, if e.Settle? then r.amount + e.delta else 0)])
      && Evolves(r, e, b'.records[i], |b'.closed| - |b.closed|)
  {
    hide Find, Refusal, Take;
    var r := b.records[i];
    match e
    case Append(_, delta) => TakeKeeps(b, r.user, r.key, delta);
    case MarkStarted(_) =>
    case Settle(_, delta) => TakeKeeps(b, r.user, r.key, delta);
    case Release(_) => TakeKeeps(b, r.user, r.key, -r.amount);
    case ReleaseUnsent(_) => TakeKeeps(b, r.user, r.key, -r.amount);
  }

  /** Phases only move forward; what is reserved may grow, what was started is fixed, and an ended record
      never changes. */
  predicate Later(r: Record, r': Record) {
    && r'.request == r.request && r'.user == r.user && r'.key == r.key && r'.unlimited == r.unlimited
    && r.amount <= r'.amount
    && (r.phase == ProviderStarted ==> r'.amount == r.amount && r'.phase != Reserved)
    && (Terminal(r.phase) ==> r' == r)
  }

  /** Over every run that does not clean the request up, its record stays and only moves forward. */
  lemma {:induction false} RunMovesForward(b: Books, events: seq<Event>, request: string)
    requires Unique(b.records) && Lookup(b.records, request) != []
    requires forall i :: 0 <= i < |events| ==> !(events[i].Cleanup? && Names(events[i], request))
    ensures
      var now := Lookup(After(b, events).records, request);
      now != [] && Later(Lookup(b.records, request)[0], now[0])
    decreases |events|
  {
    hide Next, Lookup, Unique, Count, Names;
    if events != [] {
      StepMoves(b, events[0], request);
      RunMovesForward(Next(b, events[0]).books, events[1..], request);
    }
  }

  /** Once the provider may have been reached, no recovery, cleanup, top-up or other request's event
      touches the record: only settling or releasing that request does. */
  lemma {:induction false} StartedIsKept(b: Books, events: seq<Event>, request: string)
    requires Unique(b.records)
    requires Lookup(b.records, request) != [] && Lookup(b.records, request)[0].phase == ProviderStarted
    requires forall i :: 0 <= i < |events| ==> !(events[i].Settle? || events[i].Release?) || !Names(events[i], request)
    ensures Lookup(After(b, events).records, request) == Lookup(b.records, request)
    ensures Count(After(b, events).closed, request) == Count(b.closed, request)
    decreases |events|
  {
    hide Next, Lookup, Unique, Count;
    if events != [] {
      StepMoves(b, events[0], request);
      StartedIsKept(Next(b, events[0]).books, events[1..], request);
    }
  }

  /** How often a request was closed beyond what its record shows. */
  function Excess(b: Books, request: string): int {
    var found := Lookup(b.records, request);
    Count(b.closed, request) - if found != [] && Terminal(found[0].phase) then 1 else 0
  }

  lemma {:induction false} ExcessIsFixed(b: Books, events: seq<Event>, request: string)
    requires Unique(b.records)
    requires forall i :: 0 <= i < |events| ==> !(events[i].Cleanup? && Names(events[i], request))
    ensures Excess(After(b, events), request) == Excess(b, request)
    decreases |events|
  {
    hide Next, Lookup, Unique, Count, Names;
    if events != [] {
      StepMoves(b, events[0], request);
      ExcessIsFixed(Next(b, events[0]).books, events[1..], request);
    }
  }

  /** A request that has not ended is charged or refunded at most once in any run that does not clean it
      up, and exactly once when its record has ended, however often it is settled, released or
      recovered. */
  lemma EndsAtMostOnce(b: Books, events: seq<Event>, request: string)
    requires Unique(b.records) && Excess(b, request) == 0
    requires forall i :: 0 <= i < |events| ==> !(events[i].Cleanup? && Names(events[i], request))
    ensures
      var b' := After(b, events);
      var found := Lookup(b'.records, request);
      Count(b'.closed, request) == if found != [] && Terminal(found[0].phase) then 1 else 0
  {
    hide Lookup, Unique, Count, Names, After;
    ExcessIsFixed(b, events, request);
  }

  /** After its record is cleaned up, the same request id is reserved and charged again: the guarantee
      lasts as long as the record. */
  lemma CleanupForgets(b: Books, request: string, user: int, key: int, unlimited: bool, amount: int)
    requires Unique(b.records) && request != "" && user > 0 && amount > 0
    requires Lookup(b.records, request) != [] && Terminal(Lookup(b.records, request)[0].phase)
    ensures
      && ReserveStep(b, request, user, key, unlimited, amount).reply == Done(false)
      && (ReserveStep(Next(b, Cleanup({request})).books, request, user, key, unlimited, amount).reply == Done(true)
          <==> Refusal(b, user, key, unlimited, amount) == [])
  {
    hide Take, Swept;
    LookupSwept(b.records, {request}, request);
  }

  // ---------------------------------------------------------------------------
  // What a request pays, and what others can do to it
  // ---------------------------------------------------------------------------

  /** Everything the request was ever charged. */
  function Paid(closed: seq<Entry>, request: string): int {
    if closed == [] then 0 else (if closed[0].request == request then closed[0].charge else 0) + Paid(closed[1..], request)
  }

  lemma {:induction false} PaidAppend(closed: seq<Entry>, e: Entry, request: string)
    ensures Paid(closed + [e], request) == Paid(closed, request) + if e.request == request then e.charge else 0
  {
    if closed == [] {
      assert closed + [e] == [e] && [e][1..] == [];
    } else {
      assert (closed + [e])[1..] == closed[1..] + [e];
      PaidAppend(closed[1..], e, request);
    }
  }

  /** Only settling a request changes what it paid. */
  lemma StepPaid(b: Books, e: Event, request: string)
    ensures !(e.Settle? && e.request == request) ==> Paid(Next(b, e).books.closed, request) == Paid(b.closed, request)
  {
    hide Find, Refusal, Take, Swept, Paid;
    var b' := Next(b, e).books;
    if e.Reserve? {
      TakeKeeps(b, e.user, e.key, e.amount);
    } else if !e.Cleanup? && Find(b.records, e.request) < |b.records| {
      NamedStep(b, e, Find(b.records, e.request));
      if b'.closed != b.closed {
        PaidAppend(b.closed, b'.closed[|b.closed|], request);
      }
    }
  }

  /** An event that the request's own session does not make: on another request, or by the recovery and
      cleanup jobs. */
  predicate Foreign(e: Event, request: string) {
    !Names(e, request) || e.ReleaseUnsent? || e.Cleanup?
  }

  predicate AllForeign(events: seq<Event>, request: string) {
    forall i :: 0 <= i < |events| ==> Foreign(events[i], request)
  }

  /** What foreign events can do to a record: nothing once it is started, otherwise release it, then
      drop it. */
  predicate Drifted(was: seq<Record>, now: seq<Record>) {
    || now == was
    || (was != [] && was[0].phase != ProviderStarted && (now == [] || now == [was[0].(phase := Released)]))
  }

  lemma {:induction false} RunKeepsUnique(b: Books, events: seq<Event>)
    requires Unique(b.records)
    ensures Unique(After(b, events).records)
    decreases |events|
  {
    hide Next, Lookup, Unique, Count;
    if events != [] {
      StepMoves(b, events[0], "");
      RunKeepsUnique(Next(b, events[0]).books, events[1..]);
    }
  }

  lemma {:induction false} ForeignEvents(b: Books, events: seq<Event>, request: string)
    requires Unique(b.records) && AllForeign(events, request)
    ensures
      var b' := After(b, events);
      && Unique(b'.records)
      && Paid(b'.closed, request) == Paid(b.closed, request)
      && Drifted(Lookup(b.records, request), Lookup(b'.records, request))
    decreases |events|
  {
    hide Next, Lookup, Unique, Count, Paid;
    if events != [] {
      StepMoves(b, events[0], request);
      StepPaid(b, events[0], request);
      ForeignEvents(Next(b, events[0]).books, events[1..], request);
    }
  }

  // ---------------------------------------------------------------------------
  // Duplicates of a request
  // ---------------------------------------------------------------------------

  /** What duplicates of a request do to its record, together with other requests and the recovery job:
      everything but settling it. The record is not cleaned up meanwhile. */
  predicate Duplicate(e: Event, request: string) {
    !((e.Settle? || e.Cleanup?) && Names(e, request))
  }

  /** A started record survives duplicates iff none of them releases it; what the request paid is
      unchanged either way. */
  lemma {:induction false} DuplicatesDisturbIff(b: Books, events: seq<Event>, request: string)
    requires Unique(b.records) && request != ""
    requires Lookup(b.records, request) != [] && Lookup(b.records, request)[0].phase == ProviderStarted
    requires forall i :: 0 <= i < |events| ==> Duplicate(events[i], request)
    ensures
      var was, now := Lookup(b.records, request), Lookup(After(b, events).records, request);
      now == was <==> forall i :: 0 <= i < |events| ==> events[i] != Release(request)
    ensures Paid(After(b, events).closed, request) == Paid(b.closed, request)
    decreases |events|
  {
    hide Next, Lookup, Unique, Count, Paid;
    if events != [] {
      var e, rest, b' := events[0], events[1..], Next(b, events[0]).books;
      StepMoves(b, e, request);
      StepPaid(b, e, request);
      assert forall i :: 0 <= i < |rest| ==> rest[i] == events[i + 1];
      if e == Release(request) {
        ReleaseEnds(b, request);
        RunMovesForward(b', rest, request);
        NoPayment(b', rest, request);
        assert events[0] == Release(request);
      } else {
        DuplicatesDisturbIff(b', rest, request);
        assert forall i :: 1 <= i < |events| ==> events[i] == rest[i - 1];
      }
    }
  }

  lemma ReleaseEnds(b: Books, request: string)
    requires Unique(b.records) && request != ""
    requires Lookup(b.records, request) != [] && Lookup(b.records, request)[0].phase == ProviderStarted
    ensures
      var now := Lookup(Next(b, Release(request)).books.records, request);
      now != [] && now[0].phase == Released
  {
    hide Unique, Take;
    var i := Find(b.records, request);
    var r := b.records[i];
    TakeKeeps(b, r.user, r.key, -r.amount);
    LookupUpdate(b.records, i, r.(phase := Released), request);
  }

  lemma {:induction false} NoPayment(b: Books, events: seq<Event>, request: string)
    requires Unique(b.records)
    requires forall i :: 0 <= i < |events| ==> Duplicate(events[i], request)
    ensures Paid(After(b, events).closed, request) == Paid(b.closed, request)
    decreases |events|
  {
    hide Next, Lookup, Unique, Count, Paid;
    if events != [] {
      StepMoves(b, events[0], request);
      StepPaid(b, events[0], request);
      NoPayment(Next(b, events[0]).books, events[1..], request);
    }
  }

  /** One wallet with a balance of ten, and no keys. */
  function TenInTheWallet(): Books {
    Books(map[1 := 10], map[], [], [])
  }

  lemma OneRecord(b: Books, r: Record)
    requires b.records == [r]
    ensures Find(b.records, r.request) == 0
  {
  }

  /** An input: the first submission reserved five and was sent; a duplicate finds the record and refunds.
      The record is released and the wallet is whole while the provider may still be at work. */
  lemma DuplicateReleasesTheHold()
    ensures
      var first := After(TenInTheWallet(), [Reserve("r", 1, 0, false, 5), MarkStarted("r")]);
      var second := Next(first, Reserve("r", 1, 0, false, 5));
      var b := Next(first, Release("r")).books;
      && first.records == [Record("r", 1, 0, false, 5, ProviderStarted)] && first.users == map[1 := 5]
      && second == Step(first, Done(false))
      && b.records == [Record("r", 1, 0, false, 5, Released)] && b.users == map[1 := 10]
  {
    var first := StartedAtFive();
    OneRecord(first, Record("r", 1, 0, false, 5, ProviderStarted));
  }

  lemma StartedAtFive() returns (first: Books)
    ensures first == After(TenInTheWallet(), [Reserve("r", 1, 0, false, 5), MarkStarted("r")])
    ensures first == Books(map[1 := 5], map[], [Record("r", 1, 0, false, 5, ProviderStarted)], [])
  {
    var b, e, m := TenInTheWallet(), Reserve("r", 1, 0, false, 5), MarkStarted("r");
    var reserved := Next(b, e).books;
    assert reserved == Books(map[1 := 5], map[], [Record("r", 1, 0, false, 5, Reserved)], []);
    OneRecord(reserved, Record("r", 1, 0, false, 5, Reserved));
    first := Next(reserved, m).books;
    assert [e, m][1..] == [m] && [m][1..] == [];
    assert After(reserved, [m]) == first;
  }

  /** An input: the provider accepted the request at six, the reservation is five, and the wallet has
      five more. The top-up is refused all the same, because the record is marked as sent. */
  lemma TopUpAfterSendingIsRefused()
    ensures
      var first := After(TenInTheWallet(), [Reserve("r", 1, 0, false, 5), MarkStarted("r")]);
      first.users == map[1 := 5] && AppendStep(first, "r", 1) == Step(first, Failed(StateConflict))
  {
    var first := StartedAtFive();
    OneRecord(first, Record("r", 1, 0, false, 5, ProviderStarted));
  }

  /** An input: before the first submission is sent, a duplicate raises the shared record by two. Settled
      at a cost of five, the difference the first one knows of is zero, and the request pays seven. */
  lemma DuplicateTopUpIsPaid()
    ensures
      var first := Next(TenInTheWallet(), Reserve("r", 1, 0, false, 5)).books;
      var raised := Next(first, Append("r", 2)).books;
      var b := Next(raised, Settle("r", 5 - 5)).books;
      b.users == map[1 := 3] && Paid(b.closed, "r") == 7
  {
    var first := Next(TenInTheWallet(), Reserve("r", 1, 0, false, 5)).books;
    assert first == Books(map[1 := 5], map[], [Record("r", 1, 0, false, 5, Reserved)], []);
    OneRecord(first, Record("r", 1, 0, false, 5, Reserved));
    var raised := Next(first, Append("r", 2)).books;
    assert raised == Books(map[1 := 3], map[], [Record("r", 1, 0, false, 7, Reserved)], []);
    OneRecord(raised, Record("r", 1, 0, false, 7, Reserved));
    var b := Next(raised, Settle("r", 0)).books;
    assert b.closed == [Entry("r", 1, 0, 7)];
    assert Paid([Entry("r", 1, 0, 7)][1..], "r") == 0;
  }

  // ---------------------------------------------------------------------------
  // When a transaction is granted, and which error it gives otherwise
  // ---------------------------------------------------------------------------

  /** The wallet has the amount. */
  predicate WalletCovers(b: Books, user: int, amount: int) {
    user in b.users && b.users[user] >= amount
  }

  /** There is no key to charge, or the key exists and either has no limit or has the amount left. */
  predicate KeyCovers(b: Books, key: int, unlimited: bool, amount: int) {
    key <= 0 || (key in b.keys && (unlimited || b.keys[key].remain >= amount))
  }

  predicate Unknown(b: Books, request: string) {
    forall i :: 0 <= i < |b.records| ==> b.records[i].request != request
  }

  lemma FindUnknown(b: Books, request: string)
    ensures Find(b.records, request) == |b.records| <==> Unknown(b, request)
  {
  }

  lemma FindOnly(b: Books, i: nat)
    requires Unique(b.records) && i < |b.records|
    ensures Find(b.records, b.records[i].request) == i
  {
    var j := Find(b.records, b.records[i].request);
    if j < i { assert false; }
  }

  /** A reservation is granted iff it names a request, a user and a positive amount, the request is new, and
      both the wallet and the key cover it; the wallet is asked before the key. */
  lemma ReserveIsGrantedIff(b: Books, request: string, user: int, key: int, unlimited: bool, amount: int)
    ensures
      var reply := Next(b, Reserve(request, user, key, unlimited, amount)).reply;
      var proper := request != "" && user > 0 && amount >= 0;
      var asks := proper && amount > 0 && Unknown(b, request);
      && (reply == Done(true) <==> asks && WalletCovers(b, user, amount) && KeyCovers(b, key, unlimited, amount))
      && (reply == Done(false) <==> proper && (amount == 0 || !Unknown(b, request)))
      && (reply == Failed(InsufficientUser) <==> asks && !WalletCovers(b, user, amount))
      && (reply == Failed(InsufficientKey) <==> asks && WalletCovers(b, user, amount) && !KeyCovers(b, key, unlimited, amount))
      && (reply == Failed(NotFound) <==> request == "")
      && (reply == Failed(InvalidUser) <==> request != "" && user <= 0)
      && (reply == Failed(NegativeAmount) <==> request != "" && user > 0 && amount < 0)
  {
    hide Find, Take;
    FindUnknown(b, request);
  }

  /** A top-up is granted iff it is positive, the record is still reserved, and wallet and key cover it. */
  lemma AppendIsGrantedIff(b: Books, i: nat, delta: int)
    requires Unique(b.records) && i < |b.records| && b.records[i].request != ""
    ensures
      var r := b.records[i];
      var reply := Next(b, Append(r.request, delta)).reply;
      var asks := delta > 0 && r.phase == Reserved;
      && (reply == Done(true) <==> asks && WalletCovers(b, r.user, delta) && KeyCovers(b, r.key, r.unlimited, delta))
      && (reply == Done(false) <==> delta <= 0)
      && (reply == Failed(StateConflict) <==> delta > 0 && r.phase != Reserved)
      && (reply == Failed(InsufficientUser) <==> asks && !WalletCovers(b, r.user, delta))
      && (reply == Failed(InsufficientKey) <==> asks && WalletCovers(b, r.user, delta) && !KeyCovers(b, r.key, r.unlimited, delta))
  {
    hide Find, Take, Unique;
    FindOnly(b, i);
  }

  /** A settlement goes through iff the record is active and, for what is still to be paid, wallet and key
      cover it; an ended record is left alone without an error. */
  lemma SettleIsGrantedIff(b: Books, i: nat, delta: int)
    requires Unique(b.records) && i < |b.records| && b.records[i].request != ""
    ensures
      var r := b.records[i];
      var reply := Next(b, Settle(r.request, delta)).reply;
      var active := r.phase == Reserved || r.phase == ProviderStarted;
      var covered := delta <= 0 || (WalletCovers(b, r.user, delta) && KeyCovers(b, r.key, r.unlimited, delta));
      && (reply == Done(true) <==> active && covered)
      && (reply == Done(false) <==> !active)
      && (reply == Failed(InsufficientUser) <==> active && delta > 0 && !WalletCovers(b, r.user, delta))
      && (reply == Failed(InsufficientKey) <==> active && !covered && WalletCovers(b, r.user, delta))
  {
    hide Find, Take, Unique;
    FindOnly(b, i);
  }

  /** A mark succeeds from reserved, repeats harmlessly from started and conflicts with an ended record; a
      release goes through from reserved and started, a recovery release from reserved alone. */
  lemma MarkAndReleaseReplies(b: Books, i: nat)
    requires Unique(b.records) && i < |b.records| && b.records[i].request != ""
    ensures
      var r := b.records[i];
      && Next(b, MarkStarted(r.request)).reply == (match r.phase
           case Reserved => Done(true)
           case ProviderStarted => Done(false)
           case _ => Failed(StateConflict))
      && Next(b, Release(r.request)).reply == Done(r.phase == Reserved || r.phase == ProviderStarted)
      && Next(b, ReleaseUnsent(r.request)).reply == Done(r.phase == Reserved)
  {
    hide Find, Take, Unique;
    FindOnly(b, i);
  }

  /** Without a record every operation on the request but a reservation reports that it is not found. */
  lemma UnknownIsNotFound(b: Books, request: string, delta: int)
    requires Unknown(b, request)
    ensures (delta > 0 ==> Next(b, Append(request, delta)).reply == Failed(NotFound))
    ensures Next(b, MarkStarted(request)).reply == Failed(NotFound)
    ensures Next(b, Settle(request, delta)).reply == Failed(NotFound)
    ensures Next(b, Release(request)).reply == Failed(NotFound) && Next(b, ReleaseUnsent(request)).reply == Failed(NotFound)
  {
    hide Find, Take, Refusal;
    FindUnknown(b, request);
  }

  // ---------------------------------------------------------------------------
  // Keys: what is left and what is used
  // ---------------------------------------------------------------------------

  /** Every transaction keeps the sum of what a key has left and what it has used. */
  lemma StepKeepsAllowance(b: Books, e: Event, key: int)
    requires key in b.keys
    ensures
      var b' := Next(b, e).books;
      key in b'.keys && b'.keys[key].remain + b'.keys[key].used == b.keys[key].remain + b.keys[key].used
  {
    hide Find, Refusal, Swept;
  }

  lemma {:induction false} RunKeepsAllowance(b: Books, events: seq<Event>, key: int)
    requires key in b.keys
    ensures
      var b' := After(b, events);
      key in b'.keys && b'.keys[key].remain + b'.keys[key].used == b.keys[key].remain + b.keys[key].used
    decreases |events|
  {
    hide Next;
    if events != [] {
      StepKeepsAllowance(b, events[0], key);
      RunKeepsAllowance(Next(b, events[0]).books, events[1..], key);
    }
  }
}
