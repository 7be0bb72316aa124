/** Admission control for plugin protocol observations: one global counter and three counter maps,
    checked scope by scope with a rollback of the scopes already taken, and a lease that can be
    released any number of times but gives its slots back once.
 */
module AdmissionLimiter {
  import opened Text

  datatype Limits = Limits(global: int, perPlugin: int, perUser: int, perToken: int)

  datatype Identity = Identity(plugin: string, user: int, token: int)

  datatype Counters = Counters(global: int, plugin: map<string, int>, user: map<int, int>, token: map<int, int>)

  /** A scope an observation is counted in. */
  datatype Scope = Global | Plugin(p: string) | User(u: int) | Token(t: int)

  predicate InScope(id: Identity, s: Scope) {
    match s
    case Global => true
    case Plugin(p) => id.plugin == p
    case User(u) => id.user == u
    case Token(t) => id.token == t
  }

  function Cap(l: Limits, s: Scope): int {
    match s
    case Global => l.global
    case Plugin(_) => l.perPlugin
    case User(_) => l.perUser
    case Token(_) => l.perToken
  }

  /** Go's map read: a missing key counts zero. */
  function Get<K>(m: map<K, int>, k: K): int {
    if k in m then m[k] else 0
  }

  function Bump<K>(m: map<K, int>, k: K): map<K, int> {
    m[k := Get(m, k) + 1]
  }

  /** Decrement, and delete the entry when it reaches zero. */
  function Drop<K>(m: map<K, int>, k: K): map<K, int> {
    if Get(m, k) - 1 == 0 then m - {k} else m[k := Get(m, k) - 1]
  }

  function Level(c: Counters, s: Scope): int {
    match s
    case Global => c.global
    case Plugin(p) => Get(c.plugin, p)
    case User(u) => Get(c.user, u)
    case Token(t) => Get(c.token, t)
  }

  predicate NoZeros<K(!new)>(m: map<K, int>) {
    forall k :: k in m ==> m[k] > 0
  }

  /** No map keeps an entry that counts nothing. */
  ghost predicate Clean(c: Counters) {
    NoZeros(c.plugin) && NoZeros(c.user) && NoZeros(c.token)
  }

  predicate Room(c: Counters, l: Limits, s: Scope) {
    Level(c, s) < Cap(l, s)
  }

  predicate AllRoom(c: Counters, l: Limits, id: Identity) {
    Room(c, l, Global) && Room(c, l, Plugin(id.plugin)) && Room(c, l, User(id.user)) && Room(c, l, Token(id.token))
  }

  /** The first scope without room, in the order global, plugin, user, token. */
  function FirstFull(c: Counters, l: Limits, id: Identity): Scope {
    if !Room(c, l, Global) then Global
    else if !Room(c, l, Plugin(id.plugin)) then Plugin(id.plugin)
    else if !Room(c, l, User(id.user)) then User(id.user)
    else Token(id.token)
  }

  function Taken(c: Counters, id: Identity): Counters {
    Counters(c.global + 1, Bump(c.plugin, id.plugin), Bump(c.user, id.user), Bump(c.token, id.token))
  }

  function Given(c: Counters, id: Identity): Counters {
    Counters(c.global - 1, Drop(c.plugin, id.plugin), Drop(c.user, id.user), Drop(c.token, id.token))
  }

  predicate ValidIdentity(id: Identity) {
    id.plugin != "" && id.user > 0 && id.token > 0
  }

  /** Taking a slot and giving it back restores the maps exactly. */
  lemma DropUndoesBump<K>(m: map<K, int>, k: K)
    requires forall x :: x in m ==> m[x] > 0
    ensures Drop(Bump(m, k), k) == m
  {
  }

  // ---------------------------------------------------------------------------
  // Runs: any interleaving of acquires and releases
  // ---------------------------------------------------------------------------

  datatype Event = Acquire(id: Identity) | Release(lease: nat)

  /** A lease that was handed out, and whether it is still held. */
  datatype Held = Held(id: Identity, live: bool)

  datatype Run = Run(counters: Counters, leases: seq<Held>)

  const Start := Run(Counters(0, map[], map[], map[]), [])

  /** The identity as it is counted, with its plugin key trimmed. */
  function Named(asked: Identity): Identity {
    asked.(plugin := TrimSpace(asked.plugin))
  }

  function Next(r: Run, l: Limits, e: Event): Run {
    match e
    case Acquire(asked) =>
      var id := Named(asked);
      if ValidIdentity(id) && AllRoom(r.counters, l, id)
      then Run(Taken(r.counters, id), r.leases + [Held(id, true)]) else r
    case Release(i) =>
      if i < |r.leases| && r.leases[i].live
      then Run(Given(r.counters, r.leases[i].id), r.leases[i := r.leases[i].(live := false)]) else r
  }

  function After(r: Run, l: Limits, events: seq<Event>): Run
    decreases |events|
  {
    if events == [] then r else After(Next(r, l, events[0]), l, events[1..])
  }

  /** How many live leases a scope holds. */
  function Live(leases: seq<Held>, s: Scope): nat {
    if leases == [] then 0
    else (if leases[0].live && InScope(leases[0].id, s) then 1 else 0) + Live(leases[1..], s)
  }

  /** Whether the scope's counter exists; the global one always does. */
  predicate Present(c: Counters, s: Scope) {
    match s
    case Global => true
    case Plugin(p) => p in c.plugin
    case User(u) => u in c.user
    case Token(t) => t in c.token
  }

  /** Every counter is the number of live leases in its scope, within its limit, and no map keeps a
      zero entry. */
  ghost predicate Exact(r: Run, l: Limits) {
    forall s ::
      && Level(r.counters, s) == Live(r.leases, s)
      && (Live(r.leases, s) == 0 || Live(r.leases, s) <= Cap(l, s))
      && (Present(r.counters, s) ==> s.Global? || Level(r.counters, s) > 0)
  }

  lemma {:induction false} LiveAppend(leases: seq<Held>, h: Held, s: Scope)
    ensures Live(leases + [h], s) == Live(leases, s) + if h.live && InScope(h.id, s) then 1 else 0
  {
    if leases == [] {
      assert leases + [h] == [h] && [h][1..] == [];
    } else {
      assert (leases + [h])[1..] == leases[1..] + [h];
      LiveAppend(leases[1..], h, s);
    }
  }

  lemma {:induction false} LiveUpdate(leases: seq<Held>, i: nat, s: Scope)
    requires i < |leases| && leases[i].live
    ensures Live(leases[i := leases[i].(live := false)], s) == Live(leases, s) - if InScope(leases[i].id, s) then 1 else 0
  {
    var h := leases[i].(live := false);
    if i == 0 {
      assert leases[i := h][1..] == leases[1..];
    } else {
      assert leases[i := h][1..] == leases[1..][i - 1 := h];
      LiveUpdate(leases[1..], i - 1, s);
    }
  }

  lemma TakenLevels(c: Counters, id: Identity, s: Scope)
    ensures Level(Taken(c, id), s) == Level(c, s) + if InScope(id, s) then 1 else 0
    ensures Present(Taken(c, id), s) ==> Present(c, s) || InScope(id, s)
  {
  }

  lemma GivenLevels(c: Counters, id: Identity, s: Scope)
    ensures Level(Given(c, id), s) == Level(c, s) - if InScope(id, s) then 1 else 0
    ensures Present(Given(c, id), s) ==> (Present(c, s) || InScope(id, s)) && (InScope(id, s) ==> s.Global? || Level(Given(c, id), s) != 0)
  {
  }

  lemma StepKeepsExact(r: Run, l: Limits, e: Event)
    requires Exact(r, l)
    ensures Exact(Next(r, l, e), l)
  {
    hide Live, Taken, Given, Level, Present;
    var r' := Next(r, l, e);
    forall s
      ensures Level(r'.counters, s) == Live(r'.leases, s)
      ensures Live(r'.leases, s) == 0 || Live(r'.leases, s) <= Cap(l, s)
      ensures Present(r'.counters, s) ==> s.Global? || Level(r'.counters, s) > 0
    {
      assert Level(r.counters, s) == Live(r.leases, s);
      match e
      case Acquire(asked) =>
        var id := Named(asked);
        LiveAppend(r.leases, Held(id, true), s);
        TakenLevels(r.counters, id, s);
      case Release(i) =>
        if i < |r.leases| && r.leases[i].live {
          LiveUpdate(r.leases, i, s);
          GivenLevels(r.counters, r.leases[i].id, s);
        }
    }
  }

  /** The accounting is exact after any interleaving of acquires and releases, valid or not,
      repeated or not. */
  lemma {:induction false} RunIsExact(r: Run, l: Limits, events: seq<Event>)
    requires Exact(r, l)
    ensures Exact(After(r, l, events), l)
    decreases |events|
  {
    hide Exact;
    if events != [] {
      StepKeepsExact(r, l, events[0]);
      RunIsExact(Next(r, l, events[0]), l, events[1..]);
    }
  }

  lemma {:induction false} NoneLive(leases: seq<Held>, s: Scope)
    requires forall i :: 0 <= i < |leases| ==> !leases[i].live
    ensures Live(leases, s) == 0
  {
    if leases != [] { NoneLive(leases[1..], s); }
  }

  /** From an idle limiter: counters are exact throughout, an acquire is granted iff the identity is
      valid and each of its four scopes holds fewer live leases than its limit, and when nothing is
      held the limiter is back in its initial state. */
  lemma EveryRunIsExact(l: Limits, events: seq<Event>, asked: Identity)
    ensures
      var r, id := After(Start, l, events), Named(asked);
      && Exact(r, l)
      && (|Next(r, l, Acquire(asked)).leases| > |r.leases|
          <==> ValidIdentity(id) && forall s :: InScope(id, s) ==> Live(r.leases, s) < Cap(l, s))
      && ((forall i :: 0 <= i < |r.leases| ==> !r.leases[i].live) ==> r.counters == Start.counters)
  {
    assert Exact(Start, l);
    RunIsExact(Start, l, events);
    var r := After(Start, l, events);
    RoomIsLive(r, l, Named(asked));
    if forall i :: 0 <= i < |r.leases| ==> !r.leases[i].live {
      NothingLeft(r, l);
    }
  }

  lemma RoomIsLive(r: Run, l: Limits, id: Identity)
    requires Exact(r, l)
    ensures AllRoom(r.counters, l, id) <==> forall s :: InScope(id, s) ==> Live(r.leases, s) < Cap(l, s)
  {
    hide Live, Level;
    if AllRoom(r.counters, l, id) {
      forall s | InScope(id, s) ensures Live(r.leases, s) < Cap(l, s) {
        assert Level(r.counters, s) == Live(r.leases, s);
        assert s == Global || s == Plugin(id.plugin) || s == User(id.user) || s == Token(id.token);
      }
    } else {
      var s := FirstFull(r.counters, l, id);
      assert InScope(id, s) && Level(r.counters, s) == Live(r.leases, s);
    }
  }

  lemma NothingLeft(r: Run, l: Limits)
    requires Exact(r, l) && forall i :: 0 <= i < |r.leases| ==> !r.leases[i].live
    ensures r.counters == Start.counters
  {
    forall s ensures Level(r.counters, s) == 0 && (s.Global? || !Present(r.counters, s)) {
      assert Level(r.counters, s) == Live(r.leases, s);
      NoneLive(r.leases, s);
    }
    forall p ensures p !in r.counters.plugin { assert !Present(r.counters, Plugin(p)); }
    forall u ensures u !in r.counters.user { assert !Present(r.counters, User(u)); }
    forall t ensures t !in r.counters.token { assert !Present(r.counters, Token(t)); }
    assert r.counters.global == Level(r.counters, Global);
    assert r.counters.plugin.Keys == {} && r.counters.user.Keys == {} && r.counters.token.Keys == {};
  }

  // ---------------------------------------------------------------------------
  // The same in plain terms
  // ---------------------------------------------------------------------------

  /** The live leases, those of a plugin, those of a user and those of a token. */
  function LiveIn(leases: seq<Held>, s: Scope): set<nat> {
    match s
    case Global => set i: nat | i < |leases| && leases[i].live
    case Plugin(p) => set i: nat | i < |leases| && leases[i].live && leases[i].id.plugin == p
    case User(u) => set i: nat | i < |leases| && leases[i].live && leases[i].id.user == u
    case Token(t) => set i: nat | i < |leases| && leases[i].live && leases[i].id.token == t
  }

  lemma LiveInGrows(leases: seq<Held>, s: Scope)
    requires leases != []
    ensures
      var n := |leases| - 1;
      && n !in LiveIn(leases[..n], s)
      && LiveIn(leases, s) == LiveIn(leases[..n], s) + if leases[n].live && InScope(leases[n].id, s) then {n} else {}
  {
    var n := |leases| - 1;
    assert forall i :: 0 <= i < n ==> leases[..n][i] == leases[i];
  }

  lemma NoneIn(s: Scope)
    ensures LiveIn([], s) == {}
  {
  }

  /** A scope's live leases, counted one by one. */
  lemma {:induction false} LiveIs(leases: seq<Held>, s: Scope)
    ensures Live(leases, s) == |LiveIn(leases, s)|
  {
    hide LiveIn, InScope;
    if leases == [] {
      NoneIn(s);
    } else {
      var n := |leases| - 1;
      LiveInGrows(leases, s);
      LiveIs(leases[..n], s);
      LiveAppend(leases[..n], leases[n], s);
      assert leases[..n] + [leases[n]] == leases;
    }
  }

  /** After any run: the global counter is the number of live leases, and the counter of a plugin, user or
      token the number of live leases with that plugin, user or token. An acquire is granted iff its
      trimmed plugin key is not blank, its ids are positive, and all four numbers are below their limits. */
  lemma CountersInPlainTerms(l: Limits, events: seq<Event>, asked: Identity)
    ensures
      var r := After(Start, l, events);
      var p, u, t := TrimSpace(asked.plugin), asked.user, asked.token;
      var all, ps := |LiveIn(r.leases, Global)|, |LiveIn(r.leases, Plugin(p))|;
      var us, ts := |LiveIn(r.leases, User(u))|, |LiveIn(r.leases, Token(t))|;
      && r.counters.global == all && Get(r.counters.plugin, p) == ps && Get(r.counters.user, u) == us && Get(r.counters.token, t) == ts
      && (p in r.counters.plugin <==> ps > 0) && (u in r.counters.user <==> us > 0) && (t in r.counters.token <==> ts > 0)
      && (|Next(r, l, Acquire(asked)).leases| == |r.leases| + 1 <==>
          p != "" && u > 0 && t > 0 && all < l.global && ps < l.perPlugin && us < l.perUser && ts < l.perToken)
  {
    hide After, Live, LiveIn, TrimSpace, Taken, Exact;
    var r := After(Start, l, events);
    var p, u, t := TrimSpace(asked.plugin), asked.user, asked.token;
    EveryRunIsExact(l, events, asked);
    LiveIs(r.leases, Global);
    LiveIs(r.leases, Plugin(p));
    LiveIs(r.leases, User(u));
    LiveIs(r.leases, Token(t));
    LevelsOf(r, l, p, u, t);
  }

  /** The scope that a refusal names after any run, from the numbers of live leases: the first of global,
      plugin, user and token whose limit is reached. */
  lemma RefusalNamesTheFirstFull(l: Limits, events: seq<Event>, asked: Identity)
    ensures
      var r := After(Start, l, events);
      var p, u, t := asked.plugin, asked.user, asked.token;
      var all, ps, us := |LiveIn(r.leases, Global)|, |LiveIn(r.leases, Plugin(p))|, |LiveIn(r.leases, User(u))|;
      FirstFull(r.counters, l, asked) ==
        if all >= l.global then Global
        else if ps >= l.perPlugin then Plugin(p)
        else if us >= l.perUser then User(u)
        else Token(t)
  {
    hide After, Live, LiveIn, Exact, TrimSpace, Taken;
    var r := After(Start, l, events);
    EveryRunIsExact(l, events, asked);
    LiveIs(r.leases, Global);
    LiveIs(r.leases, Plugin(asked.plugin));
    LiveIs(r.leases, User(asked.user));
    LevelsOf(r, l, asked.plugin, asked.user, asked.token);
  }

  lemma LevelsOf(r: Run, l: Limits, p: string, u: int, t: int)
    requires Exact(r, l)
    ensures r.counters.global == Live(r.leases, Global)
    ensures Get(r.counters.plugin, p) == Live(r.leases, Plugin(p)) && (p in r.counters.plugin <==> Live(r.leases, Plugin(p)) > 0)
    ensures Get(r.counters.user, u) == Live(r.leases, User(u)) && (u in r.counters.user <==> Live(r.leases, User(u)) > 0)
    ensures Get(r.counters.token, t) == Live(r.leases, Token(t)) && (t in r.counters.token <==> Live(r.leases, Token(t)) > 0)
  {
    hide Live;
    assert Level(r.counters, Global) == Live(r.leases, Global);
    assert Level(r.counters, Plugin(p)) == Live(r.leases, Plugin(p));
    assert Level(r.counters, User(u)) == Live(r.leases, User(u));
    assert Level(r.counters, Token(t)) == Live(r.leases, Token(t));
    assert Present(r.counters, Plugin(p)) <==> p in r.counters.plugin;
    assert Present(r.counters, User(u)) <==> u in r.counters.user;
    assert Present(r.counters, Token(t)) <==> t in r.counters.token;
  }

  /** Releasing a lease again, at any later point, changes nothing. */
  lemma ReleaseTwiceIsOnce(r: Run, l: Limits, i: nat, between: seq<Event>)
    ensures
      var once := After(Next(r, l, Release(i)), l, between);
      i < |r.leases| ==> Next(once, l, Release(i)) == once
  {
    if i < |r.leases| {
      StaysReleased(Next(r, l, Release(i)), l, i, between);
    }
  }

  lemma {:induction false} StaysReleased(r: Run, l: Limits, i: nat, events: seq<Event>)
    requires i < |r.leases| && !r.leases[i].live
    ensures i < |After(r, l, events).leases| && !After(r, l, events).leases[i].live
    decreases |events|
  {
    if events != [] {
      StaysReleased(Next(r, l, events[0]), l, i, events[1..]);
    }
  }

  lemma ExactIsClean(r: Run, l: Limits)
    requires Exact(r, l)
    ensures Clean(r.counters)
  {
    hide Live;
    forall k | k in r.counters.plugin ensures r.counters.plugin[k] > 0 { assert Present(r.counters, Plugin(k)); }
    forall k | k in r.counters.user ensures r.counters.user[k] > 0 { assert Present(r.counters, User(k)); }
    forall k | k in r.counters.token ensures r.counters.token[k] > 0 { assert Present(r.counters, Token(k)); }
  }

  // ---------------------------------------------------------------------------
  // The limiter
  // ---------------------------------------------------------------------------

  datatype Outcome = Granted | LimitExceeded(scope: Scope, limit: int) | InvalidIdentity

  class Lease {
    const id: Identity
    var released: bool

    constructor (id: Identity)
      ensures this.id == id && !released
    {
      this.id := id;
      released := false;
    }
  }

  ghost function HeldOf(leases: seq<Lease>): (held: seq<Held>)
    reads leases
    ensures |held| == |leases|
    ensures forall i :: 0 <= i < |leases| ==> held[i] == Held(leases[i].id, !leases[i].released)
  {
    if leases == [] then []
    else
      var last := leases[|leases| - 1];
      HeldOf(leases[..|leases| - 1]) + [Held(last.id, !last.released)]
  }

  lemma HeldGrows(leases: seq<Lease>, lease: Lease)
    ensures HeldOf(leases + [lease]) == HeldOf(leases) + [Held(lease.id, !lease.released)]
  {
  }

  class Limiter {
    const limits: Limits
    ghost var leases: seq<Lease>
    var global: int
    var plugin: map<string, int>
    var user: map<int, int>
    var token: map<int, int>

    function State(): Counters
      reads this
    {
      Counters(global, plugin, user, token)
    }

    /** The counters together with every lease handed out. */
    ghost function View(): Run
      reads this, leases
    {
      Run(State(), HeldOf(leases))
    }

    /** The counters are exact for the leases that are held. */
    ghost predicate Valid()
      reads this, leases
    {
      && Exact(View(), limits)
      && forall i, j :: 0 <= i < j < |leases| ==> leases[i] != leases[j]
    }

    constructor (limits: Limits)
      ensures Valid() && this.limits == limits && View() == Start
    {
      this.limits := limits;
      leases := [];
      global, plugin, user, token := 0, map[], map[], map[];
    }

    /** Succeeds iff the identity is valid and all four scopes have room; otherwise the counters are
        what they were. */
    method Acquire(pluginKey: string, userID: int, tokenID: int) returns (r: Outcome, lease: Lease?)
      requires Valid()
      modifies this
      ensures Valid() && View() == Next(old(View()), limits, Event.Acquire(Identity(pluginKey, userID, tokenID)))
      ensures
        var id := Identity(TrimSpace(pluginKey), userID, tokenID);
        && (r.InvalidIdentity? <==> !ValidIdentity(id))
        && (r.Granted? <==> ValidIdentity(id) && AllRoom(old(State()), limits, id))
        && (r.LimitExceeded? ==> r.scope == FirstFull(old(State()), limits, id) && r.limit == Cap(limits, r.scope))
        && (r.Granted? <==> lease != null)
        && (lease != null ==> fresh(lease) && lease.id == id && !lease.released && leases == old(leases) + [lease])
        && (lease == null ==> leases == old(leases))
    {
      hide Live, AllRoom, Taken, Exact, FirstFull, HeldOf, TrimSpace;
      lease := null;
      var key := TrimSpace(pluginKey);
      if key == "" || userID <= 0 || tokenID <= 0 {
        return InvalidIdentity, null;
      }
      var id := Identity(key, userID, tokenID);
      ExactIsClean(View(), limits);
      StepKeepsExact(View(), limits, Event.Acquire(Identity(pluginKey, userID, tokenID)));
      r := TakeSlots(id);
      if r != Granted {
        return r, null;
      }
      lease := new Lease(id);
      HeldGrows(leases, lease);
      leases := leases + [lease];
    }

    /** Counts the identity in the four scopes one after the other, and takes back what was counted when
        one of them is full. */
    method TakeSlots(id: Identity) returns (r: Outcome)
      requires Clean(State())
      modifies this`global, this`plugin, this`user, this`token
      ensures !r.InvalidIdentity?
      ensures r.Granted? <==> AllRoom(old(State()), limits, id)
      ensures r.LimitExceeded? ==> r.scope == FirstFull(old(State()), limits, id) && r.limit == Cap(limits, r.scope)
      ensures State() == if r.Granted? then Taken(old(State()), id) else old(State())
    {
      if global >= limits.global {
        return LimitExceeded(Global, limits.global);
      }
      global := global + 1;

      if Get(plugin, id.plugin) >= limits.perPlugin {
        global := global - 1;
        return LimitExceeded(Plugin(id.plugin), limits.perPlugin);
      }
      plugin := Bump(plugin, id.plugin);

      if Get(user, id.user) >= limits.perUser {
        global := global - 1;
        DropUndoesBump(old(plugin), id.plugin);
        plugin := Drop(plugin, id.plugin);
        return LimitExceeded(User(id.user), limits.perUser);
      }
      user := Bump(user, id.user);

      if Get(token, id.token) >= limits.perToken {
        global := global - 1;
        DropUndoesBump(old(plugin), id.plugin);
        plugin := Drop(plugin, id.plugin);
        DropUndoesBump(old(user), id.user);
        user := Drop(user, id.user);
        return LimitExceeded(Token(id.token), limits.perToken);
      }
      token := Bump(token, id.token);
      r := Granted;
    }

    /** Gives the lease's slots back the first time, and does nothing afterwards. */
    method Release(lease: Lease, ghost i: nat)
      requires Valid() && i < |leases| && leases[i] == lease
      modifies this, lease`released
      ensures Valid() && leases == old(leases) && lease.released
      ensures View() == Next(old(View()), limits, Event.Release(i))
    {
      hide Live, Exact;
      if lease.released {
        return;
      }
      StepKeepsExact(View(), limits, Event.Release(i));
      lease.released := true;
      global := global - 1;
      plugin := Drop(plugin, lease.id.plugin);
      user := Drop(user, lease.id.user);
      token := Drop(token, lease.id.token);
      assert HeldOf(leases) == old(HeldOf(leases))[i := Held(lease.id, false)];
    }
  }

  /** Drives a new limiter through any events: it goes through the run's states. */
  method Drive(limits: Limits, events: seq<Event>) returns (limiter: Limiter)
    ensures fresh(limiter) && limiter.Valid() && limiter.View() == After(Start, limits, events)
  {
    hide Next, Exact, After, HeldOf;
    limiter := new Limiter(limits);
    var given: seq<Lease> := [];
    assert After(Start, limits, events[..0]) == Start by { AfterNothing(limits, events); }
    for i := 0 to |events|
      invariant fresh(limiter) && limiter.limits == limits && limiter.Valid() && limiter.leases == given
      invariant forall k :: 0 <= k < |given| ==> fresh(given[k])
      invariant limiter.View() == After(Start, limits, events[..i])
    {
      assert events[..i + 1] == events[..i] + [events[i]];
      AfterSnoc(Start, limits, events[..i], events[i]);
      match events[i] {
        case Acquire(id) =>
          var _, lease := limiter.Acquire(id.plugin, id.user, id.token);
          if lease != null { given := given + [lease]; }
        case Release(k) =>
          if k < |given| {
            limiter.Release(given[k], k);
          } else {
            NothingToRelease(limiter.View(), limits, k);
          }
      }
    }
    assert events[..|events|] == events;
  }

  lemma AfterNothing(limits: Limits, events: seq<Event>)
    ensures events[..0] == [] && After(Start, limits, []) == Start
  {
  }

  lemma NothingToRelease(r: Run, limits: Limits, k: nat)
    requires k >= |r.leases|
    ensures Next(r, limits, Event.Release(k)) == r
  {
  }

  lemma {:induction false} AfterSnoc(r: Run, l: Limits, events: seq<Event>, e: Event)
    ensures After(r, l, events + [e]) == Next(After(r, l, events), l, e)
    decreases |events|
  {
    hide Next;
    if events == [] {
      assert events + [e] == [e] && [e][1..] == [];
    } else {
      assert (events + [e])[1..] == events[1..] + [e];
      AfterSnoc(Next(r, l, events[0]), l, events[1..], e);
    }
  }
}
