/** Choosing one provider's price per model from the models.dev catalogue. Prices are compared with a
    tolerance, which is not transitive, so the choice depends on the order providers are visited in.
 */
module ModelsDev {
  import opened Basics
  import opened QuotaMath

  const EPSILON := 0.000000001

  datatype Cost = Cost(input: Option<Float>, output: Option<Float>, cacheRead: Option<Float>)

  datatype Candidate = Candidate(provider: string, input: real, output: Option<real>, cacheRead: Option<real>)

  datatype Provider = Provider(name: string, models: map<string, Cost>)

  predicate NearlyEqual(a: real, b: real) {
    if a > b then a - b < EPSILON else b - a < EPSILON
  }

  predicate ValidCost(v: Float) {
    v.Finite? && v.r >= 0.0
  }

  /** A usable price: an input cost, no negative or infinite part, and no free input with paid output. */
  function Build(provider: string, cost: Cost): Option<Candidate> {
    if cost.input.None? || !ValidCost(cost.input.value) then None
    else if cost.output.Some? && !ValidCost(cost.output.value) then None
    else if cost.input.value.r == 0.0 && cost.output.Some? && cost.output.value.r > 0.0 then None
    else
      Some(Candidate(provider, cost.input.value.r,
                     if cost.output.Some? then Some(cost.output.value.r) else None,
                     if cost.cacheRead.Some? && ValidCost(cost.cacheRead.value) then Some(cost.cacheRead.value.r) else None))
  }

  /** Lexicographic order on strings. */
  predicate Less(a: string, b: string) {
    if b == "" then false
    else if a == "" then true
    else a[0] < b[0] || (a[0] == b[0] && Less(a[1..], b[1..]))
  }

  predicate ShouldReplace(current: Candidate, next: Candidate) {
    if (current.input > 0.0) != (next.input > 0.0) then next.input > 0.0
    else if next.input > 0.0 && !NearlyEqual(next.input, current.input) then next.input < current.input
    else Less(next.provider, current.provider)
  }

  function Better(current: Option<Candidate>, next: Option<Candidate>): Option<Candidate> {
    if next.None? then current
    else if current.None? || ShouldReplace(current.value, next.value) then next
    else current
  }

  function Offer(p: Provider, model: string): Option<Candidate> {
    if model in p.models then Build(p.name, p.models[model]) else None
  }

  /** The choice for one model after visiting the providers in order. */
  function Choice(providers: seq<Provider>, model: string): Option<Candidate> {
    if providers == [] then None
    else Better(Choice(providers[..|providers| - 1], model), Offer(providers[|providers| - 1], model))
  }

  /** The selection over all models: per model it is the choice over the providers, whatever order one
      provider's models are visited in. */
  method Select(providers: seq<Provider>) returns (selected: map<string, Candidate>)
    ensures forall m :: m in selected <==> Choice(providers, m).Some?
    ensures forall m :: m in selected ==> Choice(providers, m) == Some(selected[m])
  {
    hide Build, ShouldReplace;
    selected := map[];
    for i := 0 to |providers|
      invariant forall m :: m in selected <==> Choice(providers[..i], m).Some?
      invariant forall m :: m in selected ==> Choice(providers[..i], m) == Some(selected[m])
    {
      assert providers[..i + 1][..i] == providers[..i];
      var p := providers[i];
      var before := selected;
      var rest := p.models.Keys;
      while rest != {}
        invariant rest <= p.models.Keys
        invariant forall m :: Entry(selected, m) == if m in p.models.Keys - rest then Better(Entry(before, m), Offer(p, m)) else Entry(before, m)
        decreases |rest|
      {
        var name :| name in rest;
        rest := rest - {name};
        var candidate := Build(p.name, p.models[name]);
        if candidate.Some? && (name !in selected || ShouldReplace(selected[name], candidate.value)) {
          selected := selected[name := candidate.value];
        }
      }
      forall m ensures Entry(selected, m) == Choice(providers[..i + 1], m) {
        assert Entry(before, m) == Choice(providers[..i], m);
      }
    }
    assert providers[..|providers|] == providers;
  }

  function Entry(selected: map<string, Candidate>, model: string): Option<Candidate> {
    if model in selected then Some(selected[model]) else None
  }

  // ---------------------------------------------------------------------------
  // What the choice is worth
  // ---------------------------------------------------------------------------

  predicate Ascending(providers: seq<Provider>) {
    forall i, j :: 0 <= i < j < |providers| ==> Less(providers[i].name, providers[j].name)
  }

  lemma {:induction false} LessIsStrict(a: string, b: string)
    requires Less(a, b)
    ensures !Less(b, a)
  {
    if a != "" && a[0] == b[0] { LessIsStrict(a[1..], b[1..]); }
  }

  /** No offer for the model is cheaper than the choice by the tolerance or more, and zero is chosen only
      when every offer is zero. */
  ghost predicate Cheapest(providers: seq<Provider>, model: string) {
    var c := Choice(providers, model);
    && (c.None? <==> forall i :: 0 <= i < |providers| ==> Offer(providers[i], model).None?)
    && (c.Some? ==>
          && (exists i :: 0 <= i < |providers| && Offer(providers[i], model) == c)
          && (c.value.input == 0.0 <==> forall i :: 0 <= i < |providers| ==> Zero(Offer(providers[i], model)))
          && c.value.input >= 0.0
          && forall i :: 0 <= i < |providers| ==> NotCheaper(Offer(providers[i], model), c.value.input))
  }

  predicate Zero(o: Option<Candidate>) {
    o.Some? ==> o.value.input == 0.0
  }

  predicate NotCheaper(o: Option<Candidate>, price: real) {
    o.Some? && o.value.input > 0.0 ==> o.value.input > price - EPSILON
  }

  lemma OfferShape(p: Provider, model: string)
    ensures Offer(p, model).Some? ==> Offer(p, model).value.provider == p.name && Offer(p, model).value.input >= 0.0
  {
  }

  /** In sorted provider order the tie-breaker never fires, so the chosen price only falls. */
  lemma {:induction false} ChoiceIsCheapest(providers: seq<Provider>, model: string)
    requires Ascending(providers)
    ensures Cheapest(providers, model)
    ensures Choice(providers, model).Some? ==> exists i :: 0 <= i < |providers| && providers[i].name == Choice(providers, model).value.provider
  {
    hide Build, Less;
    if providers != [] {
      var k := |providers| - 1;
      var front := providers[..k];
      assert forall i :: 0 <= i < k ==> front[i] == providers[i];
      ChoiceIsCheapest(front, model);
      var was, next := Choice(front, model), Offer(providers[k], model);
      OfferShape(providers[k], model);
      if was.Some? && next.Some? {
        var w :| 0 <= w < |front| && front[w].name == was.value.provider;
        assert Less(providers[w].name, providers[k].name);
        LessIsStrict(was.value.provider, next.value.provider);
      }
      ChoiceStep(providers, model);
    }
  }

  lemma ChoiceStep(providers: seq<Provider>, model: string)
    requires providers != [] && Cheapest(providers[..|providers| - 1], model)
    requires
      var was, next := Choice(providers[..|providers| - 1], model), Offer(providers[|providers| - 1], model);
      was.Some? && next.Some? ==> !Less(next.value.provider, was.value.provider)
    ensures Cheapest(providers, model)
  {
    hide Build, Less, Choice;
    var k := |providers| - 1;
    var front := providers[..k];
    var was, next, now := Choice(front, model), Offer(providers[k], model), Choice(providers, model);
    OfferShape(providers[k], model);
    assert now == Better(was, next) by { ChoiceUnfolds(providers, model); }
    assert forall i :: 0 <= i < k ==> front[i] == providers[i];
    if now.Some? {
      forall i | 0 <= i < |providers| ensures NotCheaper(Offer(providers[i], model), now.value.input) {
        if i < k { assert was.Some? ==> NotCheaper(Offer(front[i], model), was.value.input); }
      }
    }
  }

  lemma ChoiceUnfolds(providers: seq<Provider>, model: string)
    requires providers != []
    ensures Choice(providers, model) == Better(Choice(providers[..|providers| - 1], model), Offer(providers[|providers| - 1], model))
  {
  }

  /** Exactly when a price is usable, and what is kept of it: there must be a finite input cost that is not
      negative; an output cost, if given, must be one too, and must be zero when the input is; a cache
      cost that is not one is dropped. */
  lemma BuildIs(provider: string, cost: Cost)
    ensures
      var input, output, cache := cost.input, cost.output, cost.cacheRead;
      var c := Build(provider, cost);
      && (c.Some? <==> && input.Some? && input.value.Finite? && input.value.r >= 0.0
                       && (output.Some? ==> output.value.Finite? && output.value.r >= 0.0 && (input.value.r == 0.0 ==> output.value.r == 0.0)))
      && (c.Some? ==>
            && c.value.provider == provider && c.value.input == input.value.r
            && c.value.output == (if output.Some? then Some(output.value.r) else None)
            && c.value.cacheRead == if cache.Some? && cache.value.Finite? && cache.value.r >= 0.0 then Some(cache.value.r) else None)
  {
  }

  /** The names agree up to a position where the first has the smaller character. */
  predicate SmallerAt(a: string, b: string, k: nat) {
    k < |a| && k < |b| && a[..k] == b[..k] && a[k] < b[k]
  }

  lemma {:induction false} LessDecides(a: string, b: string) returns (k: nat)
    requires Less(a, b)
    ensures a < b || SmallerAt(a, b, k)
  {
    k := 0;
    if a != "" && a[0] == b[0] {
      var i := LessDecides(a[1..], b[1..]);
      k := i + 1;
      if SmallerAt(a[1..], b[1..], i) {
        assert a[..k] == [a[0]] + a[1..][..i] && b[..k] == [b[0]] + b[1..][..i];
      }
    }
  }

  lemma {:induction false} SmallerIsLess(a: string, b: string, k: nat)
    requires a < b || SmallerAt(a, b, k)
    ensures Less(a, b)
  {
    if k > 0 && SmallerAt(a, b, k) { assert a[0] == a[..k][0] == b[..k][0] == b[0]; }
    if a != "" && a[0] == b[0] {
      if a < b {
        SmallerIsLess(a[1..], b[1..], 0);
      } else {
        assert k > 0;
        assert a[1..][..k - 1] == a[..k][1..] && b[1..][..k - 1] == b[..k][1..];
        SmallerIsLess(a[1..], b[1..], k - 1);
      }
    }
  }

  /** The order of names: at the first position where two differ the smaller character is first, and a proper
      prefix comes before what it begins. */
  lemma LessIs(a: string, b: string)
    ensures Less(a, b) <==> a < b || exists k :: SmallerAt(a, b, k)
  {
    hide Less, SmallerAt;
    if Less(a, b) {
      var k := LessDecides(a, b);
    } else if k :| SmallerAt(a, b, k) {
      SmallerIsLess(a, b, k);
    } else if a < b {
      SmallerIsLess(a, b, 0);
    }
  }

  lemma NearlyEqualIs(a: real, b: real)
    ensures NearlyEqual(a, b) <==> -0.000000001 < a - b < 0.000000001
  {
  }

  /** Which offer is chosen, in sorted order: a zero one only when it is the first offer of all; a positive
      one only when every positive offer before it costs strictly more and none after it is cheaper by
      the tolerance or more. */
  ghost predicate ChosenAt(providers: seq<Provider>, model: string, j: nat) {
    && j < |providers| && Offer(providers[j], model).Some?
    && var price := Offer(providers[j], model).value.input;
    && Choice(providers, model) == Offer(providers[j], model)
    && (forall i :: 0 <= i < j && Offer(providers[i], model).Some? ==> price > 0.0 && Dearer(Offer(providers[i], model).value.input, price))
  }

  predicate Dearer(earlier: real, price: real) {
    earlier == 0.0 || earlier > price
  }

  lemma {:induction false} ChoiceIsEarliest(providers: seq<Provider>, model: string) returns (j: nat)
    requires Ascending(providers) && Choice(providers, model).Some?
    ensures ChosenAt(providers, model, j)
  {
    hide Build, Less, Choice;
    var k := |providers| - 1;
    if providers == [] {
      ChoiceOfNone(model);
      assert false;
    }
    var front := providers[..k];
    assert forall i :: 0 <= i < k ==> front[i] == providers[i];
    ChoiceUnfolds(providers, model);
    var was, next := Choice(front, model), Offer(providers[k], model);
    OfferShape(providers[k], model);
    ChoiceIsCheapest(front, model);
    if was.Some? {
      j := ChoiceIsEarliest(front, model);
      OfferShape(providers[j], model);
      if next.Some? {
        assert Less(providers[j].name, providers[k].name);
        LessIsStrict(was.value.provider, next.value.provider);
        if ShouldReplace(was.value, next.value) {
          j := k;
          forall i | 0 <= i < k && Offer(providers[i], model).Some?
            ensures next.value.input > 0.0 && Dearer(Offer(providers[i], model).value.input, next.value.input)
          {
            assert NotCheaper(Offer(front[i], model), was.value.input);
            OfferShape(providers[i], model);
          }
        }
      }
    } else {
      j := k;
    }
  }

  lemma ChoiceOfNone(model: string)
    ensures Choice([], model) == None
  {
  }

  /** In another order the tie-breaker can walk away from the cheapest offer in steps below the
      tolerance. */
  lemma UnsortedDrifts(c: Provider, b: Provider, a: Provider)
    requires c == Provider("c", map["m" := Cost(Some(Finite(1.0)), None, None)])
    requires b == Provider("b", map["m" := Cost(Some(Finite(1.0000000006)), None, None)])
    requires a == Provider("a", map["m" := Cost(Some(Finite(1.0000000012)), None, None)])
    ensures !Cheapest([c, b, a], "m")
  {
    var two := [c, b];
    assert [c, b, a][..2] == two && two[..1] == [c] && [c][..0] == [];
    assert Choice([c], "m") == Offer(c, "m");
    assert Choice(two, "m") == Offer(b, "m");
    assert Choice([c, b, a], "m") == Offer(a, "m");
    assert !NotCheaper(Offer([c, b, a][0], "m"), Choice([c, b, a], "m").value.input);
  }
}
