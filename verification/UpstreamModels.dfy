/** Detecting how a channel's model list differs from its provider's, and applying a user's selection
    of those differences. Regular expressions are an abstract matcher; an expression that does not
    compile matches nothing.
 */
module UpstreamModels {
  import opened Text

  // ---------------------------------------------------------------------------
  // Ordered sets of model names
  // ---------------------------------------------------------------------------

  /** Trimmed, without blanks, first occurrences only. */
  function Normalize(models: seq<string>): seq<string> {
    if models == [] then []
    else
      var front := Normalize(models[..|models| - 1]);
      var name := TrimSpace(models[|models| - 1]);
      if name == "" || name in front then front else front + [name]
  }

  predicate Clean(s: seq<string>) {
    && (forall i :: 0 <= i < |s| ==> s[i] != "" && TrimSpace(s[i]) == s[i])
    && (forall i, j :: 0 <= i < j < |s| ==> s[i] != s[j])
  }

  function Elements(s: seq<string>): set<string> {
    set x | x in s
  }

  /** The members of `s` that are in `keep`, in the order of `s`. */
  function Pick(s: seq<string>, keep: set<string>): seq<string> {
    if s == [] then []
    else if s[0] in keep then [s[0]] + Pick(s[1..], keep)
    else Pick(s[1..], keep)
  }

  function Subtract(base: seq<string>, removed: seq<string>): seq<string> {
    Pick(Normalize(base), Elements(Normalize(base)) - Elements(Normalize(removed)))
  }

  function Intersect(base: seq<string>, allowed: seq<string>): seq<string> {
    Pick(Normalize(base), Elements(Normalize(allowed)))
  }

  lemma {:induction false} NormalizeIsClean(s: seq<string>)
    ensures Clean(Normalize(s))
  {
    hide TrimSpace;
    if s != [] {
      NormalizeIsClean(s[..|s| - 1]);
      TrimSettles(s[|s| - 1]);
    }
  }

  lemma {:induction false} NormalizeOfClean(s: seq<string>)
    requires Clean(s)
    ensures Normalize(s) == s
  {
    hide TrimSpace;
    if s != [] {
      var front := s[..|s| - 1];
      NormalizeOfClean(front);
      assert s == front + [s[|s| - 1]];
    }
  }

  lemma {:induction false} NormalizeMember(s: seq<string>, x: string)
    ensures x in Normalize(s) <==> x != "" && exists i :: 0 <= i < |s| && TrimSpace(s[i]) == x
  {
    hide TrimSpace;
    if s != [] {
      NormalizeMember(s[..|s| - 1], x);
      assert forall i :: 0 <= i < |s| - 1 ==> s[..|s| - 1][i] == s[i];
    }
  }

  lemma {:induction false} NormalizeAppend(a: seq<string>, b: seq<string>, x: string)
    ensures x in Normalize(a + b) <==> x in Normalize(a) || x in Normalize(b)
  {
    hide TrimSpace;
    if b == [] {
      assert a + b == a;
    } else {
      assert (a + b)[..|a + b| - 1] == a + b[..|b| - 1];
      NormalizeAppend(a, b[..|b| - 1], x);
      NormalizeMember(b, x);
      NormalizeMember(b[..|b| - 1], x);
      NormalizeMember(a, x);
      var name := TrimSpace(b[|b| - 1]);
      NormalizeAppend(a, b[..|b| - 1], name);
    }
  }

  lemma NormalizeSnoc(s: seq<string>, name: string)
    requires name != "" && TrimSpace(name) == name
    ensures Normalize(s + [name]) == if name in Normalize(s) then Normalize(s) else Normalize(s) + [name]
  {
    hide TrimSpace;
    assert (s + [name])[..|s + [name]| - 1] == s;
  }

  /** Appending keeps the order of both sides and adds only what is new. */
  method Merge(base: seq<string>, appended: seq<string>) returns (merged: seq<string>)
    ensures merged == Normalize(base + appended)
  {
    hide Normalize, TrimSpace;
    merged := Normalize(base);
    var seen := Elements(merged);
    var more := Normalize(appended);
    NormalizeIsClean(appended);
    var i := 0;
    assert base + more[..0] == base;
    while i < |more|
      invariant 0 <= i <= |more|
      invariant seen == Elements(merged)
      invariant merged == Normalize(base + more[..i])
    {
      NormalizeSnoc(base + more[..i], more[i]);
      assert base + more[..i] + [more[i]] == base + more[..i + 1];
      if more[i] !in seen {
        seen := seen + {more[i]};
        merged := merged + [more[i]];
      }
      i := i + 1;
    }
    assert more[..|more|] == more;
    NormalizeTwice(base, appended);
  }

  /** Normalizing the appended list first changes nothing. */
  lemma {:induction false} NormalizeTwice(a: seq<string>, b: seq<string>)
    ensures Normalize(a + Normalize(b)) == Normalize(a + b)
  {
    hide TrimSpace;
    if b != [] {
      var front, name := b[..|b| - 1], TrimSpace(b[|b| - 1]);
      NormalizeTwice(a, front);
      assert (a + b)[..|a + b| - 1] == a + front;
      NormalizeAppend(a, front, name);
      TrimSettles(b[|b| - 1]);
      var more := Normalize(b);
      if name != "" && name !in Normalize(front) {
        assert (a + more)[..|a + more| - 1] == a + Normalize(front);
      }
    }
  }

  lemma {:induction false} PickMember(s: seq<string>, keep: set<string>, x: string)
    ensures x in Pick(s, keep) <==> x in s && x in keep
  {
    if s != [] {
      PickMember(s[1..], keep, x);
      assert s == [s[0]] + s[1..];
    }
  }

  lemma {:induction false} PickClean(s: seq<string>, keep: set<string>)
    requires Clean(s)
    ensures Clean(Pick(s, keep))
  {
    hide TrimSpace;
    if s != [] {
      PickClean(s[1..], keep);
      var rest := Pick(s[1..], keep);
      forall i | 0 <= i < |rest| ensures rest[i] != s[0] {
        PickMember(s[1..], keep, rest[i]);
        assert rest[i] in s[1..];
      }
    }
  }

  lemma {:induction false} PickAgree(s: seq<string>, a: set<string>, b: set<string>)
    requires forall x :: x in s ==> (x in a <==> x in b)
    ensures Pick(s, a) == Pick(s, b)
  {
    if s != [] { PickAgree(s[1..], a, b); }
  }

  lemma {:induction false} PickTwice(s: seq<string>, a: set<string>, b: set<string>)
    ensures Pick(Pick(s, a), b) == Pick(s, a * b)
  {
    if s != [] {
      PickTwice(s[1..], a, b);
      if s[0] in a { assert ([s[0]] + Pick(s[1..], a))[1..] == Pick(s[1..], a); }
    }
  }

  lemma {:induction false} PickConcat(s: seq<string>, t: seq<string>, a: set<string>)
    ensures Pick(s + t, a) == Pick(s, a) + Pick(t, a)
  {
    if s == [] {
      assert s + t == t;
    } else {
      assert (s + t)[1..] == s[1..] + t;
      PickConcat(s[1..], t, a);
    }
  }

  lemma {:induction false} PickAll(s: seq<string>, a: set<string>)
    requires forall x :: x in s ==> x in a
    ensures Pick(s, a) == s
  {
    if s != [] { PickAll(s[1..], a); }
  }

  lemma {:induction false} PickNone(s: seq<string>, a: set<string>)
    requires forall x :: x in s ==> x !in a
    ensures Pick(s, a) == []
  {
    if s != [] { PickNone(s[1..], a); }
  }

  lemma SubtractMember(base: seq<string>, removed: seq<string>, x: string)
    ensures x in Subtract(base, removed) <==> x in Normalize(base) && x !in Normalize(removed)
    ensures Clean(Subtract(base, removed))
  {
    NormalizeIsClean(base);
    PickClean(Normalize(base), Elements(Normalize(base)) - Elements(Normalize(removed)));
    PickMember(Normalize(base), Elements(Normalize(base)) - Elements(Normalize(removed)), x);
  }

  lemma IntersectMember(base: seq<string>, allowed: seq<string>, x: string)
    ensures x in Intersect(base, allowed) <==> x in Normalize(base) && x in Normalize(allowed)
    ensures Clean(Intersect(base, allowed))
  {
    NormalizeIsClean(base);
    PickClean(Normalize(base), Elements(Normalize(allowed)));
    PickMember(Normalize(base), Elements(Normalize(allowed)), x);
  }

  // ---------------------------------------------------------------------------
  // Detection
  // ---------------------------------------------------------------------------

  type Matcher = (string, string) -> bool

  const RULE := "regex:"

  predicate IsRule(name: string) {
    RULE <= name
  }

  predicate Ignores(entry: string, name: string, matches: Matcher) {
    if IsRule(entry) then matches(TrimSpace(entry[|RULE|..]), name) else entry == name
  }

  predicate Ignored(entries: seq<string>, name: string, matches: Matcher) {
    exists i :: 0 <= i < |entries| && Ignores(entries[i], name, matches)
  }

  /** Provider models that are neither configured, nor the target of a redirect, nor ignored. */
  function Addable(local: seq<string>, upstream: seq<string>, ignored: seq<string>, mapping: map<string, string>, matches: Matcher): set<string> {
    set u | u in upstream && u !in local && u !in mapping.Values && !Ignored(ignored, u, matches)
  }

  /** Configured models that are neither the source of a redirect nor offered by the provider. */
  function Removable(local: seq<string>, upstream: seq<string>, mapping: map<string, string>): set<string> {
    set m | m in local && m !in mapping && m !in upstream
  }

  datatype Pending = Pending(add: seq<string>, remove: seq<string>)

  function Detect(local: seq<string>, upstream: seq<string>, ignored: seq<string>, mapping: map<string, string>, matches: Matcher): Pending {
    var l, u := Normalize(local), Normalize(upstream);
    Pending(
      Normalize(Pick(u, Addable(l, u, Normalize(ignored), mapping, matches))),
      Normalize(Pick(l, Removable(l, u, mapping))))
  }

  // ---------------------------------------------------------------------------
  // Applying a selection
  // ---------------------------------------------------------------------------

  function ApplySelected(origin: seq<string>, add: seq<string>, remove: seq<string>): seq<string> {
    var adds := Normalize(add);
    Subtract(Normalize(origin + adds), Subtract(Normalize(remove), adds))
  }

  /** A channel's comma-separated model list. */
  function ModelList(models: string): seq<string> {
    if models == "" then [] else Split(TrimBy(models, Cut(',')), ',')
  }

  datatype State = State(models: string, ignored: seq<string>, detected: seq<string>, removed: seq<string>)

  /** What the user picked, cut down to what is pending. */
  datatype Choice = Choice(add: seq<string>, ignore: seq<string>, remove: seq<string>)

  function Chosen(c: State, add: seq<string>, ignore: seq<string>, remove: seq<string>): Choice {
    var chosenAdd := Intersect(add, Normalize(c.detected));
    Choice(chosenAdd, Intersect(ignore, Normalize(c.detected)),
           Subtract(Intersect(remove, Normalize(c.removed)), chosenAdd))
  }

  function Applied(c: State, ch: Choice): State {
    var origin := Normalize(ModelList(c.models));
    var next := ApplySelected(origin, ch.add, ch.remove);
    var ignored := Normalize(c.ignored + ch.ignore);
    State(
      if origin != next then Join(next, ',') else c.models,
      if |ch.add| > 0 then Subtract(ignored, ch.add) else ignored,
      Subtract(Normalize(c.detected), ch.add + ch.ignore),
      Subtract(Normalize(c.removed), ch.remove))
  }

  /** What a check stores: with automatic syncing the additions go straight into the model list. */
  function Checked(c: State, upstream: seq<string>, mapping: map<string, string>, matches: Matcher, autoApply: bool): State {
    var d := Detect(ModelList(c.models), upstream, c.ignored, mapping, matches);
    if autoApply && |d.add| > 0 then
      var origin := Normalize(ModelList(c.models));
      var merged := Normalize(origin + d.add);
      State(if |merged| > |origin| then Join(merged, ',') else c.models, c.ignored, [], d.remove)
    else
      State(c.models, c.ignored, d.add, d.remove)
  }

  datatype Fetch = Fetched(models: seq<string>) | FetchFailed

  datatype CheckResult = TooSoon | NotFetched | Done(changed: bool, added: nat)

  class Channel {
    var models: string
    var ignored: seq<string>
    var detected: seq<string>
    var removed: seq<string>

    var lastCheck: int
    var autoSync: bool
    const mapping: map<string, string>

    function View(): State
      reads this
    {
      State(models, ignored, detected, removed)
    }

    /** Skips a check that comes too soon, keeps the lists when the provider cannot be read, and
        otherwise stores what detection reports. */
    method Check(fetch: Fetch, matches: Matcher, now: int, interval: int, force: bool, allowAutoApply: bool) returns (r: CheckResult)
      modifies this
      ensures r.TooSoon? <==> !force && old(lastCheck) > 0 && now - old(lastCheck) < interval
      ensures lastCheck == if r.TooSoon? then old(lastCheck) else now
      ensures autoSync == old(autoSync)
      ensures r.NotFetched? <==> !r.TooSoon? && fetch.FetchFailed?
      ensures View() == if r.Done? then Checked(old(View()), fetch.models, mapping, matches, allowAutoApply && autoSync) else old(View())
      ensures r.Done? ==> (r.changed <==> r.added > 0)
      ensures r.Done? && allowAutoApply && autoSync ==>
                r.added == |Detect(ModelList(old(models)), fetch.models, old(ignored), mapping, matches).add|
    {
      hide Normalize, Pick, ModelList, Join, Detect;
      if !force && lastCheck > 0 && now - lastCheck < interval {
        return TooSoon;
      }
      lastCheck := now;
      if fetch.FetchFailed? {
        return NotFetched;
      }
      var d := Detect(ModelList(models), fetch.models, ignored, mapping, matches);
      var added := 0;
      if allowAutoApply && autoSync && |d.add| > 0 {
        var origin := Normalize(ModelList(models));
        var merged := Merge(origin, d.add);
        MergedPending(models, fetch.models, ignored, mapping, matches);
        if |merged| > |origin| {
          models := Join(merged, ',');
          added := |merged| - |origin|;
        }
        detected := [];
      } else {
        detected := d.add;
      }
      removed := d.remove;
      r := Done(added > 0, added);
    }

    /** Applies the part of the selection that is pending, and keeps the rest pending. */
    method Apply(addInput: seq<string>, ignoreInput: seq<string>, removeInput: seq<string>, now: int) returns (ch: Choice, changed: bool)
      modifies this
      ensures lastCheck == now && autoSync == old(autoSync)
      ensures ch == Chosen(old(View()), addInput, ignoreInput, removeInput)
      ensures View() == Applied(old(View()), ch)
      ensures changed <==> ApplySelected(Normalize(ModelList(old(models))), ch.add, ch.remove) != Normalize(ModelList(old(models)))
    {
      hide Normalize, Pick, ModelList, ApplySelected, Subtract, Intersect, Join;
      var pendingAdd := Normalize(detected);
      var pendingRemove := Normalize(removed);
      var add := Intersect(addInput, pendingAdd);
      var ignore := Intersect(ignoreInput, pendingAdd);
      var remove := Intersect(removeInput, pendingRemove);
      remove := Subtract(remove, add);
      var origin := Normalize(ModelList(models));
      var next := ApplySelected(origin, add, remove);
      changed := origin != next;
      if changed {
        models := Join(next, ',');
      }
      ignored := Merge(ignored, ignore);
      if |add| > 0 {
        ignored := Subtract(ignored, add);
      }
      detected := Subtract(pendingAdd, add + ignore);
      removed := Subtract(pendingRemove, remove);
      lastCheck := now;
      ch := Choice(add, ignore, remove);
    }
  }

  // ---------------------------------------------------------------------------
  // Applying commutes with detecting
  // ---------------------------------------------------------------------------

  lemma DetectShape(local: seq<string>, upstream: seq<string>, ignored: seq<string>, mapping: map<string, string>, matches: Matcher)
    ensures
      var l, u := Normalize(local), Normalize(upstream);
      var d := Detect(local, upstream, ignored, mapping, matches);
      && Clean(l) && Clean(u) && Clean(d.add) && Clean(d.remove)
      && d == Pending(Pick(u, Addable(l, u, Normalize(ignored), mapping, matches)), Pick(l, Removable(l, u, mapping)))
  {
    hide Clean, Normalize, Pick, Addable, Removable;
    var l, u := Normalize(local), Normalize(upstream);
    NormalizeIsClean(local);
    NormalizeIsClean(upstream);
    PickClean(u, Addable(l, u, Normalize(ignored), mapping, matches));
    PickClean(l, Removable(l, u, mapping));
    NormalizeOfClean(Pick(u, Addable(l, u, Normalize(ignored), mapping, matches)));
    NormalizeOfClean(Pick(l, Removable(l, u, mapping)));
  }

  /** A stored list reads back as it was written when no name contains a comma. */
  lemma ModelListRoundTrip(names: seq<string>)
    requires Clean(names) && forall i :: 0 <= i < |names| ==> ',' !in names[i]
    ensures Normalize(ModelList(Join(names, ','))) == names
  {
    hide Normalize, Split, Join, TrimBy;
    if names == [] {
      assert Join(names, ',') == "" by { EmptyJoin(); }
      NormalizeOfClean([]);
    } else {
      JoinEnds(names, ',');
      TrimIsTight(Join(names, ','), Cut(','));
      SplitJoin(names, ',');
      NormalizeOfClean(names);
    }
  }

  lemma EmptyJoin()
    ensures Join([], ',') == ""
  {
  }

  lemma ModelListCommaFree(models: string, x: string)
    requires x in Normalize(ModelList(models))
    ensures ',' !in x
  {
    hide Normalize, Split, TrimBy;
    NormalizeMember(ModelList(models), x);
    var i :| 0 <= i < |ModelList(models)| && TrimSpace(ModelList(models)[i]) == x;
    SplitParts(TrimBy(models, Cut(',')), ',');
    var a, b := TrimIsPart(ModelList(models)[i], IsSpace);
  }

  /** The choice picks pending names only, and nothing is both added and removed. */
  lemma ChosenShape(c: State, add: seq<string>, ignore: seq<string>, remove: seq<string>)
    requires Clean(c.detected) && Clean(c.removed)
    ensures
      var ch := Chosen(c, add, ignore, remove);
      && Clean(ch.add) && Clean(ch.ignore) && Clean(ch.remove)
      && (forall x :: x in ch.add ==> x in c.detected)
      && (forall x :: x in ch.ignore ==> x in c.detected)
      && (forall x :: x in ch.remove ==> x in c.removed && x !in ch.add)
  {
    hide Normalize, Intersect, Subtract, Clean;
    var ch := Chosen(c, add, ignore, remove);
    NormalizeOfClean(c.detected);
    NormalizeOfClean(c.removed);
    var rem := Intersect(remove, c.removed);
    IntersectMember(remove, c.removed, "");
    IntersectMember(add, c.detected, "");
    IntersectMember(ignore, c.detected, "");
    SubtractMember(rem, ch.add, "");
    NormalizeOfClean(rem);
    NormalizeOfClean(ch.add);
    forall x ensures x in ch.add ==> x in c.detected { IntersectMember(add, c.detected, x); }
    forall x ensures x in ch.ignore ==> x in c.detected { IntersectMember(ignore, c.detected, x); }
    forall x ensures x in ch.remove ==> x in c.removed && x !in ch.add {
      SubtractMember(rem, ch.add, x);
      IntersectMember(remove, c.removed, x);
    }
  }

  lemma CleanAppend(a: seq<string>, b: seq<string>)
    requires Clean(a) && Clean(b) && forall x :: x in b ==> x !in a
    ensures Clean(a + b)
  {
    hide TrimSpace;
    var c := a + b;
    forall i, j | 0 <= i < j < |c| ensures c[i] != c[j] {
      if i < |a| <= j {
        assert b[j - |a|] in b;
      }
    }
  }

  /** Exactly what of the input is applied: the names to add and to ignore that are pending additions, and the
      names to remove that are pending removals and are not added. */
  lemma ChosenIs(c: State, add: seq<string>, ignore: seq<string>, remove: seq<string>, x: string)
    ensures
      var ch := Chosen(c, add, ignore, remove);
      && (x in ch.add <==> x in Normalize(add) && x in Normalize(c.detected))
      && (x in ch.ignore <==> x in Normalize(ignore) && x in Normalize(c.detected))
      && (x in ch.remove <==> x in Normalize(remove) && x in Normalize(c.removed) && !(x in Normalize(add) && x in Normalize(c.detected)))
  {
    hide Normalize, Intersect, Subtract, Clean;
    var pending, gone := Normalize(c.detected), Normalize(c.removed);
    NormalizeIsClean(c.detected);
    NormalizeIsClean(c.removed);
    NormalizeOfClean(pending);
    NormalizeOfClean(gone);
    var chosen, rem := Intersect(add, pending), Intersect(remove, gone);
    IntersectMember(add, pending, x);
    IntersectMember(ignore, pending, x);
    IntersectMember(remove, gone, x);
    NormalizeOfClean(chosen);
    NormalizeOfClean(rem);
    SubtractMember(rem, chosen, x);
  }

  /** The new model list: the old one with the additions behind it and the removals gone. */
  lemma ApplySelectedShape(origin: seq<string>, add: seq<string>, remove: seq<string>)
    requires Clean(origin) && Clean(add) && Clean(remove)
    requires forall x :: x in add ==> x !in origin && x !in remove
    ensures ApplySelected(origin, add, remove) == Pick(origin + add, Elements(origin + add) - Elements(remove))
    ensures Clean(ApplySelected(origin, add, remove))
  {
    hide Normalize, Pick, TrimSpace;
    NormalizeOfClean(add);
    NormalizeOfClean(remove);
    CleanAppend(origin, add);
    NormalizeOfClean(origin + add);
    PickAll(remove, Elements(remove) - Elements(add));
    PickClean(origin + add, Elements(origin + add) - Elements(remove));
  }

  /** The pending lists are what detection reports for the current configuration. */
  predicate Current(c: State, upstream: seq<string>, mapping: map<string, string>, matches: Matcher) {
    Detect(ModelList(c.models), upstream, c.ignored, mapping, matches) == Pending(c.detected, c.removed)
  }

  /** For every name the provider offers that is still unconfigured, the ignore entries `kept` hide it
      iff it was hidden before or is being ignored now. */
  ghost predicate EntriesAgree(c: State, add: seq<string>, ignore: seq<string>, kept: seq<string>,
                               upstream: seq<string>, mapping: map<string, string>, matches: Matcher)
  {
    forall u :: u in Normalize(upstream) && u !in Normalize(ModelList(c.models)) && u !in mapping.Values && u !in add ==>
      (Ignored(kept, u, matches) <==> Ignored(Normalize(c.ignored), u, matches) || u in ignore)
  }

  /** The ignore entries after the choice. */
  function Kept(c: State, ch: Choice): seq<string> {
    var ignored := Normalize(c.ignored + ch.ignore);
    Pick(ignored, Elements(ignored) - Elements(ch.add))
  }

  lemma KeptEntries(c: State, ch: Choice)
    requires Clean(ch.add)
    ensures Normalize(Applied(c, ch).ignored) == Kept(c, ch)
  {
    hide Normalize, Pick, ApplySelected, ModelList, Join;
    var ignored := Normalize(c.ignored + ch.ignore);
    NormalizeIsClean(c.ignored + ch.ignore);
    NormalizeOfClean(ignored);
    NormalizeOfClean(ch.add);
    PickClean(ignored, Elements(ignored) - Elements(ch.add));
    NormalizeOfClean(Kept(c, ch));
    if |ch.add| == 0 {
      PickAll(ignored, Elements(ignored) - Elements(ch.add));
    }
  }

  /** Models after the choice, as they read back. */
  lemma NextModels(c: State, ch: Choice)
    requires Clean(ch.add) && Clean(ch.remove)
    requires forall x :: x in ch.add ==> x !in Normalize(ModelList(c.models)) && x !in ch.remove && ',' !in x
    ensures
      var origin := Normalize(ModelList(c.models));
      Normalize(ModelList(Applied(c, ch).models)) == Pick(origin + ch.add, Elements(origin + ch.add) - Elements(ch.remove))
  {
    hide Normalize, Pick, ModelList, Join, Clean, ApplySelected;
    var origin := Normalize(ModelList(c.models));
    NormalizeIsClean(ModelList(c.models));
    ApplySelectedShape(origin, ch.add, ch.remove);
    var next := ApplySelected(origin, ch.add, ch.remove);
    forall i | 0 <= i < |next| ensures ',' !in next[i] {
      PickMember(origin + ch.add, Elements(origin + ch.add) - Elements(ch.remove), next[i]);
      if next[i] in origin { ModelListCommaFree(c.models, next[i]); }
    }
    if origin != next {
      ModelListRoundTrip(next);
    }
  }

  /** What apply stores as remaining, as picks from what was pending. */
  lemma RemainingShape(c: State, ch: Choice)
    requires Clean(c.detected) && Clean(c.removed) && Clean(ch.add) && Clean(ch.ignore) && Clean(ch.remove)
    ensures Applied(c, ch).detected == Pick(c.detected, Elements(c.detected) - Elements(ch.add) - Elements(ch.ignore))
    ensures Applied(c, ch).removed == Pick(c.removed, Elements(c.removed) - Elements(ch.remove))
  {
    hide Normalize, Pick, ModelList, Join, ApplySelected, Clean;
    NormalizeOfClean(c.detected);
    NormalizeOfClean(c.removed);
    NormalizeOfClean(ch.remove);
    forall x ensures x in Normalize(ch.add + ch.ignore) <==> x in ch.add || x in ch.ignore {
      NormalizeAppend(ch.add, ch.ignore, x);
      NormalizeOfClean(ch.add);
      NormalizeOfClean(ch.ignore);
    }
    PickAgree(c.detected, Elements(c.detected) - Elements(Normalize(ch.add + ch.ignore)),
              Elements(c.detected) - Elements(ch.add) - Elements(ch.ignore));
  }

  /** Two picks from one list are equal iff they keep the same members. */
  lemma PickEqual(s: seq<string>, a: set<string>, b: set<string>)
    ensures Pick(s, a) == Pick(s, b) <==> forall x :: x in s ==> (x in a <==> x in b)
  {
    hide Pick;
    if Pick(s, a) == Pick(s, b) {
      forall x | x in s ensures x in a <==> x in b {
        PickMember(s, a, x);
        PickMember(s, b, x);
      }
    } else if forall x :: x in s ==> (x in a <==> x in b) {
      PickAgree(s, a, b);
    }
  }

  /** What detection reports to add once `add` is configured, `remove` is gone and the ignore entries
      are `entries`. */
  lemma AddSide(c: State, add: seq<string>, ignore: seq<string>, remove: seq<string>, models: string, entries: seq<string>,
                upstream: seq<string>, mapping: map<string, string>, matches: Matcher)
    requires Current(c, upstream, mapping, matches)
    requires forall x :: x in remove ==> x in c.removed
    requires
      var origin := Normalize(ModelList(c.models));
      Normalize(ModelList(models)) == Pick(origin + add, Elements(origin + add) - Elements(remove))
    ensures
      Detect(ModelList(models), upstream, entries, mapping, matches).add == Pick(c.detected, Elements(c.detected) - Elements(add) - Elements(ignore))
      <==> EntriesAgree(c, add, ignore, Normalize(entries), upstream, mapping, matches)
  {
    hide Normalize, Pick, Detect, ModelList, Clean, Ignored;
    var origin, u := Normalize(ModelList(c.models)), Normalize(upstream);
    DetectShape(ModelList(c.models), upstream, c.ignored, mapping, matches);
    DetectShape(ModelList(models), upstream, entries, mapping, matches);
    PendingMembers(c, upstream, mapping, matches);
    var next := Normalize(ModelList(models));
    var pending := Addable(origin, u, Normalize(c.ignored), mapping, matches);
    var again := Addable(next, u, Normalize(entries), mapping, matches);
    var rest := Elements(c.detected) - Elements(add) - Elements(ignore);
    PickTwice(u, pending, rest);
    PickEqual(u, again, pending * rest);
    forall x | x in u
      ensures x in again <==> x !in origin && x !in add && x !in mapping.Values && !Ignored(Normalize(entries), x, matches)
    {
      PickMember(origin + add, Elements(origin + add) - Elements(remove), x);
    }
    forall x | x in u
      ensures x in pending * rest
         <==> x !in origin && x !in mapping.Values && !Ignored(Normalize(c.ignored), x, matches) && x !in add && x !in ignore
    {
    }
  }

  /** Membership in the pending lists of a current state. */
  lemma PendingMembers(c: State, upstream: seq<string>, mapping: map<string, string>, matches: Matcher)
    requires Current(c, upstream, mapping, matches)
    ensures
      var origin, u := Normalize(ModelList(c.models)), Normalize(upstream);
      && Clean(c.detected) && Clean(c.removed)
      && (forall x :: x in c.detected <==> x in Addable(origin, u, Normalize(c.ignored), mapping, matches))
      && (forall x :: x in c.removed <==> x in Removable(origin, u, mapping))
  {
    hide Normalize, Pick, Detect, ModelList, Clean, Ignored;
    var origin, u := Normalize(ModelList(c.models)), Normalize(upstream);
    DetectShape(ModelList(c.models), upstream, c.ignored, mapping, matches);
    forall x ensures x in c.detected <==> x in Addable(origin, u, Normalize(c.ignored), mapping, matches) {
      PickMember(u, Addable(origin, u, Normalize(c.ignored), mapping, matches), x);
    }
    forall x ensures x in c.removed <==> x in Removable(origin, u, mapping) {
      PickMember(origin, Removable(origin, u, mapping), x);
    }
  }

  /** An entry that starts with "regex:" hides what the rest of it, trimmed, matches; any other entry hides
      the name it is. */
  ghost predicate Hidden(entries: seq<string>, x: string, matches: Matcher) {
    exists e :: e in entries && if |e| >= 6 && e[..6] == "regex:" then matches(TrimSpace(e[6..]), x) else e == x
  }

  /** Exactly what detection reports: to add, in the provider's order, the offered names that are neither
      configured, nor the target of a redirect, nor hidden by an ignore entry; to remove, in the
      configured order, the configured names that are neither the source of a redirect nor offered. */
  lemma DetectIsExact(local: seq<string>, upstream: seq<string>, ignored: seq<string>, mapping: map<string, string>, matches: Matcher,
                      x: string)
    ensures
      var d := Detect(local, upstream, ignored, mapping, matches);
      && (x in d.add <==> && x in Normalize(upstream) && x !in Normalize(local) && !(exists k :: k in mapping && mapping[k] == x)
                          && !Hidden(Normalize(ignored), x, matches))
      && (x in d.remove <==> x in Normalize(local) && x !in mapping && x !in Normalize(upstream))
      && d.add == Pick(Normalize(upstream), Elements(d.add)) && d.remove == Pick(Normalize(local), Elements(d.remove))
  {
    hide Normalize, Pick, Detect, Clean, TrimSpace, Ignored;
    var l, u := Normalize(local), Normalize(upstream);
    var add, remove := Addable(l, u, Normalize(ignored), mapping, matches), Removable(l, u, mapping);
    DetectShape(local, upstream, ignored, mapping, matches);
    var d := Detect(local, upstream, ignored, mapping, matches);
    HiddenIsIgnored(Normalize(ignored), x, matches);
    PickMember(u, add, x);
    PickMember(l, remove, x);
    forall y ensures y in d.add <==> y in u && y in add { PickMember(u, add, y); }
    forall y ensures y in d.remove <==> y in l && y in remove { PickMember(l, remove, y); }
    PickAgree(u, add, Elements(d.add));
    PickAgree(l, remove, Elements(d.remove));
  }

  lemma HiddenIsIgnored(entries: seq<string>, x: string, matches: Matcher)
    ensures Hidden(entries, x, matches) <==> Ignored(entries, x, matches)
  {
    hide TrimSpace;
    assert |RULE| == 6;
    forall e ensures Ignores(e, x, matches) <==> if |e| >= 6 && e[..6] == "regex:" then matches(TrimSpace(e[6..]), x) else e == x {
    }
    if Ignored(entries, x, matches) {
      var i :| 0 <= i < |entries| && Ignores(entries[i], x, matches);
      assert entries[i] in entries;
    }
    if Hidden(entries, x, matches) {
      var e :| e in entries && if |e| >= 6 && e[..6] == "regex:" then matches(TrimSpace(e[6..]), x) else e == x;
      var i :| 0 <= i < |entries| && entries[i] == e;
    }
  }

  lemma RemoveSide(c: State, add: seq<string>, remove: seq<string>, models: string, entries: seq<string>,
                   upstream: seq<string>, mapping: map<string, string>, matches: Matcher)
    requires Current(c, upstream, mapping, matches)
    requires forall x :: x in add ==> x in c.detected
    requires
      var origin := Normalize(ModelList(c.models));
      Normalize(ModelList(models)) == Pick(origin + add, Elements(origin + add) - Elements(remove))
    ensures Detect(ModelList(models), upstream, entries, mapping, matches).remove == Pick(c.removed, Elements(c.removed) - Elements(remove))
  {
    hide Normalize, Pick, Detect, ModelList, Clean, Ignored;
    var origin, u := Normalize(ModelList(c.models)), Normalize(upstream);
    DetectShape(ModelList(c.models), upstream, c.ignored, mapping, matches);
    DetectShape(ModelList(models), upstream, entries, mapping, matches);
    PendingMembers(c, upstream, mapping, matches);
    var next := Normalize(ModelList(models));
    var stays := Elements(origin + add) - Elements(remove);
    var again, before := Removable(next, u, mapping), Removable(origin, u, mapping);
    forall x ensures x in next <==> (x in origin || x in add) && x !in remove {
      PickMember(origin + add, stays, x);
    }
    PickTwice(origin + add, stays, again);
    PickConcat(origin, add, stays * again);
    PickNone(add, stays * again);
    PickTwice(origin, before, Elements(c.removed) - Elements(remove));
    PickAgree(origin, stays * again, before * (Elements(c.removed) - Elements(remove)));
  }

  /** When no added name contains a comma, detecting again after a selection reports exactly the lists that
      apply left pending iff the ignore entries that stay agree with the selection. */
  lemma CommaFreeApplyCommutes(c: State, upstream: seq<string>, mapping: map<string, string>, matches: Matcher,
                                add: seq<string>, ignore: seq<string>, remove: seq<string>)
    requires Current(c, upstream, mapping, matches)
    requires forall x :: x in Chosen(c, add, ignore, remove).add ==> ',' !in x
    ensures
      var ch := Chosen(c, add, ignore, remove);
      Current(Applied(c, ch), upstream, mapping, matches)
      <==> EntriesAgree(c, ch.add, ch.ignore, Kept(c, ch), upstream, mapping, matches)
  {
    hide Normalize, Pick, Detect, ModelList, Clean, Applied, Chosen, EntriesAgree, Ignored;
    var ch := Chosen(c, add, ignore, remove);
    PendingMembers(c, upstream, mapping, matches);
    ChosenShape(c, add, ignore, remove);
    NextModels(c, ch);
    KeptEntries(c, ch);
    RemainingShape(c, ch);
    var c' := Applied(c, ch);
    AddSide(c, ch.add, ch.ignore, ch.remove, c'.models, c'.ignored, upstream, mapping, matches);
    RemoveSide(c, ch.add, ch.remove, c'.models, c'.ignored, upstream, mapping, matches);
  }

  /** No name being ignored reads as an expression, and no name being added is itself an ignore
      expression. */
  predicate PlainChoice(c: State, ch: Choice) {
    && (forall x :: x in ch.ignore ==> !IsRule(x) || x in ch.add)
    && (forall x :: x in ch.add ==> !IsRule(x) || x !in Normalize(c.ignored))
  }

  lemma KeptMember(c: State, ch: Choice, x: string)
    requires Clean(ch.ignore)
    ensures x in Kept(c, ch) <==> (x in Normalize(c.ignored) || x in ch.ignore) && x !in ch.add
  {
    hide Normalize, Pick, Clean;
    var ignored := Normalize(c.ignored + ch.ignore);
    NormalizeAppend(c.ignored, ch.ignore, x);
    NormalizeOfClean(ch.ignore);
    PickMember(ignored, Elements(ignored) - Elements(ch.add), x);
  }

  lemma PlainChoiceAgrees(c: State, ch: Choice, upstream: seq<string>, mapping: map<string, string>, matches: Matcher)
    requires PlainChoice(c, ch) && Clean(ch.ignore)
    ensures EntriesAgree(c, ch.add, ch.ignore, Kept(c, ch), upstream, mapping, matches)
  {
    hide Normalize, Kept, Clean, ModelList;
    forall u | u !in ch.add
      ensures Ignored(Kept(c, ch), u, matches) <==> Ignored(Normalize(c.ignored), u, matches) || u in ch.ignore
    {
      PlainEntry(c, ch, u, matches);
    }
  }

  lemma PlainEntry(c: State, ch: Choice, u: string, matches: Matcher)
    requires PlainChoice(c, ch) && Clean(ch.ignore) && u !in ch.add
    ensures Ignored(Kept(c, ch), u, matches) <==> Ignored(Normalize(c.ignored), u, matches) || u in ch.ignore
  {
    hide Normalize, Kept, Clean, TrimSpace, IsRule;
    var kept, before := Kept(c, ch), Normalize(c.ignored);
    if Ignored(kept, u, matches) {
      var i :| 0 <= i < |kept| && Ignores(kept[i], u, matches);
      KeptMember(c, ch, kept[i]);
      if kept[i] in before {
        var j :| 0 <= j < |before| && before[j] == kept[i];
        assert Ignores(before[j], u, matches);
      }
    }
    if u in ch.ignore {
      KeptMember(c, ch, u);
      var i :| 0 <= i < |kept| && kept[i] == u;
      assert Ignores(kept[i], u, matches);
    } else if Ignored(before, u, matches) {
      var j :| 0 <= j < |before| && Ignores(before[j], u, matches);
      KeptMember(c, ch, before[j]);
      var i :| 0 <= i < |kept| && kept[i] == before[j];
      assert Ignores(kept[i], u, matches);
    }
  }

  /** A chosen addition that contains a comma is detected again iff no ignore entry that stays hides it. */
  lemma CommaNameReturnsIff(c: State, ch: Choice, upstream: seq<string>, mapping: map<string, string>, matches: Matcher, x: string)
    requires Current(c, upstream, mapping, matches) && Clean(ch.add)
    requires x in ch.add && x in c.detected && ',' in x
    ensures
      var c' := Applied(c, ch);
      x in Detect(ModelList(c'.models), upstream, c'.ignored, mapping, matches).add <==> !Ignored(Kept(c, ch), x, matches)
  {
    hide Normalize, Pick, Detect, ModelList, Clean, Applied, Kept, Ignored;
    var c' := Applied(c, ch);
    var next, u, kept := Normalize(ModelList(c'.models)), Normalize(upstream), Kept(c, ch);
    DetectShape(ModelList(c'.models), upstream, c'.ignored, mapping, matches);
    PendingMembers(c, upstream, mapping, matches);
    KeptEntries(c, ch);
    if x in next { ModelListCommaFree(c'.models, x); }
    PickMember(u, Addable(next, u, kept, mapping, matches), x);
  }

  /** So applying does not commute with detecting when such a name is not hidden. */
  lemma CommaIsDetectedAgain(c: State, ch: Choice, upstream: seq<string>, mapping: map<string, string>, matches: Matcher, x: string)
    requires Current(c, upstream, mapping, matches)
    requires Clean(ch.add) && Clean(ch.ignore) && Clean(ch.remove)
    requires x in ch.add && x in c.detected && ',' in x && !Ignored(Kept(c, ch), x, matches)
    ensures !Current(Applied(c, ch), upstream, mapping, matches)
  {
    hide Normalize, Pick, Detect, ModelList, Clean, Applied, Kept, Ignored;
    PendingMembers(c, upstream, mapping, matches);
    CommaNameReturnsIff(c, ch, upstream, mapping, matches, x);
    RemainingShape(c, ch);
    PickMember(c.detected, Elements(c.detected) - Elements(ch.add) - Elements(ch.ignore), x);
  }

  /** Plain choices hide no name that they add. */
  lemma PlainAddIsNotHidden(c: State, ch: Choice, upstream: seq<string>, mapping: map<string, string>, matches: Matcher, x: string)
    requires Current(c, upstream, mapping, matches) && PlainChoice(c, ch) && Clean(ch.ignore)
    requires x in ch.add && x in c.detected
    ensures !Ignored(Kept(c, ch), x, matches)
  {
    hide Normalize, Pick, Detect, ModelList, Clean, Kept, TrimSpace, IsRule;
    var kept := Kept(c, ch);
    PendingMembers(c, upstream, mapping, matches);
    if Ignored(kept, x, matches) {
      var i :| 0 <= i < |kept| && Ignores(kept[i], x, matches);
      KeptMember(c, ch, kept[i]);
      assert false;
    }
  }

  /** For every plain selection, applying commutes with detecting iff no added name contains a comma. */
  lemma PlainApplyCommutes(c: State, upstream: seq<string>, mapping: map<string, string>, matches: Matcher,
                           add: seq<string>, ignore: seq<string>, remove: seq<string>)
    requires Current(c, upstream, mapping, matches)
    requires PlainChoice(c, Chosen(c, add, ignore, remove))
    ensures
      var ch := Chosen(c, add, ignore, remove);
      Current(Applied(c, ch), upstream, mapping, matches) <==> forall x :: x in ch.add ==> ',' !in x
  {
    hide Normalize, Pick, Detect, ModelList, Clean, Applied, Chosen, EntriesAgree, PlainChoice, Current;
    var ch := Chosen(c, add, ignore, remove);
    PendingMembers(c, upstream, mapping, matches);
    ChosenShape(c, add, ignore, remove);
    if forall x :: x in ch.add ==> ',' !in x {
      PlainChoiceAgrees(c, ch, upstream, mapping, matches);
      CommaFreeApplyCommutes(c, upstream, mapping, matches, add, ignore, remove);
    } else {
      var x :| x in ch.add && ',' in x;
      PlainAddIsNotHidden(c, ch, upstream, mapping, matches, x);
      CommaIsDetectedAgain(c, ch, upstream, mapping, matches, x);
    }
  }

  /** Selecting everything that is pending leaves nothing pending. */
  lemma SelectingEverything(c: State, upstream: seq<string>, mapping: map<string, string>, matches: Matcher,
                            add: seq<string>, ignore: seq<string>, remove: seq<string>)
    requires Current(c, upstream, mapping, matches)
    requires forall x :: x in c.detected ==> x in add || x in ignore
    requires forall x :: x in c.removed ==> x in remove
    ensures
      var c' := Applied(c, Chosen(c, add, ignore, remove));
      c'.detected == [] && c'.removed == []
  {
    hide Normalize, Pick, Detect, ModelList, Applied, Current, Intersect, Subtract, TrimSpace;
    var ch := Chosen(c, add, ignore, remove);
    PendingMembers(c, upstream, mapping, matches);
    ChosenShape(c, add, ignore, remove);
    RemainingShape(c, ch);
    NormalizeOfClean(c.detected);
    NormalizeOfClean(c.removed);
    NormalizeOfClean(ch.add);
    forall x | x in c.detected ensures x in ch.add || x in ch.ignore {
      NormalizeMember(add, x);
      NormalizeMember(ignore, x);
      IntersectMember(add, c.detected, x);
      IntersectMember(ignore, c.detected, x);
    }
    forall x | x in c.removed ensures x in ch.remove {
      var rem := Intersect(remove, c.removed);
      NormalizeMember(remove, x);
      IntersectMember(remove, c.removed, x);
      NormalizeOfClean(rem);
      SubtractMember(rem, ch.add, x);
    }
    PickNone(c.detected, Elements(c.detected) - Elements(ch.add) - Elements(ch.ignore));
    PickNone(c.removed, Elements(c.removed) - Elements(ch.remove));
  }

  /** After selecting everything by a plain choice, detecting again reports nothing iff no added name
      contains a comma: a fixed point in one step. */
  lemma SelectingEverythingSettles(c: State, upstream: seq<string>, mapping: map<string, string>, matches: Matcher,
                                   add: seq<string>, ignore: seq<string>, remove: seq<string>)
    requires Current(c, upstream, mapping, matches) && PlainChoice(c, Chosen(c, add, ignore, remove))
    requires forall x :: x in c.detected ==> x in add || x in ignore
    requires forall x :: x in c.removed ==> x in remove
    ensures
      var ch := Chosen(c, add, ignore, remove);
      var c' := Applied(c, ch);
      Detect(ModelList(c'.models), upstream, c'.ignored, mapping, matches) == Pending([], []) <==> forall x :: x in ch.add ==> ',' !in x
  {
    hide Normalize, Detect, ModelList, Applied, Chosen, PlainChoice;
    SelectingEverything(c, upstream, mapping, matches, add, ignore, remove);
    PlainApplyCommutes(c, upstream, mapping, matches, add, ignore, remove);
  }

  // ---------------------------------------------------------------------------
  // The same for every selection: names with commas fall apart into parts
  // ---------------------------------------------------------------------------

  /** What a list of names reads back as, part by part. */
  function Parts(names: seq<string>): seq<string> {
    if names == [] then [] else Split(names[0], ',') + Parts(names[1..])
  }

  lemma {:induction false} SplitOfJoin(names: seq<string>)
    requires names != []
    ensures Split(Join(names, ','), ',') == Parts(names)
  {
    hide Split;
    if |names| == 1 {
      assert Parts(names[1..]) == [];
    } else {
      SplitOfJoin(names[1..]);
      SplitConcat(names[0], Join(names[1..], ','), ',');
    }
  }

  lemma {:induction false} PartsConcat(a: seq<string>, b: seq<string>)
    ensures Parts(a + b) == Parts(a) + Parts(b)
  {
    hide Split;
    if a == [] {
      assert a + b == b;
    } else {
      assert (a + b)[1..] == a[1..] + b;
      PartsConcat(a[1..], b);
    }
  }

  lemma {:induction false} PartsOfPlain(a: seq<string>)
    requires forall i :: 0 <= i < |a| ==> ',' !in a[i]
    ensures Parts(a) == a
  {
    hide Split;
    if a != [] {
      SplitWhole(a[0], ',');
      PartsOfPlain(a[1..]);
    }
  }

  lemma BlankTrims()
    ensures TrimSpace("") == ""
  {
  }

  lemma {:induction false} BlankFront(s: seq<string>)
    ensures Normalize([""] + s) == Normalize(s)
  {
    hide TrimSpace;
    var t := [""] + s;
    if s == [] {
      assert t[..0] == [];
      BlankTrims();
    } else {
      assert t[..|t| - 1] == [""] + s[..|s| - 1] && t[|t| - 1] == s[|s| - 1];
      BlankFront(s[..|s| - 1]);
    }
  }

  lemma BlankBack(s: seq<string>)
    ensures Normalize(s + [""]) == Normalize(s)
  {
    hide TrimSpace;
    assert (s + [""])[..|s + [""]| - 1] == s;
    BlankTrims();
  }

  lemma {:induction false} TrimLeftParts(s: string)
    ensures Normalize(Split(TrimLeft(s, Cut(',')), ',')) == Normalize(Split(s, ','))
  {
    hide Normalize;
    if s != "" && s[0] == ',' {
      TrimLeftParts(s[1..]);
      BlankFront(Split(s[1..], ','));
    }
  }

  lemma {:induction false} TrimRightParts(s: string)
    ensures Normalize(Split(TrimRight(s, Cut(',')), ',')) == Normalize(Split(s, ','))
  {
    hide Normalize;
    if s != "" && s[|s| - 1] == ',' {
      var front := s[..|s| - 1];
      TrimRightParts(front);
      assert s == front + [','] + "";
      SplitConcat(front, "", ',');
      BlankBack(Split(front, ','));
    }
  }

  /** A stored list reads back as the parts of its names. */
  lemma StoredNamesReadBack(names: seq<string>)
    requires forall i :: 0 <= i < |names| ==> names[i] != ""
    ensures Normalize(ModelList(Join(names, ','))) == Normalize(Parts(names))
  {
    hide Normalize, Split, TrimLeft, TrimRight;
    if names == [] {
      EmptyJoin();
    } else {
      var text := Join(names, ',');
      JoinEnds(names, ',');
      TrimLeftParts(text);
      TrimRightParts(TrimLeft(text, Cut(',')));
      SplitOfJoin(names);
    }
  }

  /** What stays of the old list. */
  function Staying(c: State, ch: Choice): seq<string> {
    var origin := Normalize(ModelList(c.models));
    Pick(origin, Elements(origin) - Elements(ch.remove))
  }

  lemma NextParts(c: State, ch: Choice)
    requires Clean(ch.add) && Clean(ch.remove)
    requires forall x :: x in ch.add ==> x !in Normalize(ModelList(c.models)) && x !in ch.remove
    ensures Normalize(ModelList(Applied(c, ch).models)) == Normalize(Staying(c, ch) + Parts(ch.add))
    ensures Clean(Staying(c, ch))
  {
    hide Normalize, Pick, ModelList, Join, ApplySelected, Parts, Split, TrimSpace;
    var origin, stay := Normalize(ModelList(c.models)), Staying(c, ch);
    NormalizeIsClean(ModelList(c.models));
    PickClean(origin, Elements(origin) - Elements(ch.remove));
    ApplySelectedShape(origin, ch.add, ch.remove);
    var next, stays := ApplySelected(origin, ch.add, ch.remove), Elements(origin + ch.add) - Elements(ch.remove);
    PickConcat(origin, ch.add, stays);
    PickAll(ch.add, stays);
    PickAgree(origin, stays, Elements(origin) - Elements(ch.remove));
    assert next == stay + ch.add;
    if origin == next {
      assert forall x :: x in ch.add ==> x in next;
      NoMembers(ch.add);
      assert Parts([]) == [] by { NoParts(); }
      assert stay + [] == stay == origin;
      NormalizeOfClean(origin);
    } else {
      forall i | 0 <= i < |stay| ensures ',' !in stay[i] {
        PickMember(origin, Elements(origin) - Elements(ch.remove), stay[i]);
        ModelListCommaFree(c.models, stay[i]);
      }
      StoredNamesReadBack(next);
      PartsConcat(stay, ch.add);
      PartsOfPlain(stay);
    }
  }

  lemma NoMembers(s: seq<string>)
    requires forall x :: x !in s
    ensures s == []
  {
    if s != [] { HasHead(s); }
  }

  lemma HasHead(s: seq<string>)
    requires s != []
    ensures s[0] in s
  {
  }

  lemma NoParts()
    ensures Parts([]) == []
  {
  }

  /** Normalizing a clean list with more behind it keeps the list and adds what is new. */
  lemma {:induction false} NormalizePrefix(a: seq<string>, b: seq<string>)
    requires Clean(a)
    ensures Normalize(a + b) == a + Pick(Normalize(b), Elements(Normalize(b)) - Elements(a))
  {
    hide TrimSpace, Clean, Pick;
    if b == [] {
      assert a + b == a;
      NormalizeOfClean(a);
      PickNone([], Elements([]) - Elements(a));
    } else {
      var front, name := b[..|b| - 1], TrimSpace(b[|b| - 1]);
      var n, m := Normalize(front), Normalize(b);
      assert (a + b)[..|a + b| - 1] == a + front;
      NormalizePrefix(a, front);
      NormalizeAppend(a, front, name);
      NormalizeOfClean(a);
      if name != "" && name !in n {
        PickConcat(n, [name], Elements(m) - Elements(a));
        PickAgree(n, Elements(m) - Elements(a), Elements(n) - Elements(a));
        if name in a {
          PickNone([name], Elements(m) - Elements(a));
        } else {
          PickAll([name], Elements(m) - Elements(a));
        }
      }
    }
  }

  /** The parts of the added names, and the ignore entries that stay, agree with the selection: a part
      that is new is a redirect or offered by the provider, and of the names the provider offers that
      are unconfigured and no redirect's target, the parts and the entries cover exactly those that
      were hidden before or are chosen now. */
  ghost predicate PartsAgree(c: State, ch: Choice, upstream: seq<string>, mapping: map<string, string>, matches: Matcher) {
    var origin, u, parts := Normalize(ModelList(c.models)), Normalize(upstream), Normalize(Parts(ch.add));
    && (forall e :: e in parts && !(e in origin && e !in ch.remove) ==> e in mapping || e in u)
    && (forall x :: x in u && x !in origin && x !in mapping.Values ==>
          (x in parts || Ignored(Kept(c, ch), x, matches) <==>
           Ignored(Normalize(c.ignored), x, matches) || x in ch.add || x in ch.ignore))
  }

  lemma PartsOnAddSide(c: State, ch: Choice, upstream: seq<string>, mapping: map<string, string>, matches: Matcher)
    requires Current(c, upstream, mapping, matches)
    requires Clean(ch.add) && Clean(ch.ignore) && Clean(ch.remove)
    requires forall x :: x in ch.add ==> x in c.detected && x !in ch.remove
    requires forall x :: x in ch.remove ==> x in c.removed
    ensures
      var c', origin, u, parts := Applied(c, ch), Normalize(ModelList(c.models)), Normalize(upstream), Normalize(Parts(ch.add));
      Detect(ModelList(c'.models), upstream, c'.ignored, mapping, matches).add == c'.detected <==>
      forall x :: x in u && x !in origin && x !in mapping.Values ==>
        (x in parts || Ignored(Kept(c, ch), x, matches) <==>
         Ignored(Normalize(c.ignored), x, matches) || x in ch.add || x in ch.ignore)
  {
    hide Normalize, Pick, Detect, ModelList, Clean, Applied, Ignored, Kept, Parts, Staying;
    var c', origin, u, parts := Applied(c, ch), Normalize(ModelList(c.models)), Normalize(upstream), Normalize(Parts(ch.add));
    DetectShape(ModelList(c.models), upstream, c.ignored, mapping, matches);
    DetectShape(ModelList(c'.models), upstream, c'.ignored, mapping, matches);
    PendingMembers(c, upstream, mapping, matches);
    NextParts(c, ch);
    KeptEntries(c, ch);
    RemainingShape(c, ch);
    var next := Normalize(ModelList(c'.models));
    var pending := Addable(origin, u, Normalize(c.ignored), mapping, matches);
    var again := Addable(next, u, Kept(c, ch), mapping, matches);
    var rest := Elements(c.detected) - Elements(ch.add) - Elements(ch.ignore);
    PickTwice(u, pending, rest);
    PickEqual(u, again, pending * rest);
    forall x | x in u
      ensures x in again <==> x !in origin && x !in parts && x !in mapping.Values && !Ignored(Kept(c, ch), x, matches)
    {
      NormalizeAppend(Staying(c, ch), Parts(ch.add), x);
      NormalizeOfClean(Staying(c, ch));
      StayingMember(c, ch, x);
    }
    forall x | x in u
      ensures x in pending * rest
         <==> x !in origin && x !in mapping.Values && !Ignored(Normalize(c.ignored), x, matches) && x !in ch.add && x !in ch.ignore
    {
    }
  }

  lemma StayingMember(c: State, ch: Choice, x: string)
    ensures x in Staying(c, ch) <==> x in Normalize(ModelList(c.models)) && x !in ch.remove
  {
    hide Normalize, Pick, ModelList;
    var origin := Normalize(ModelList(c.models));
    PickMember(origin, Elements(origin) - Elements(ch.remove), x);
  }

  lemma PartsOnRemoveSide(c: State, ch: Choice, upstream: seq<string>, mapping: map<string, string>, matches: Matcher)
    requires Current(c, upstream, mapping, matches)
    requires Clean(ch.add) && Clean(ch.ignore) && Clean(ch.remove)
    requires forall x :: x in ch.add ==> x in c.detected && x !in ch.remove
    ensures
      var c', origin, u, parts := Applied(c, ch), Normalize(ModelList(c.models)), Normalize(upstream), Normalize(Parts(ch.add));
      Detect(ModelList(c'.models), upstream, c'.ignored, mapping, matches).remove == c'.removed <==>
      forall e :: e in parts && !(e in origin && e !in ch.remove) ==> e in mapping || e in u
  {
    hide Normalize, Pick, Detect, ModelList, Clean, Applied, Ignored, Kept, Parts, Staying;
    var c', origin, u, parts := Applied(c, ch), Normalize(ModelList(c.models)), Normalize(upstream), Normalize(Parts(ch.add));
    DetectShape(ModelList(c.models), upstream, c.ignored, mapping, matches);
    DetectShape(ModelList(c'.models), upstream, c'.ignored, mapping, matches);
    PendingMembers(c, upstream, mapping, matches);
    NextParts(c, ch);
    RemainingShape(c, ch);
    var next, stay := Normalize(ModelList(c'.models)), Staying(c, ch);
    var again, before := Removable(next, u, mapping), Removable(origin, u, mapping);
    NormalizePrefix(stay, Parts(ch.add));
    var more := Pick(parts, Elements(parts) - Elements(stay));
    assert next == stay + more;
    PickConcat(stay, more, again);
    StayingRemovable(c, ch, again, before, u, mapping, next);
    forall x ensures x in Pick(more, again) <==> x in parts && x !in stay && x !in mapping && x !in u {
      PickMember(more, again, x);
      PickMember(parts, Elements(parts) - Elements(stay), x);
    }
    forall x ensures x in stay <==> x in origin && x !in ch.remove { StayingMember(c, ch, x); }
    var left := Pick(more, again);
    if left == [] {
      assert forall x :: x !in left;
    } else {
      assert left[0] in left;
    }
  }

  /** Of the names that stay, the same ones are removable before and after. */
  lemma StayingRemovable(c: State, ch: Choice, again: set<string>, before: set<string>, u: seq<string>, mapping: map<string, string>, next: seq<string>)
    requires
      var origin := Normalize(ModelList(c.models));
      before == Removable(origin, u, mapping) && again == Removable(next, u, mapping)
    requires forall x :: x in Staying(c, ch) ==> x in next
    requires c.removed == Pick(Normalize(ModelList(c.models)), Removable(Normalize(ModelList(c.models)), u, mapping))
    ensures Pick(Staying(c, ch), again) == Pick(c.removed, Elements(c.removed) - Elements(ch.remove))
  {
    hide Normalize, Pick, ModelList;
    var origin := Normalize(ModelList(c.models));
    forall x ensures x in Staying(c, ch) <==> x in origin && x !in ch.remove { StayingMember(c, ch, x); }
    forall x ensures x in c.removed <==> x in origin && x in before { PickMember(origin, before, x); }
    PickTwice(origin, Elements(origin) - Elements(ch.remove), again);
    PickTwice(origin, before, Elements(c.removed) - Elements(ch.remove));
    PickAgree(origin, (Elements(origin) - Elements(ch.remove)) * again, before * (Elements(c.removed) - Elements(ch.remove)));
  }

  /** Detecting again after any selection whatever reports exactly the lists that apply left pending, in the
      same order, iff the parts of the added names and the ignore entries that stay agree with it. */
  lemma ApplyCommutesWithDetect(c: State, upstream: seq<string>, mapping: map<string, string>, matches: Matcher,
                                add: seq<string>, ignore: seq<string>, remove: seq<string>)
    requires Current(c, upstream, mapping, matches)
    ensures
      var ch := Chosen(c, add, ignore, remove);
      Current(Applied(c, ch), upstream, mapping, matches) <==> PartsAgree(c, ch, upstream, mapping, matches)
  {
    hide Normalize, Pick, Detect, ModelList, Clean, Applied, Chosen, Ignored, Kept, Parts;
    var ch := Chosen(c, add, ignore, remove);
    PendingMembers(c, upstream, mapping, matches);
    ChosenShape(c, add, ignore, remove);
    PartsOnAddSide(c, ch, upstream, mapping, matches);
    PartsOnRemoveSide(c, ch, upstream, mapping, matches);
  }

  // ---------------------------------------------------------------------------
  // Checking with automatic syncing
  // ---------------------------------------------------------------------------

  /** Pending additions are new, so merging them appends all of them. */
  lemma MergedPending(models: string, upstream: seq<string>, ignored: seq<string>, mapping: map<string, string>, matches: Matcher)
    ensures
      var d := Detect(ModelList(models), upstream, ignored, mapping, matches);
      var origin := Normalize(ModelList(models));
      Clean(origin + d.add) && Normalize(origin + d.add) == origin + d.add
  {
    hide Normalize, Pick, ModelList, Detect, Clean, Ignored;
    var d := Detect(ModelList(models), upstream, ignored, mapping, matches);
    var origin := Normalize(ModelList(models));
    var c := State(models, ignored, d.add, d.remove);
    PendingMembers(c, upstream, mapping, matches);
    NormalizeIsClean(ModelList(models));
    CleanAppend(origin, d.add);
    NormalizeOfClean(origin + d.add);
  }

  /** After a check the stored lists are what detection reports, iff nothing that was added
      automatically contains a comma; a second check then changes nothing. */
  lemma CheckSettles(c: State, upstream: seq<string>, mapping: map<string, string>, matches: Matcher, autoApply: bool)
    ensures
      var d := Detect(ModelList(c.models), upstream, c.ignored, mapping, matches);
      var c' := Checked(c, upstream, mapping, matches, autoApply);
      && (Current(c', upstream, mapping, matches) <==> (autoApply ==> forall x :: x in d.add ==> ',' !in x))
      && (Current(c', upstream, mapping, matches) ==> Checked(c', upstream, mapping, matches, autoApply) == c')
  {
    hide Normalize, Pick, ModelList, Detect, Clean, Ignored, Join;
    var d := Detect(ModelList(c.models), upstream, c.ignored, mapping, matches);
    if autoApply && |d.add| > 0 {
      var origin := Normalize(ModelList(c.models));
      var before := State(c.models, c.ignored, d.add, d.remove);
      var after := State(Join(origin + d.add, ','), c.ignored, [], d.remove);
      MergedPending(c.models, upstream, c.ignored, mapping, matches);
      if forall x :: x in d.add ==> ',' !in x {
        AutoApplied(before, upstream, mapping, matches);
      } else {
        var x :| x in d.add && ',' in x;
        AutoCommaReturns(before, after.models, upstream, mapping, matches, x);
      }
    }
  }

  lemma AutoApplied(c: State, upstream: seq<string>, mapping: map<string, string>, matches: Matcher)
    requires Current(c, upstream, mapping, matches)
    requires forall x :: x in c.detected ==> ',' !in x
    ensures
      var models := Join(Normalize(ModelList(c.models)) + c.detected, ',');
      Detect(ModelList(models), upstream, c.ignored, mapping, matches) == Pending([], c.removed)
  {
    hide Normalize, Pick, ModelList, Detect, Clean, Ignored, Join;
    var origin := Normalize(ModelList(c.models));
    var all := origin + c.detected;
    var models := Join(all, ',');
    MergedPending(c.models, upstream, c.ignored, mapping, matches);
    forall i | 0 <= i < |all| ensures ',' !in all[i] {
      if i < |origin| { ModelListCommaFree(c.models, all[i]); }
    }
    ModelListRoundTrip(all);
    PickAll(all, Elements(all) - Elements([]));
    AddSide(c, c.detected, [], [], models, c.ignored, upstream, mapping, matches);
    PendingMembers(c, upstream, mapping, matches);
    RemoveSide(c, c.detected, [], models, c.ignored, upstream, mapping, matches);
    PickNone(c.detected, Elements(c.detected) - Elements(c.detected) - Elements([]));
    PickAll(c.removed, Elements(c.removed) - Elements([]));
  }

  lemma AutoCommaReturns(c: State, models: string, upstream: seq<string>, mapping: map<string, string>, matches: Matcher, x: string)
    requires Current(c, upstream, mapping, matches) && x in c.detected && ',' in x
    ensures x in Detect(ModelList(models), upstream, c.ignored, mapping, matches).add
  {
    hide Normalize, Pick, ModelList, Detect, Clean, Ignored;
    var next, u := Normalize(ModelList(models)), Normalize(upstream);
    PendingMembers(c, upstream, mapping, matches);
    DetectShape(ModelList(models), upstream, c.ignored, mapping, matches);
    if x in next { ModelListCommaFree(models, x); }
    PickMember(u, Addable(next, u, Normalize(c.ignored), mapping, matches), x);
  }

  // ---------------------------------------------------------------------------
  // Inputs on which applying does not commute with detecting
  // ---------------------------------------------------------------------------

  lemma OneName(x: string)
    requires x != "" && !IsSpace(x[0]) && !IsSpace(x[|x| - 1])
    ensures Clean([x]) && Normalize([x]) == [x] && Normalize([]) == []
  {
    TrimIsTight(x, IsSpace);
    NormalizeOfClean([x]);
  }

  /** A provider model whose name is written like an ignore expression: ignoring it stores an
      expression, which need not match the name. */
  lemma IgnoringAnExpressionName()
    ensures
      var name := "regex:x";
      var never: Matcher := (_, _) => false;
      var c := State("", [], [name], []);
      && Current(c, [name], map[], never)
      && !Current(Applied(c, Chosen(c, [], [name], [])), [name], map[], never)
  {
    hide Normalize, Pick, Clean, Applied, Chosen, Detect, Kept, EntriesAgree, Current;
    var name := "regex:x";
    var never: Matcher := (_, _) => false;
    var c := State("", [], [name], []);
    OneName(name);
    SingleCurrent(name, never);
    var ch := Chosen(c, [], [name], []);
    assert ch == Choice([], [name], []) by { SingleChoice(name, false); }
    NeverHidden(c, name, never);
    CommaFreeApplyCommutes(c, [name], map[], never, [], [name], []);
  }

  /** A provider model whose name contains a comma: adding it configures its two halves. */
  lemma AddingACommaName()
    ensures
      var name := "a,b";
      var never: Matcher := (_, _) => false;
      var c := State("", [], [name], []);
      && Current(c, [name], map[], never)
      && !Current(Applied(c, Chosen(c, [name], [], [])), [name], map[], never)
  {
    var name := "a,b";
    var never: Matcher := (_, _) => false;
    var c := State("", [], [name], []);
    OneName(name);
    SingleCurrent(name, never);
    var ch := Chosen(c, [name], [], []);
    assert ch == Choice([name], [], []) by { SingleChoice(name, true); }
    assert PlainChoice(c, ch);
    PlainApplyCommutes(c, [name], map[], never, [name], [], []);
    assert name in ch.add && name[1] == ',';
  }

  lemma SingleCurrent(name: string, never: Matcher)
    requires Clean([name]) && Normalize([name]) == [name] && Normalize([]) == []
    requires forall a, b :: !never(a, b)
    ensures Current(State("", [], [name], []), [name], map[], never)
  {
    hide Normalize, Pick, Clean;
    var keep := Addable([], [name], [], map[], never);
    assert ModelList("") == [];
    assert name in keep;
    PickAll([name], keep);
    PickNone([], Removable([], [name], map[]));
  }

  lemma SingleChoice(name: string, adding: bool)
    requires Clean([name]) && Normalize([name]) == [name] && Normalize([]) == []
    ensures
      var c := State("", [], [name], []);
      Chosen(c, if adding then [name] else [], if adding then [] else [name], []) ==
      if adding then Choice([name], [], []) else Choice([], [name], [])
  {
    hide Normalize, Pick, Clean;
    PickAll([name], Elements([name]));
    PickNone([], Elements([name]));
    PickNone([], Elements([]));
    PickNone([], Elements([]) - Elements([name]));
    PickNone([], Elements([]) - Elements([]));
  }

  lemma NeverHidden(c: State, name: string, never: Matcher)
    requires Normalize([name]) == [name] && Normalize([]) == [] && IsRule(name) && c == State("", [], [name], [])
    requires forall a, b :: !never(a, b)
    ensures !EntriesAgree(c, [], [name], Kept(c, Choice([], [name], [])), [name], map[], never)
  {
    hide Normalize, Pick, Kept, TrimSpace;
    SingleKept(c, name);
    assert ModelList("") == [];
    assert name in Normalize([name]) && name in [name];
    assert !Ignored([name], name, never);
  }

  lemma SingleKept(c: State, name: string)
    requires Normalize([name]) == [name] && c.ignored == []
    ensures Kept(c, Choice([], [name], [])) == [name]
  {
    hide Normalize, Pick;
    assert c.ignored + [name] == [name];
    PickAll([name], Elements([name]) - Elements([]));
  }

  // ---------------------------------------------------------------------------
  // The scan over all channels
  // ---------------------------------------------------------------------------

  datatype Row = Row(id: int, enabled: bool)

  const BATCH_SIZE := 100

  /** The channels table: positive ids in ascending order. */
  predicate Table(rows: seq<Row>) {
    && (forall i :: 0 <= i < |rows| ==> rows[i].id > 0)
    && (forall i, j :: 0 <= i < j < |rows| ==> rows[i].id < rows[j].id)
  }

  function EnabledRows(rows: seq<Row>): seq<Row> {
    if rows == [] then []
    else if rows[0].enabled then [rows[0]] + EnabledRows(rows[1..])
    else EnabledRows(rows[1..])
  }

  function Beyond(rows: seq<Row>, lastID: int): seq<Row> {
    if rows == [] then []
    else if rows[0].id > lastID then [rows[0]] + Beyond(rows[1..], lastID)
    else Beyond(rows[1..], lastID)
  }

  /** The batch query: enabled channels beyond the last id seen, at most `limit` of them. */
  function Query(rows: seq<Row>, lastID: int, limit: nat): seq<Row> {
    var found := if lastID > 0 then Beyond(EnabledRows(rows), lastID) else EnabledRows(rows);
    if |found| <= limit then found else found[..limit]
  }

  lemma {:induction false} EnabledMember(rows: seq<Row>, r: Row)
    requires r in EnabledRows(rows)
    ensures r in rows && r.enabled
  {
    if !rows[0].enabled || r != rows[0] {
      EnabledMember(rows[1..], r);
    }
  }

  /** The enabled channels are all of the table's that are. */
  lemma {:induction false} EnabledRowsAre(rows: seq<Row>, r: Row)
    ensures r in EnabledRows(rows) <==> r in rows && r.enabled
  {
    if rows != [] {
      EnabledRowsAre(rows[1..], r);
      assert rows == [rows[0]] + rows[1..];
    }
  }

  lemma {:induction false} EnabledIsTable(rows: seq<Row>)
    requires Table(rows)
    ensures Table(EnabledRows(rows))
  {
    if rows != [] {
      EnabledIsTable(rows[1..]);
      var rest := EnabledRows(rows[1..]);
      forall i | 0 <= i < |rest| ensures rest[i].id > rows[0].id {
        EnabledMember(rows[1..], rest[i]);
        var j :| 0 <= j < |rows[1..]| && rows[1..][j] == rest[i];
        assert rows[1..][j] == rows[j + 1];
      }
    }
  }

  lemma {:induction false} BeyondIsSuffix(rows: seq<Row>, k: nat)
    requires Table(rows) && 0 < k <= |rows|
    ensures Beyond(rows, rows[k - 1].id) == rows[k..]
    decreases k
  {
    if k == 1 {
      BeyondAll(rows[1..], rows[0].id);
    } else {
      BeyondIsSuffix(rows[1..], k - 1);
    }
  }

  lemma {:induction false} BeyondAll(rows: seq<Row>, lastID: int)
    requires forall i :: 0 <= i < |rows| ==> rows[i].id > lastID
    ensures Beyond(rows, lastID) == rows
  {
    if rows != [] { BeyondAll(rows[1..], lastID); }
  }

  /** After the first `k` enabled channels, the query returns the ones that follow. */
  lemma QueryIsNext(rows: seq<Row>, k: nat, limit: nat)
    requires Table(rows) && k <= |EnabledRows(rows)|
    ensures
      var all := EnabledRows(rows);
      Query(rows, if k == 0 then 0 else all[k - 1].id, limit) == all[k..if |all| - k <= limit then |all| else k + limit]
  {
    hide EnabledRows, Beyond;
    var all := EnabledRows(rows);
    EnabledIsTable(rows);
    if k == 0 {
      assert all[0..] == all;
    } else {
      BeyondIsSuffix(all, k);
    }
  }

  /** Keyset pagination visits every enabled channel once, in id order. `queryStops(k)` says whether the scan
      is cancelled before the query made after k channels, or that query fails, and `channelStops(k)` whether
      it is cancelled before channel k. The scan stops at the first of these it meets, and at nothing else. */
  method ScanChannels(rows: seq<Row>, queryStops: nat -> bool, channelStops: nat -> bool)
    returns (visited: seq<Row>, stopped: bool)
    requires Table(rows)
    ensures visited <= EnabledRows(rows)
    ensures !stopped ==> visited == EnabledRows(rows)
    ensures stopped <==>
              || (|visited| % BATCH_SIZE == 0 && queryStops(|visited|))
              || (|visited| < |EnabledRows(rows)| && channelStops(|visited|))
    ensures forall k: nat :: k < |visited| ==> !channelStops(k) && (k % BATCH_SIZE == 0 ==> !queryStops(k))
  {
    hide EnabledRows, Query, Table;
    ghost var all := EnabledRows(rows);
    visited, stopped := [], false;
    var lastID := 0;
    ghost var k := 0;
    while true
      invariant 0 <= k <= |all| && visited == all[..k] && k % BATCH_SIZE == 0
      invariant lastID == if k == 0 then 0 else all[k - 1].id
      invariant forall j: nat :: j < k ==> !channelStops(j) && (j % BATCH_SIZE == 0 ==> !queryStops(j))
      decreases |all| - k
    {
      if queryStops(|visited|) {
        return visited, true;
      }
      QueryIsNext(rows, k, BATCH_SIZE);
      var batch := Query(rows, lastID, BATCH_SIZE);
      if |batch| == 0 {
        return;
      }
      lastID := batch[|batch| - 1].id;
      for i := 0 to |batch|
        invariant visited == all[..k + i]
        invariant forall j: nat :: j < k + i ==> !channelStops(j) && (j % BATCH_SIZE == 0 ==> !queryStops(j))
      {
        assert 0 < i ==> (k + i) % BATCH_SIZE != 0;
        if channelStops(|visited|) {
          return visited, true;
        }
        assert all[..k + i + 1] == all[..k + i] + [all[k + i]];
        visited := visited + [batch[i]];
      }
      k := k + |batch|;
      if |batch| < BATCH_SIZE {
        return;
      }
    }
  }
}
