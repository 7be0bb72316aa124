/** Comparing this gateway's prices with those of other channels: one row per model and field that
    differs somewhere, with what each channel says, and without the channels that differ nowhere.
 */
module PricingDiff {
  import opened Basics
  import opened PricingSync
  import opened Text
  import ModelsDev

  datatype Channel = Channel(name: string, data: Table)

  /** One row. A channel shows its value, nothing, or the text "same". */
  datatype Item = Item(current: Option<Value>, upstreams: map<string, Option<Value>>, confidence: map<string, bool>)

  function Same(): Option<Value> {
    Some(Str("same"))
  }

  predicate ValuesEqual(a: Value, b: Value) {
    if a.Number? && b.Number? then ModelsDev.NearlyEqual(a.r, b.r) else a == b
  }

  function Get(t: Table, c: Cell): Option<Value> {
    if c in t then Some(t[c]) else None
  }

  predicate Tiered(t: Table, name: string) {
    Get(t, Cell(BillingMode, name)) == Some(Str(TIERED))
  }

  /** Somebody bills the model by expression. */
  predicate Priority(l: Table, cs: seq<Channel>, name: string) {
    Tiered(l, name) || exists i :: 0 <= i < |cs| && Tiered(cs[i].data, name)
  }

  /** Under expression priority only the mode and the expression are compared... */
  predicate Allowed(l: Table, cs: seq<Channel>, c: Cell) {
    !(Priority(l, cs, c.name) && Numeric(c.field))
  }

  /** ...and only channels that have an expression take part. */
  predicate Eligible(l: Table, cs: seq<Channel>, ch: Channel, name: string) {
    Priority(l, cs, name) ==> Tiered(ch.data, name)
  }

  /** What the row shows for a channel. */
  function Shown(l: Table, ch: Channel, c: Cell): Option<Value> {
    var lv, uv := Get(l, c), Get(ch.data, c);
    if lv.Some? && uv.Some? && ValuesEqual(lv.value, uv.value) then Same()
    else if lv.None? && uv.None? then Same()
    else uv
  }

  /** The channel has a value that is absent here or unequal to ours. */
  predicate Differs(l: Table, ch: Channel, c: Cell) {
    c in ch.data && (c in l ==> !ValuesEqual(l[c], ch.data[c]))
  }

  /** 37.5 and 1 are the defaults of an unconfigured gateway, not prices. */
  predicate Trusted(t: Table, name: string) {
    !(&& Cell(ModelRatio, name) in t && Cell(CompletionRatio, name) in t
      && t[Cell(ModelRatio, name)].Number? && t[Cell(CompletionRatio, name)].Number?
      && ModelsDev.NearlyEqual(t[Cell(ModelRatio, name)].r, 37.5)
      && ModelsDev.NearlyEqual(t[Cell(CompletionRatio, name)].r, 1.0))
  }

  // ---------------------------------------------------------------------------
  // The rows before pruning
  // ---------------------------------------------------------------------------

  /** The last data under each channel name. */
  function Latest(cs: seq<Channel>): map<string, Table> {
    if cs == [] then map[] else Latest(cs[..|cs| - 1])[cs[|cs| - 1].name := cs[|cs| - 1].data]
  }

  function Upstreams(l: Table, all: seq<Channel>, cs: seq<Channel>, c: Cell): map<string, Option<Value>> {
    if cs == [] then map[]
    else
      var front, last := Upstreams(l, all, cs[..|cs| - 1], c), cs[|cs| - 1];
      if Eligible(l, all, last, c.name) then front[last.name := Shown(l, last, c)] else front
  }

  function Confidence(l: Table, all: seq<Channel>, cs: seq<Channel>, c: Cell): map<string, bool> {
    map n | n in Upstreams(l, all, cs, c) :: n in Latest(all) ==> Trusted(Latest(all)[n], c.name)
  }

  predicate Wanted(l: Table, cs: seq<Channel>, c: Cell) {
    exists i :: 0 <= i < |cs| && Eligible(l, cs, cs[i], c.name) && Differs(l, cs[i], c)
  }

  function RowItem(l: Table, cs: seq<Channel>, c: Cell): Item {
    Item(Get(l, c), Upstreams(l, cs, cs, c), Confidence(l, cs, cs, c))
  }

  /** Some of the channels `cs` has a value for the cell, or one that differs. */
  predicate Offered(l: Table, all: seq<Channel>, cs: seq<Channel>, c: Cell, differing: bool) {
    cs != [] &&
    var last := cs[|cs| - 1];
    || Offered(l, all, cs[..|cs| - 1], c, differing)
    || (Eligible(l, all, last, c.name) && if differing then Differs(l, last, c) else c in last.data)
  }

  lemma {:induction false} OfferedIff(l: Table, all: seq<Channel>, cs: seq<Channel>, c: Cell, differing: bool)
    ensures Offered(l, all, cs, c, differing) <==>
            exists i :: 0 <= i < |cs| && Eligible(l, all, cs[i], c.name) && if differing then Differs(l, cs[i], c) else c in cs[i].data
  {
    hide Eligible, Differs;
    if cs != [] {
      var front := cs[..|cs| - 1];
      OfferedIff(l, all, front, c, differing);
      assert forall i :: 0 <= i < |front| ==> front[i] == cs[i];
    }
  }

  /** Builds one row as the loop over the channels does. */
  method Compare(l: Table, cs: seq<Channel>, latest: map<string, Table>, c: Cell) returns (item: Item, wanted: bool)
    requires latest == Latest(cs)
    ensures item == RowItem(l, cs, c)
    ensures wanted <==> Wanted(l, cs, c)
  {
    hide Trusted, ValuesEqual, Eligible, Latest, Same;
    var lv := Get(l, c);
    var upstreams: map<string, Option<Value>> := map[];
    var confidence: map<string, bool> := map[];
    var hasUpstream, hasDifference := false, false;
    for i := 0 to |cs|
      invariant upstreams == Upstreams(l, cs, cs[..i], c)
      invariant confidence == map n | n in upstreams :: n in latest ==> Trusted(latest[n], c.name)
      invariant hasUpstream == Offered(l, cs, cs[..i], c, false)
      invariant lv.Some? ==> hasDifference == Offered(l, cs, cs[..i], c, true)
    {
      assert cs[..i + 1][..i] == cs[..i];
      var ch := cs[i];
      if Eligible(l, cs, ch, c.name) {
        var shown := Get(ch.data, c);
        if shown.Some? {
          hasUpstream := true;
          if lv.Some? && !ValuesEqual(lv.value, shown.value) {
            hasDifference := true;
          } else if lv.Some? {
            shown := Same();
          }
        }
        if shown.None? && lv.None? {
          shown := Same();
        }
        upstreams := upstreams[ch.name := shown];
        confidence := confidence[ch.name := ch.name in latest ==> Trusted(latest[ch.name], c.name)];
      }
    }
    assert cs[..|cs|] == cs;
    item := Item(lv, upstreams, confidence);
    wanted := if lv.Some? then hasDifference else hasUpstream;
    OfferedIff(l, cs, cs, c, false);
    OfferedIff(l, cs, cs, c, true);
  }

  function Names(l: Table, cs: seq<Channel>): set<string> {
    (set c | c in l :: c.name) + (set i, c | 0 <= i < |cs| && c in cs[i].data :: c.name)
  }

  function Cells(names: set<string>): set<Cell> {
    set n, f | n in names && f in AllFields() :: Cell(f, n)
  }

  type Diff = map<Cell, Item>

  function Rows(l: Table, cs: seq<Channel>): Diff {
    map c | c in Cells(Names(l, cs)) && Allowed(l, cs, c) && Wanted(l, cs, c) :: RowItem(l, cs, c)
  }

  // ---------------------------------------------------------------------------
  // Pruning
  // ---------------------------------------------------------------------------

  predicate IsDifference(v: Option<Value>) {
    v != None && v != Same()
  }

  /** The channels that differ somewhere. */
  function Differing(d: Diff): set<string> {
    set c, n | c in d && n in d[c].upstreams && IsDifference(d[c].upstreams[n]) :: n
  }

  function Restrict(item: Item, keep: set<string>): Item {
    Item(item.current, map n | n in item.upstreams && n in keep :: item.upstreams[n],
         map n | n in item.confidence && n in keep :: item.confidence[n])
  }

  /** Some channel still shows something other than "same". */
  predicate Worth(item: Item) {
    exists n :: n in item.upstreams && item.upstreams[n] != Same()
  }

  function Prune(d: Diff): Diff {
    map c | c in d && Worth(Restrict(d[c], Differing(d))) :: Restrict(d[c], Differing(d))
  }

  /** Removes the channels that differ nowhere, then the rows that show nothing. */
  method PruneDifferences(d: Diff) returns (pruned: Diff)
    ensures pruned == Prune(d)
  {
    var differing := {};
    var rest := d.Keys;
    while rest != {}
      invariant rest <= d.Keys
      invariant differing == set c, n | c in d && c !in rest && n in d[c].upstreams && IsDifference(d[c].upstreams[n]) :: n
      decreases |rest|
    {
      var c :| c in rest;
      rest := rest - {c};
      differing := differing + set n | n in d[c].upstreams && IsDifference(d[c].upstreams[n]);
    }
    assert differing == Differing(d);
    pruned := PruneRows(d, differing);
  }

  method PruneRows(d: Diff, differing: set<string>) returns (pruned: Diff)
    ensures pruned == map c | c in d && Worth(Restrict(d[c], differing)) :: Restrict(d[c], differing)
  {
    hide Restrict, Worth;
    pruned := d;
    var rest := d.Keys;
    while rest != {}
      invariant rest <= d.Keys
      invariant forall c :: c in pruned <==> c in d && (c in rest || Worth(Restrict(d[c], differing)))
      invariant forall c :: c in pruned ==> pruned[c] == if c in rest then d[c] else Restrict(d[c], differing)
      decreases |rest|
    {
      var c :| c in rest;
      rest := rest - {c};
      var item := Restrict(d[c], differing);
      if !Worth(item) {
        pruned := pruned - {c};
      } else {
        pruned := pruned[c := item];
      }
    }
  }

  method FillRows(l: Table, cs: seq<Channel>) returns (rows: Diff)
    ensures rows == Rows(l, cs)
  {
    hide RowItem, Wanted, Allowed, Latest, Cells, Names;
    var latest := LatestData(cs);
    var cells := Cells(Names(l, cs));
    rows := map[];
    var rest := cells;
    while rest != {}
      invariant rest <= cells
      invariant forall c :: c in rows <==> c in cells && c !in rest && Allowed(l, cs, c) && Wanted(l, cs, c)
      invariant forall c :: c in rows ==> rows[c] == RowItem(l, cs, c)
      decreases |rest|
    {
      var c :| c in rest;
      rest := rest - {c};
      if Allowed(l, cs, c) {
        var item, wanted := Compare(l, cs, latest, c);
        if wanted {
          rows := rows[c := item];
        }
      }
    }
  }

  method NormalizeChannels(channels: seq<Channel>) returns (cs: seq<Channel>)
    ensures cs == EffectiveChannels(channels)
  {
    hide Effective;
    cs := [];
    for i := 0 to |channels|
      invariant |cs| == i
      invariant forall k :: 0 <= k < i ==> cs[k] == Channel(channels[k].name, Effective(channels[k].data))
    {
      var t := Normalize(channels[i].data);
      cs := cs + [Channel(channels[i].name, t)];
    }
  }

  /** The differences between this gateway's prices and the channels'. */
  method BuildDifferences(local: Table, channels: seq<Channel>) returns (d: Diff)
    ensures d == Prune(Rows(Effective(local), EffectiveChannels(channels)))
  {
    hide Effective, EffectiveChannels, Rows, Prune;
    var l := Normalize(local);
    var cs := NormalizeChannels(channels);
    var rows := FillRows(l, cs);
    d := PruneDifferences(rows);
  }

  ghost function EffectiveChannels(cs: seq<Channel>): seq<Channel> {
    seq(|cs|, i requires 0 <= i < |cs| => Channel(cs[i].name, Effective(cs[i].data)))
  }

  method LatestData(cs: seq<Channel>) returns (latest: map<string, Table>)
    ensures latest == Latest(cs)
  {
    latest := map[];
    for i := 0 to |cs|
      invariant latest == Latest(cs[..i])
    {
      assert cs[..i + 1][..i] == cs[..i];
      latest := latest[cs[i].name := cs[i].data];
    }
    assert cs[..|cs|] == cs;
  }

  // ---------------------------------------------------------------------------
  // What the result says
  // ---------------------------------------------------------------------------

  predicate DistinctNames(cs: seq<Channel>) {
    forall i, j :: 0 <= i < j < |cs| ==> cs[i].name != cs[j].name
  }

  /** No channel has a value that reads like the marker. */
  predicate NoMarker(cs: seq<Channel>) {
    forall i, c :: 0 <= i < |cs| && c in cs[i].data ==> cs[i].data[c] != Str("same")
  }

  lemma {:induction false} UpstreamsShow(l: Table, all: seq<Channel>, cs: seq<Channel>, c: Cell, i: nat)
    requires i < |cs| && DistinctNames(cs) && Eligible(l, all, cs[i], c.name)
    ensures
      var u := Upstreams(l, all, cs, c);
      cs[i].name in u && u[cs[i].name] == Shown(l, cs[i], c)
  {
    hide Shown, Eligible;
    if i < |cs| - 1 {
      assert cs[..|cs| - 1][i] == cs[i];
      UpstreamsShow(l, all, cs[..|cs| - 1], c, i);
    }
  }

  /** A channel that differs in a row, other than by the marker's text, keeps the row through pruning. */
  lemma DifferenceIsKept(l: Table, cs: seq<Channel>, c: Cell, i: nat)
    requires DistinctNames(cs) && i < |cs|
    requires c in Rows(l, cs) && Eligible(l, cs, cs[i], c.name) && Differs(l, cs[i], c) && cs[i].data[c] != Str("same")
    ensures
      var d := Rows(l, cs);
      && cs[i].name in Differing(d)
      && c in Prune(d) && cs[i].name in Prune(d)[c].upstreams
      && Prune(d)[c].upstreams[cs[i].name] == Some(cs[i].data[c])
  {
    hide Eligible, ValuesEqual, Wanted, Allowed, Cells, Names, Upstreams, Confidence;
    var d, n := Rows(l, cs), cs[i].name;
    UpstreamsShow(l, cs, cs, c, i);
    assert d[c].upstreams[n] == Some(cs[i].data[c]);
    assert IsDifference(d[c].upstreams[n]);
    var item := Restrict(d[c], Differing(d));
    assert n in item.upstreams && item.upstreams[n] != Same();
  }

  lemma DiffersHas(l: Table, ch: Channel, c: Cell)
    requires Differs(l, ch, c)
    ensures c in ch.data
  {
  }

  /** Pruning removes channels, never a row. */
  lemma PruningKeepsRows(l: Table, cs: seq<Channel>)
    requires DistinctNames(cs) && NoMarker(cs)
    ensures Prune(Rows(l, cs)).Keys == Rows(l, cs).Keys
  {
    hide Prune, Eligible, Differs, Allowed, RowItem, Cells, Names;
    forall c | c in Rows(l, cs) ensures c in Prune(Rows(l, cs)) {
      var i :| 0 <= i < |cs| && Eligible(l, cs, cs[i], c.name) && Differs(l, cs[i], c);
      assert c in cs[i].data by { DiffersHas(l, cs[i], c); }
      DifferenceIsKept(l, cs, c, i);
    }
    PruneShrinks(Rows(l, cs));
  }

  lemma PruneShrinks(d: Diff)
    ensures Prune(d).Keys <= d.Keys
    ensures forall c :: c in Prune(d) ==> Prune(d)[c].upstreams.Keys <= d[c].upstreams.Keys && Prune(d)[c].upstreams.Keys <= Differing(d)
  {
    hide Worth, Differing;
  }

  /** A row is in the result iff its field is compared and some eligible channel has a value that is
      absent here or unequal to ours. */
  lemma RowsAreExact(l: Table, cs: seq<Channel>, c: Cell)
    requires DistinctNames(cs) && NoMarker(cs)
    ensures
      c in Prune(Rows(l, cs)) <==>
      Allowed(l, cs, c) && exists i :: 0 <= i < |cs| && Eligible(l, cs, cs[i], c.name) && Differs(l, cs[i], c)
  {
    hide Prune, Eligible, Allowed, RowItem;
    PruningKeepsRows(l, cs);
    assert c in Prune(Rows(l, cs)) <==> c in Rows(l, cs);
    if Wanted(l, cs, c) {
      var i :| 0 <= i < |cs| && Eligible(l, cs, cs[i], c.name) && Differs(l, cs[i], c);
      FieldsAreAll(c.field);
      assert c.name in Names(l, cs);
      assert c == Cell(c.field, c.name);
    }
  }

  /** Comparing a table with copies of itself gives nothing. */
  lemma SelfDiffIsEmpty(l: Table, cs: seq<Channel>)
    requires forall i :: 0 <= i < |cs| ==> cs[i].data == l
    ensures Prune(Rows(l, cs)) == map[]
  {
    hide Prune, Eligible, Allowed, RowItem, Cells, Names;
    forall c ensures !Wanted(l, cs, c) {
    }
    assert Rows(l, cs) == map[];
    PruneShrinks(Rows(l, cs));
    assert Prune(Rows(l, cs)).Keys == {};
  }

  /** The only text in a normalized table that is not a mode is an expression, so an expression that
      reads "same" is the one way to imitate the marker. */
  lemma MarkerIsAnExpression(data: Table, c: Cell)
    requires c in Effective(data) && Effective(data)[c] == Str("same")
    ensures c.field == BillingExpr
  {
    hide EffectiveRow, RowOf, Effective;
    EffectiveCell(data, c);
    ThreeShapes(RowOf(data, c.name));
    MarkerInShape(EffectiveRow(RowOf(data, c.name)), c.field);
  }

  lemma MarkerInShape(e: Row, f: Field)
    requires ExpressionOnly(e) || FixedPrice(e) || TokenRatio(e)
    requires f in e && e[f] == Str("same")
    ensures f == BillingExpr
  {
    assert |RATIO| == 5 && |TIERED| == 11 && |"same"| == 4;
    if FixedPrice(e) || TokenRatio(e) {
      assert ValidEntry(f, e[f]);
    } else {
      assert f in {BillingMode, BillingExpr};
    }
  }

  lemma {:induction false} UpstreamsOnly(l: Table, all: seq<Channel>, cs: seq<Channel>, c: Cell, n: string) returns (i: nat)
    requires n in Upstreams(l, all, cs, c)
    ensures i < |cs| && cs[i].name == n && Eligible(l, all, cs[i], c.name) && Upstreams(l, all, cs, c)[n] == Shown(l, cs[i], c)
  {
    hide Shown, Eligible;
    var k := |cs| - 1;
    if Eligible(l, all, cs[k], c.name) && cs[k].name == n {
      i := k;
    } else {
      i := UpstreamsOnly(l, all, cs[..k], c, n);
      assert cs[..k][i] == cs[i];
    }
  }

  /** A row in which every channel shows "same" does not survive. */
  lemma AllSameIsLost(l: Table, cs: seq<Channel>, c: Cell)
    requires forall i :: 0 <= i < |cs| && Eligible(l, cs, cs[i], c.name) ==> Shown(l, cs[i], c) == Same()
    ensures c !in Prune(Rows(l, cs))
  {
    hide Eligible, Shown, Wanted, Allowed, Cells, Names, Upstreams, Confidence, Differing;
    var d := Rows(l, cs);
    if c in Prune(d) {
      var item := Restrict(d[c], Differing(d));
      var n :| n in item.upstreams && item.upstreams[n] != Same();
      var i := UpstreamsOnly(l, cs, cs, c, n);
    }
  }

  /** A normalized model has an expression iff it is billed by it. */
  lemma TieredHasExpression(data: Table, name: string)
    ensures Tiered(Effective(data), name) <==> Cell(BillingExpr, name) in Effective(data)
  {
    hide EffectiveRow, RowOf, Effective;
    EffectiveCell(data, Cell(BillingMode, name));
    EffectiveCell(data, Cell(BillingExpr, name));
    ThreeShapes(RowOf(data, name));
    assert |RATIO| == 5 && |TIERED| == 11;
  }

  /** What normalizing gives every channel: an expression iff billed by it, and the marker's text nowhere
      else. */
  ghost predicate Normal(ch: Channel) {
    && (forall name :: Tiered(ch.data, name) <==> Cell(BillingExpr, name) in ch.data)
    && (forall c :: c in ch.data && ch.data[c] == Str("same") ==> c.field == BillingExpr)
  }

  lemma EffectiveIsNormal(channels: seq<Channel>, i: nat)
    requires i < |channels|
    ensures Normal(EffectiveChannels(channels)[i])
  {
    hide Effective, Tiered;
    var data := channels[i].data;
    forall name ensures Tiered(Effective(data), name) <==> Cell(BillingExpr, name) in Effective(data) {
      TieredHasExpression(data, name);
    }
    forall c | c in Effective(data) && Effective(data)[c] == Str("same") ensures c.field == BillingExpr {
      MarkerIsAnExpression(data, c);
    }
  }

  /** Whether every difference in the row is the marker's text. */
  predicate OnlyMarkers(l: Table, cs: seq<Channel>, c: Cell) {
    forall i :: 0 <= i < |cs| && Eligible(l, cs, cs[i], c.name) && Differs(l, cs[i], c) ==> cs[i].data[c] == Str("same")
  }

  lemma OnlyMarkersShowSame(l: Table, cs: seq<Channel>, c: Cell, k: nat, i: nat)
    requires k < |cs| && Eligible(l, cs, cs[k], c.name) && Differs(l, cs[k], c) && Normal(cs[k])
    requires i < |cs| && Eligible(l, cs, cs[i], c.name) && Normal(cs[i])
    requires OnlyMarkers(l, cs, c)
    ensures Shown(l, cs[i], c) == Same()
  {
    hide ValuesEqual;
    assert c.field == BillingExpr && c == Cell(BillingExpr, c.name);
    assert Tiered(cs[k].data, c.name) && Tiered(cs[i].data, c.name);
  }

  lemma LostIffOnlyMarkers(l: Table, cs: seq<Channel>, c: Cell)
    requires DistinctNames(cs) && c in Rows(l, cs) && forall i :: 0 <= i < |cs| ==> Normal(cs[i])
    ensures c !in Prune(Rows(l, cs)) <==> OnlyMarkers(l, cs, c)
  {
    hide Eligible, Prune, ValuesEqual, Allowed, RowItem, Cells, Names, Normal, Shown;
    var k :| 0 <= k < |cs| && Eligible(l, cs, cs[k], c.name) && Differs(l, cs[k], c);
    if OnlyMarkers(l, cs, c) {
      forall i | 0 <= i < |cs| && Eligible(l, cs, cs[i], c.name) ensures Shown(l, cs[i], c) == Same() {
        OnlyMarkersShowSame(l, cs, c, k, i);
      }
      AllSameIsLost(l, cs, c);
    } else {
      var i :| 0 <= i < |cs| && Eligible(l, cs, cs[i], c.name) && Differs(l, cs[i], c) && cs[i].data[c] != Str("same");
      DifferenceIsKept(l, cs, c, i);
    }
  }

  /** Exactly when pruning loses a row that was built: every eligible channel that differs in it has an
      expression that reads "same". */
  lemma RowIsLostIff(local: Table, channels: seq<Channel>, c: Cell)
    requires DistinctNames(channels) && c in Rows(Effective(local), EffectiveChannels(channels))
    ensures
      var l, cs := Effective(local), EffectiveChannels(channels);
      c !in Prune(Rows(l, cs)) <==> OnlyMarkers(l, cs, c)
  {
    hide Effective, Rows, Prune, OnlyMarkers, Normal;
    var l, cs := Effective(local), EffectiveChannels(channels);
    forall i | 0 <= i < |cs| ensures Normal(cs[i]) { EffectiveIsNormal(channels, i); }
    LostIffOnlyMarkers(l, cs, c);
  }

  /** The exact content of the result, with nothing assumed of the values: a row is there iff its field is
      compared and some eligible channel has a value that is absent here or unequal to ours, other than
      an expression that reads "same". */
  lemma RowsAreExactly(local: Table, channels: seq<Channel>, c: Cell)
    requires DistinctNames(channels)
    ensures
      var l, cs := Effective(local), EffectiveChannels(channels);
      c in Prune(Rows(l, cs)) <==>
      && Allowed(l, cs, c)
      && exists i :: 0 <= i < |cs| && Eligible(l, cs, cs[i], c.name) && Differs(l, cs[i], c) && cs[i].data[c] != Str("same")
  {
    hide Eligible, Effective, EffectiveChannels, Prune, Allowed, RowItem;
    var l, cs := Effective(local), EffectiveChannels(channels);
    PruneShrinks(Rows(l, cs));
    if c in Rows(l, cs) {
      RowIsLostIff(local, channels, c);
      assert OnlyMarkers(l, cs, c) <==> c !in Prune(Rows(l, cs));
    } else if i :| 0 <= i < |cs| && Eligible(l, cs, cs[i], c.name) && Differs(l, cs[i], c) {
      WantedIsNamed(l, cs, c, i);
    }
  }

  lemma WantedIsNamed(l: Table, cs: seq<Channel>, c: Cell, i: nat)
    requires i < |cs| && c in cs[i].data
    ensures c in Cells(Names(l, cs))
  {
    FieldsAreAll(c.field);
    assert c.name in Names(l, cs);
    assert c == Cell(c.field, c.name);
  }

  /** The table of a model billed by the expression "same" is normalized already. */
  lemma MarkerTable(t: Table)
    requires t == map[Cell(BillingMode, "m") := Str(TIERED), Cell(BillingExpr, "m") := Str("same")]
    ensures Effective(t) == t
  {
    hide Effective, EffectiveRow, RowOf, TrimSpace;
    NothingToTrim("same");
    forall name ensures RowOf(t, name) == EffectiveRow(RowOf(t, name)) {
      OneExpressionRow(t, "m", "same", name);
      ShapesAreFixed(RowOf(t, name));
    }
    TableIsItsRows(t, t);
  }

  lemma OneExpressionRow(t: Table, m: string, e: string, name: string)
    requires t == map[Cell(BillingMode, m) := Str(TIERED), Cell(BillingExpr, m) := Str(e)]
    requires e != "" && TrimSpace(e) == e
    ensures RowOf(t, name) == map[] || ExpressionOnly(RowOf(t, name))
  {
    hide TrimSpace, RowOf;
    var row := RowOf(t, name);
    forall f: Field ensures f in row <==> name == m && f in {BillingMode, BillingExpr} {
      RowEntry(t, name, f);
    }
    if name == m {
      RowEntry(t, name, BillingMode);
      RowEntry(t, name, BillingExpr);
      assert row.Keys == {BillingMode, BillingExpr};
    } else {
      assert row.Keys == {};
    }
  }

  lemma RowEntry(t: Table, name: string, f: Field)
    ensures f in RowOf(t, name) <==> Cell(f, name) in t
    ensures f in RowOf(t, name) ==> RowOf(t, name)[f] == t[Cell(f, name)]
  {
  }

  lemma NothingToTrim(s: string)
    requires s != "" && !IsSpace(s[0]) && !IsSpace(s[|s| - 1])
    ensures TrimSpace(s) == s
  {
    hide TrimBy;
    TrimIsTight(s, IsSpace);
  }

  lemma EmptyTable()
    ensures Effective(map[]) == map[]
  {
    hide Effective, EffectiveRow;
    var none: Table := map[];
    forall name ensures RowOf(none, name) == EffectiveRow(RowOf(none, name)) {
      assert RowOf(none, name) == map[];
      ShapesAreFixed(map[]);
    }
    TableIsItsRows(none, none);
  }

  /** With an expression "same" in one channel and nothing here, the row is built and then lost. */
  lemma MarkerLosesARow()
    ensures
      var t: Table := map[Cell(BillingMode, "m") := Str(TIERED), Cell(BillingExpr, "m") := Str("same")];
      var l, cs := Effective(map[]), EffectiveChannels([Channel("a", t)]);
      var c := Cell(BillingExpr, "m");
      c in Rows(l, cs) && Differs(l, cs[0], c) && c !in Prune(Rows(l, cs))
  {
    hide Effective, Prune, Rows;
    var c := Cell(BillingExpr, "m");
    var t: Table := map[Cell(BillingMode, "m") := Str(TIERED), c := Str("same")];
    var channels := [Channel("a", t)];
    MarkerTable(t);
    EmptyTable();
    assert EffectiveChannels(channels) == channels;
    MarkerRow(t, channels);
    RowIsLostIff(map[], channels, c);
  }

  lemma MarkerRow(t: Table, cs: seq<Channel>)
    requires t == map[Cell(BillingMode, "m") := Str(TIERED), Cell(BillingExpr, "m") := Str("same")] && cs == [Channel("a", t)]
    ensures
      var c := Cell(BillingExpr, "m");
      c in Rows(map[], cs) && OnlyMarkers(map[], cs, c) && Differs(map[], cs[0], c)
  {
    hide RowItem, Cells, Names;
    var c := Cell(BillingExpr, "m");
    assert cs[0].data == t;
    assert Tiered(t, "m") && Eligible(map[], cs, cs[0], "m") && Differs(map[], cs[0], c);
    WantedIsNamed(map[], cs, c, 0);
  }

  // ---------------------------------------------------------------------------
  // The whole result in plain terms
  // ---------------------------------------------------------------------------

  /** The model is billed by expression in this table. */
  predicate ByExpression(t: Table, name: string) {
    Cell(BillingMode, name) in t && t[Cell(BillingMode, name)] == Str("tiered_expr")
  }

  /** The channel takes part in the row: when anybody bills the model by expression, only the mode and the
      expression are compared, and only with channels that have one. */
  predicate TakesPart(l: Table, cs: seq<Channel>, i: nat, c: Cell)
    requires i < |cs|
  {
    (ByExpression(l, c.name) || exists k :: 0 <= k < |cs| && ByExpression(cs[k].data, c.name)) ==>
      (c.field == BillingMode || c.field == BillingExpr) && ByExpression(cs[i].data, c.name)
  }

  /** Numbers less than a billionth apart are the same, and otherwise only equal values are. */
  predicate Alike(a: Value, b: Value) {
    if a.Number? && b.Number? then -0.000000001 < a.r - b.r < 0.000000001 else a == b
  }

  /** The channel has a value for the cell, other than the text "same", that is absent here or not like
      ours. */
  predicate Stands(l: Table, t: Table, c: Cell) {
    c in t && t[c] != Str("same") && (c in l ==> !Alike(l[c], t[c]))
  }

  /** The defaults of an unconfigured gateway: a ratio of 37.5 and a completion ratio of 1. */
  predicate LooksUnset(t: Table, name: string) {
    && Cell(ModelRatio, name) in t && Cell(CompletionRatio, name) in t
    && Alike(t[Cell(ModelRatio, name)], Number(37.5)) && Alike(t[Cell(CompletionRatio, name)], Number(1.0))
  }

  lemma PlainParts(l: Table, cs: seq<Channel>, i: nat, c: Cell)
    requires i < |cs|
    ensures TakesPart(l, cs, i, c) <==> Allowed(l, cs, c) && Eligible(l, cs, cs[i], c.name)
    ensures Stands(l, cs[i].data, c) <==> Differs(l, cs[i], c) && cs[i].data[c] != Str("same")
    ensures LooksUnset(cs[i].data, c.name) <==> !Trusted(cs[i].data, c.name)
  {
    assert forall a: Value, b: Value :: Alike(a, b) <==> ValuesEqual(a, b);
    assert forall t: Table :: ByExpression(t, c.name) <==> Tiered(t, c.name);
  }

  lemma {:induction false} LatestIs(cs: seq<Channel>, i: nat)
    requires DistinctNames(cs) && i < |cs|
    ensures cs[i].name in Latest(cs) && Latest(cs)[cs[i].name] == cs[i].data
  {
    if i < |cs| - 1 {
      assert cs[..|cs| - 1][i] == cs[i];
      LatestIs(cs[..|cs| - 1], i);
    }
  }

  /** Whether the channel stands out anywhere. */
  ghost predicate StandsOut(l: Table, cs: seq<Channel>, i: nat)
    requires i < |cs|
  {
    exists c :: TakesPart(l, cs, i, c) && Stands(l, cs[i].data, c)
  }

  lemma DifferingStandsOut(l: Table, cs: seq<Channel>, i: nat)
    requires DistinctNames(cs) && i < |cs| && cs[i].name in Differing(Rows(l, cs))
    ensures StandsOut(l, cs, i)
  {
    hide Allowed, Eligible, Upstreams, Confidence, TakesPart, Stands, Trusted, ValuesEqual, LooksUnset, Cells, Names, Wanted;
    var d, n := Rows(l, cs), cs[i].name;
    var c :| c in d && n in d[c].upstreams && IsDifference(d[c].upstreams[n]);
    var k := UpstreamsOnly(l, cs, cs, c, n);
    PlainParts(l, cs, i, c);
    assert TakesPart(l, cs, i, c) && Stands(l, cs[i].data, c);
  }

  lemma StandingOutDiffers(l: Table, cs: seq<Channel>, i: nat)
    requires DistinctNames(cs) && i < |cs| && StandsOut(l, cs, i)
    ensures cs[i].name in Differing(Rows(l, cs))
  {
    hide Allowed, Eligible, TakesPart, Stands, Trusted, LooksUnset, RowItem, Prune, Cells, Names, ValuesEqual;
    var c :| TakesPart(l, cs, i, c) && Stands(l, cs[i].data, c);
    PlainParts(l, cs, i, c);
    WantedIsNamed(l, cs, c, i);
    DifferenceIsKept(l, cs, c, i);
  }

  /** A row in plain terms: our value, whether the channel is shown, as what, and how far it is trusted. */
  ghost predicate Plainly(item: Item, l: Table, cs: seq<Channel>, c: Cell, i: nat)
    requires i < |cs|
  {
    var n, t := cs[i].name, cs[i].data;
    && item.current == (if c in l then Some(l[c]) else None)
    && item.upstreams.Keys == item.confidence.Keys
    && (forall m :: m in item.upstreams ==> exists k :: 0 <= k < |cs| && cs[k].name == m)
    && (n in item.upstreams <==> TakesPart(l, cs, i, c) && StandsOut(l, cs, i))
    && (n in item.upstreams ==>
          && item.confidence[n] == !LooksUnset(t, c.name)
          && item.upstreams[n] == if c !in t then (if c in l then None else Some(Str("same")))
                                  else if c in l && Alike(l[c], t[c]) then Some(Str("same"))
                                  else Some(t[c]))
  }

  /** The result, row by row and channel by channel, from the normalized tables alone: which rows there are,
      our value in each, which channels a row shows, what it shows for them and how far it trusts them. */
  lemma ResultInPlainTerms(local: Table, channels: seq<Channel>, c: Cell, i: nat)
    requires DistinctNames(channels) && i < |channels|
    ensures
      var l, cs := Effective(local), EffectiveChannels(channels);
      var d := Prune(Rows(l, cs));
      && (c in d <==> exists k :: 0 <= k < |cs| && TakesPart(l, cs, k, c) && Stands(l, cs[k].data, c))
      && (c in d ==> Plainly(d[c], l, cs, c, i))
  {
    hide Effective, Rows, Prune, TakesPart, Stands, Plainly;
    var l, cs := Effective(local), EffectiveChannels(channels);
    PlainRows(local, channels, c);
    if c in Prune(Rows(l, cs)) {
      PlainChannels(l, cs, c, i);
    }
  }

  lemma PlainRows(local: Table, channels: seq<Channel>, c: Cell)
    requires DistinctNames(channels)
    ensures
      var l, cs := Effective(local), EffectiveChannels(channels);
      c in Prune(Rows(l, cs)) <==> exists k :: 0 <= k < |cs| && TakesPart(l, cs, k, c) && Stands(l, cs[k].data, c)
  {
    hide Effective, Rows, Prune, TakesPart, Stands, LooksUnset, Trusted, Allowed, Eligible, ValuesEqual;
    var l, cs := Effective(local), EffectiveChannels(channels);
    RowsAreExactly(local, channels, c);
    forall k | 0 <= k < |cs|
      ensures TakesPart(l, cs, k, c) && Stands(l, cs[k].data, c) <==>
              Allowed(l, cs, c) && Eligible(l, cs, cs[k], c.name) && Differs(l, cs[k], c) && cs[k].data[c] != Str("same")
    {
      PlainParts(l, cs, k, c);
    }
  }

  /** One row before pruning. */
  lemma RowShows(l: Table, cs: seq<Channel>, c: Cell, i: nat)
    requires DistinctNames(cs) && i < |cs|
    ensures
      var item, n := RowItem(l, cs, c), cs[i].name;
      && item.upstreams.Keys == item.confidence.Keys
      && (forall m :: m in item.upstreams ==> exists k :: 0 <= k < |cs| && cs[k].name == m)
      && (n in item.upstreams <==> Eligible(l, cs, cs[i], c.name))
      && (n in item.upstreams ==> item.upstreams[n] == Shown(l, cs[i], c) && item.confidence[n] == Trusted(cs[i].data, c.name))
  {
    hide Upstreams, Eligible, Shown, Trusted, Latest;
    var item, n := RowItem(l, cs, c), cs[i].name;
    LatestIs(cs, i);
    if Eligible(l, cs, cs[i], c.name) {
      UpstreamsShow(l, cs, cs, c, i);
    }
    forall m | m in item.upstreams ensures exists k :: 0 <= k < |cs| && cs[k].name == m {
      var k := UpstreamsOnly(l, cs, cs, c, m);
    }
    if n in item.upstreams {
      var k := UpstreamsOnly(l, cs, cs, c, n);
    }
  }

  lemma PrunedRow(l: Table, cs: seq<Channel>, c: Cell)
    requires c in Prune(Rows(l, cs))
    ensures Allowed(l, cs, c) && Prune(Rows(l, cs))[c] == Restrict(RowItem(l, cs, c), Differing(Rows(l, cs)))
  {
    hide RowItem, Restrict, Differing, Worth, Cells, Names, Wanted, Allowed;
  }

  lemma PlainChannels(l: Table, cs: seq<Channel>, c: Cell, i: nat)
    requires DistinctNames(cs) && i < |cs| && c in Prune(Rows(l, cs))
    ensures Plainly(Prune(Rows(l, cs))[c], l, cs, c, i)
  {
    hide Rows, Prune, Upstreams, Confidence, TakesPart, StandsOut, Stands, LooksUnset, Trusted, Eligible, Allowed, Differing, ValuesEqual, Alike;
    var n := cs[i].name;
    PrunedRow(l, cs, c);
    RowShows(l, cs, c, i);
    PlainParts(l, cs, i, c);
    if n in Differing(Rows(l, cs)) { DifferingStandsOut(l, cs, i); }
    if StandsOut(l, cs, i) { StandingOutDiffers(l, cs, i); }
    if c in l && c in cs[i].data { AlikeIsEqual(l[c], cs[i].data[c]); }
  }

  lemma AlikeIsEqual(a: Value, b: Value)
    ensures Alike(a, b) <==> ValuesEqual(a, b)
  {
  }
}
