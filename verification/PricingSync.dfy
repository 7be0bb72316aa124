/** Model prices as they are compared between this gateway and others. A table holds the ten pricing
    fields of many models; normalizing it keeps, per model, only the settings that billing would use.
 */
module PricingSync {
  import opened Text

  datatype Field =
    | ModelRatio | CompletionRatio | CacheRatio | CreateCacheRatio
    | ImageRatio | AudioRatio | AudioCompletionRatio | ModelPrice
    | BillingMode | BillingExpr

  predicate Numeric(f: Field) {
    f != BillingMode && f != BillingExpr
  }

  /** A decoded value: a finite number, a number that is NaN or infinite, a string, or anything else. */
  datatype Value = Number(r: real) | NotFinite | Str(s: string) | Other(id: int)

  const RATIO := "ratio"
  const TIERED := "tiered_expr"

  datatype Cell = Cell(field: Field, name: string)

  /** The maps `data[field][name]`, as one map. */
  type Table = map<Cell, Value>

  /** One model's fields. */
  type Row = map<Field, Value>

  function RowOf(t: Table, name: string): Row {
    map f: Field | Cell(f, name) in t :: t[Cell(f, name)]
  }

  predicate ValidEntry(f: Field, v: Value) {
    Numeric(f) ==> v.Number? && v.r >= 0.0
  }

  /** The entries that are kept at all: numeric fields need a finite number that is not negative. */
  function CleanRow(r: Row): Row {
    map f | f in r && ValidEntry(f, r[f]) :: r[f]
  }

  function Expression(r: Row): string {
    if BillingExpr in r && r[BillingExpr].Str? then TrimSpace(r[BillingExpr].s) else ""
  }

  predicate IsTiered(r: Row) {
    BillingMode in r && r[BillingMode] == Str(TIERED)
  }

  /** What billing would use of a model's settings: its expression alone, or its fixed price alone, or
      its ratios, or nothing. */
  function EffectiveRow(r: Row): Row {
    var c := CleanRow(r);
    if IsTiered(c) then
      if Expression(c) == "" then map[] else map[BillingMode := Str(TIERED), BillingExpr := Str(Expression(c))]
    else if ModelPrice in c then map[BillingMode := Str(RATIO), ModelPrice := c[ModelPrice]]
    else if ModelRatio in c then (map f | f in c && Numeric(f) :: c[f])[BillingMode := Str(RATIO)]
    else map[]
  }

  function Without(t: Table, name: string, drop: set<Field>): Table {
    map c | c in t && !(c.name == name && c.field in drop) :: t[c]
  }

  function AllFields(): set<Field> {
    {ModelRatio, CompletionRatio, CacheRatio, CreateCacheRatio, ImageRatio, AudioRatio, AudioCompletionRatio, ModelPrice,
     BillingMode, BillingExpr}
  }

  function NumericFields(): set<Field> {
    AllFields() - {BillingMode, BillingExpr}
  }

  lemma WithoutRow(t: Table, name: string, drop: set<Field>, other: string)
    ensures RowOf(Without(t, name, drop), other) == if other == name then RowOf(t, name) - drop else RowOf(t, other)
  {
  }

  lemma UpdateRow(t: Table, f: Field, name: string, v: Value, other: string)
    ensures RowOf(t[Cell(f, name) := v], other) == if other == name then RowOf(t, name)[f := v] else RowOf(t, other)
  {
    hide RowOf;
    var t' := t[Cell(f, name) := v];
    var row, want := RowOf(t', other), if other == name then RowOf(t, name)[f := v] else RowOf(t, other);
    forall g: Field ensures (g in row <==> g in want) && (g in row ==> row[g] == want[g]) {
      RowCell(t', Cell(g, other));
      RowCell(t, Cell(g, other));
    }
    assert row.Keys == want.Keys;
  }

  lemma FieldsAreAll(f: Field)
    ensures f in AllFields() && (f in NumericFields() <==> Numeric(f))
  {
  }

  /** Removes from one model what billing would not use. */
  method KeepEffective(t: Table, name: string) returns (t': Table)
    requires CleanRow(RowOf(t, name)) == RowOf(t, name)
    ensures forall other :: RowOf(t', other) == if other == name then EffectiveRow(RowOf(t, name)) else RowOf(t, other)
  {
    hide Without, RowOf, CleanRow, TrimSpace;
    var row := RowOf(t, name);
    FieldsNamed();
    if IsTiered(row) {
      var expression := Expression(row);
      if expression == "" {
        t' := Without(t, name, AllFields());
        forall other ensures RowOf(t', other) == if other == name then EffectiveRow(row) else RowOf(t, other) {
          WithoutRow(t, name, AllFields(), other);
        }
        return;
      }
      var trimmed := t[Cell(BillingExpr, name) := Str(expression)];
      t' := Without(trimmed, name, NumericFields());
      forall other ensures RowOf(t', other) == if other == name then EffectiveRow(row) else RowOf(t, other) {
        UpdateRow(t, BillingExpr, name, Str(expression), other);
        WithoutRow(trimmed, name, NumericFields(), other);
        assert RowOf(t', name) == (row[BillingExpr := Str(expression)]) - NumericFields() by {
          UpdateRow(t, BillingExpr, name, Str(expression), name);
          WithoutRow(trimmed, name, NumericFields(), name);
        }
      }
      return;
    }
    var plain := Without(t, name, {BillingExpr});
    var rated := plain[Cell(BillingMode, name) := Str(RATIO)];
    var fixed := Cell(ModelPrice, name) in rated;
    var token := Cell(ModelRatio, name) in rated;
    var drop := if !fixed && !token then AllFields() else if fixed then NumericFields() - {ModelPrice} else {};
    t' := Without(rated, name, drop);
    assert fixed == (ModelPrice in row) && token == (ModelRatio in row) by { PlainCells(t, name); }
    forall other ensures RowOf(t', other) == if other == name then EffectiveRow(row) else RowOf(t, other) {
      WithoutRow(t, name, {BillingExpr}, other);
      UpdateRow(plain, BillingMode, name, Str(RATIO), other);
      WithoutRow(rated, name, drop, other);
    }
  }

  lemma FieldsNamed()
    ensures forall f: Field :: f in AllFields() && (f in NumericFields() <==> Numeric(f))
  {
    forall f: Field ensures f in AllFields() && (f in NumericFields() <==> Numeric(f)) { FieldsAreAll(f); }
  }

  lemma PlainCells(t: Table, name: string)
    ensures
      var rated := Without(t, name, {BillingExpr})[Cell(BillingMode, name) := Str(RATIO)];
      && (Cell(ModelPrice, name) in rated <==> ModelPrice in RowOf(t, name))
      && (Cell(ModelRatio, name) in rated <==> ModelRatio in RowOf(t, name))
  {
  }

  /** Copies the entries worth keeping, and collects the models they belong to. */
  method Admit(data: Table) returns (t: Table, names: set<string>)
    ensures forall c :: c in t <==> c in data && ValidEntry(c.field, data[c])
    ensures forall c :: c in t ==> t[c] == data[c] && c.name in names
  {
    t, names := map[], {};
    var rest := data.Keys;
    while rest != {}
      invariant rest <= data.Keys
      invariant forall c :: c in t <==> c in data && c !in rest && ValidEntry(c.field, data[c])
      invariant forall c :: c in t ==> t[c] == data[c] && c.name in names
      decreases |rest|
    {
      var c :| c in rest;
      rest := rest - {c};
      if ValidEntry(c.field, data[c]) {
        t := t[c := data[c]];
        names := names + {c.name};
      }
    }
  }

  /** Normalizes a table model by model; the order the models are visited in does not matter. */
  method Normalize(data: Table) returns (t: Table)
    ensures t == Effective(data)
  {
    hide EffectiveRow, CleanRow, RowOf, Effective;
    var names;
    t, names := Admit(data);
    CleanTable(data, t, names);
    var rest := names;
    while rest != {}
      invariant rest <= names
      invariant forall name :: name !in names || name in rest ==> RowOf(t, name) == CleanRow(RowOf(data, name))
      invariant forall name :: name in names && name !in rest ==> RowOf(t, name) == EffectiveRow(RowOf(data, name))
      decreases |rest|
    {
      var name :| name in rest;
      CleanTwice(RowOf(data, name));
      rest := rest - {name};
      t := KeepEffective(t, name);
    }
    forall name | name !in names ensures RowOf(t, name) == EffectiveRow(RowOf(data, name)) {
      EmptyRow(RowOf(data, name));
    }
    TableIsItsRows(t, data);
  }

  lemma CleanTable(data: Table, t: Table, names: set<string>)
    requires forall c :: c in t <==> c in data && ValidEntry(c.field, data[c])
    requires forall c :: c in t ==> t[c] == data[c] && c.name in names
    ensures forall name :: RowOf(t, name) == CleanRow(RowOf(data, name))
    ensures forall name :: name !in names ==> CleanRow(RowOf(data, name)) == map[]
  {
    hide ValidEntry;
    forall name | name !in names ensures RowOf(t, name) == map[] {
      assert forall f: Field :: Cell(f, name) in t ==> Cell(f, name).name in names;
    }
  }

  lemma CleanTwice(r: Row)
    ensures CleanRow(CleanRow(r)) == CleanRow(r)
    ensures EffectiveRow(CleanRow(r)) == EffectiveRow(r)
  {
  }

  lemma EmptyRow(r: Row)
    requires CleanRow(r) == map[]
    ensures EffectiveRow(r) == map[]
  {
  }

  // ---------------------------------------------------------------------------
  // What normalizing means
  // ---------------------------------------------------------------------------

  /** The whole normalized table. */
  ghost function Effective(data: Table): (t: Table)
    ensures forall f: Field, name :: Cell(f, name) in t <==> f in EffectiveRow(RowOf(data, name))
    ensures forall c :: c in t ==> t[c] == EffectiveRow(RowOf(data, c.name))[c.field]
  {
    var cells := set c, f: Field | c in data && f in AllFields() && f in EffectiveRow(RowOf(data, c.name)) :: Cell(f, c.name);
    var t := map c | c in cells :: EffectiveRow(RowOf(data, c.name))[c.field];
    assert forall f: Field, name :: f in EffectiveRow(RowOf(data, name)) ==> Cell(f, name) in cells by {
      forall f: Field, name | f in EffectiveRow(RowOf(data, name)) ensures Cell(f, name) in cells {
        FieldsAreAll(f);
        var g := Witness(RowOf(data, name));
        assert Cell(g, name) in data;
      }
    }
    t
  }

  lemma Witness(r: Row) returns (g: Field)
    requires EffectiveRow(r) != map[]
    ensures g in r
  {
    var c := CleanRow(r);
    assert c != map[];
    g :| g in c;
  }

  /** The method computes it: a table is known by its rows. */
  lemma TableIsItsRows(t: Table, data: Table)
    requires forall name :: RowOf(t, name) == EffectiveRow(RowOf(data, name))
    ensures t == Effective(data)
  {
    hide EffectiveRow, RowOf, Effective;
    var e := Effective(data);
    forall c: Cell ensures (c in t <==> c in e) && (c in t ==> t[c] == e[c]) {
      RowCell(t, c);
      RowCell(e, c);
      EffectiveCell(data, c);
    }
    assert t.Keys == e.Keys;
  }

  lemma RowCell(t: Table, c: Cell)
    ensures c in t <==> c.field in RowOf(t, c.name)
    ensures c in t ==> t[c] == RowOf(t, c.name)[c.field]
  {
    assert c == Cell(c.field, c.name);
  }

  lemma EffectiveCell(data: Table, c: Cell)
    ensures c in Effective(data) <==> c.field in EffectiveRow(RowOf(data, c.name))
    ensures c in Effective(data) ==> Effective(data)[c] == EffectiveRow(RowOf(data, c.name))[c.field]
  {
    hide EffectiveRow;
    assert c == Cell(c.field, c.name);
  }

  lemma EffectiveRows(data: Table, name: string)
    ensures RowOf(Effective(data), name) == EffectiveRow(RowOf(data, name))
  {
    hide EffectiveRow, RowOf, Effective;
    var row, want := RowOf(Effective(data), name), EffectiveRow(RowOf(data, name));
    forall f: Field ensures (f in row <==> f in want) && (f in row ==> row[f] == want[f]) {
      RowCell(Effective(data), Cell(f, name));
      EffectiveCell(data, Cell(f, name));
    }
    assert row.Keys == want.Keys;
  }

  /** A usable number. */
  predicate Usable(r: Row, f: Field) {
    f in r && r[f].Number? && r[f].r >= 0.0
  }

  /** Exactly what is kept of a model, mode by mode: an expression excludes everything else and a blank one
      excludes the model; otherwise a fixed price excludes the ratios, a ratio keeps every usable number,
      and without either the model is gone. */
  lemma EffectiveRowIs(r: Row)
    ensures
      var e := EffectiveRow(r);
      var tiered := BillingMode in r && r[BillingMode] == Str("tiered_expr");
      var text := if BillingExpr in r && r[BillingExpr].Str? then TrimSpace(r[BillingExpr].s) else "";
      && (tiered && text != "" ==> e == map[BillingMode := Str("tiered_expr"), BillingExpr := Str(text)])
      && (tiered && text == "" ==> e == map[])
      && (!tiered && Usable(r, ModelPrice) ==> e == map[BillingMode := Str("ratio"), ModelPrice := r[ModelPrice]])
      && (!tiered && !Usable(r, ModelPrice) && !Usable(r, ModelRatio) ==> e == map[])
      && (!tiered && !Usable(r, ModelPrice) && Usable(r, ModelRatio) ==>
            && BillingMode in e && e[BillingMode] == Str("ratio") && BillingExpr !in e
            && forall f :: f != BillingMode && f != BillingExpr ==> (f in e <==> Usable(r, f)) && (f in e ==> e[f] == r[f]))
  {
    hide TrimSpace;
    var c := CleanRow(r);
    assert forall f :: f != BillingMode && f != BillingExpr ==> (f in c <==> Usable(r, f));
    assert (BillingMode in c <==> BillingMode in r) && (BillingExpr in c <==> BillingExpr in r);
  }

  predicate ExpressionOnly(r: Row) {
    && r.Keys == {BillingMode, BillingExpr} && r[BillingMode] == Str(TIERED)
    && r[BillingExpr].Str? && r[BillingExpr].s != "" && TrimSpace(r[BillingExpr].s) == r[BillingExpr].s
  }

  predicate FixedPrice(r: Row) {
    r.Keys == {BillingMode, ModelPrice} && r[BillingMode] == Str(RATIO) && ValidEntry(ModelPrice, r[ModelPrice])
  }

  predicate TokenRatio(r: Row) {
    && BillingMode in r && r[BillingMode] == Str(RATIO) && ModelRatio in r && ModelPrice !in r && BillingExpr !in r
    && forall f :: f in r ==> ValidEntry(f, r[f])
  }

  /** Every surviving model is in exactly one of three shapes. */
  lemma ThreeShapes(r: Row)
    ensures
      var e := EffectiveRow(r);
      && (e == map[] || ExpressionOnly(e) || FixedPrice(e) || TokenRatio(e))
      && !(ExpressionOnly(e) && FixedPrice(e)) && !(FixedPrice(e) && TokenRatio(e)) && !(TokenRatio(e) && ExpressionOnly(e))
  {
    hide TrimSpace;
    var c := CleanRow(r);
    if IsTiered(c) && BillingExpr in c && c[BillingExpr].Str? {
      TrimSettles(c[BillingExpr].s);
    }
  }

  /** A row in one of the three shapes is already what billing would use. */
  lemma ShapesAreFixed(e: Row)
    requires e == map[] || ExpressionOnly(e) || FixedPrice(e) || TokenRatio(e)
    ensures EffectiveRow(e) == e
  {
    hide TrimSpace;
    assert CleanRow(e) == e;
  }

  /** Normalizing twice is normalizing once. */
  lemma NormalizeIsIdempotent(data: Table)
    ensures Effective(Effective(data)) == Effective(data)
  {
    hide EffectiveRow, RowOf, Effective;
    var once := Effective(data);
    forall name ensures RowOf(once, name) == EffectiveRow(RowOf(once, name)) {
      EffectiveRows(data, name);
      ThreeShapes(RowOf(data, name));
      ShapesAreFixed(RowOf(once, name));
    }
    TableIsItsRows(once, once);
  }

  /** A model's normalized settings depend on that model's settings alone. */
  lemma ModelsAreIndependent(data: Table, data': Table, name: string)
    requires RowOf(data, name) == RowOf(data', name)
    ensures RowOf(Effective(data), name) == RowOf(Effective(data'), name)
  {
    hide EffectiveRow, RowOf, Effective;
    EffectiveRows(data, name);
    EffectiveRows(data', name);
  }
}
