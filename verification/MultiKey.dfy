/** A channel with several keys: one text that holds the keys, and three maps keyed by a key's position
    that hold its status and why it was disabled. Deleting keys shifts positions, so the maps are
    rebuilt with the list.
 */
module MultiKey {
  import opened Basics
  import opened Text
  import UpstreamModels

  const ENABLED := 1
  const MANUALLY_DISABLED := 2
  const AUTO_DISABLED := 3

  datatype Marks = Marks(status: map<int, int>, time: map<int, int>, reason: map<int, string>)

  /** What the status view shows for a key; its index is its position in the list. */
  datatype KeyRow = KeyRow(key: string, status: int, time: int, reason: string)

  function StatusAt(m: Marks, i: int): int {
    if i in m.status then m.status[i] else ENABLED
  }

  function RowAt(key: string, m: Marks, i: int): KeyRow {
    var status := StatusAt(m, i);
    KeyRow(key, status,
           if status != ENABLED && i in m.time then m.time[i] else 0,
           if status != ENABLED && i in m.reason then m.reason[i] else "")
  }

  /** A key disabled by hand; a time and a reason recorded earlier show again. */
  function DisabledRow(key: string, m: Marks, i: int): KeyRow {
    KeyRow(key, MANUALLY_DISABLED, if i in m.time then m.time[i] else 0, if i in m.reason then m.reason[i] else "")
  }

  function Rows(keys: seq<string>, m: Marks): (rows: seq<KeyRow>)
    ensures |rows| == |keys|
    ensures forall i :: 0 <= i < |keys| ==> rows[i] == RowAt(keys[i], m, i)
  {
    seq(|keys|, i requires 0 <= i < |keys| => RowAt(keys[i], m, i))
  }

  /** Every mark belongs to one of the first `n` keys. */
  predicate InRange(m: Marks, n: int) {
    && (forall i :: i in m.status ==> 0 <= i < n)
    && (forall i :: i in m.time ==> 0 <= i < n)
    && (forall i :: i in m.reason ==> 0 <= i < n)
  }

  // ---------------------------------------------------------------------------
  // The key text
  // ---------------------------------------------------------------------------

  type Parser = string -> Option<seq<string>>

  /** The text is a JSON array, as far as the parser can read one. */
  predicate Bracketed(key: string, parse: Parser) {
    TrimSpace(key) != "" && TrimSpace(key)[0] == '[' && parse(TrimSpace(key)).Some?
  }

  function Lines(key: string): seq<string> {
    Split(TrimBy(key, Cut('\n')), '\n')
  }

  function KeyList(key: string, parse: Parser): seq<string> {
    if key == "" then [] else if Bracketed(key, parse) then parse(TrimSpace(key)).value else Lines(key)
  }

  /** The count that saving a channel stores: an empty array is read as one line. */
  function KeyCount(key: string, parse: Parser): nat {
    if key == "" then 0
    else if Bracketed(key, parse) && parse(TrimSpace(key)).value != [] then |parse(TrimSpace(key)).value|
    else |Lines(key)|
  }

  predicate OneLine(keys: seq<string>) {
    forall i :: 0 <= i < |keys| ==> '\n' !in keys[i]
  }

  /** Neither end of the list is an empty key. */
  predicate FullEnds(keys: seq<string>) {
    keys == [] || (keys[0] != "" && keys[|keys| - 1] != "")
  }

  lemma LinesOneLine(key: string)
    ensures OneLine(Lines(key)) && Lines(key) != []
  {
    hide Split, TrimBy;
    SplitParts(TrimBy(key, Cut('\n')), '\n');
  }

  /** Reading a text gives full ends, except that blank text reads as one empty key. */
  lemma LinesFullEnds(key: string)
    ensures Lines(key) == [""] || FullEnds(Lines(key))
  {
    hide TrimBy;
    var s := TrimBy(key, Cut('\n'));
    TrimIsTight(key, Cut('\n'));
    if s != "" {
      var k := |s| - 1;
      assert s == s[..k] + [s[k]];
      SplitSnoc(s[..k], s[k], '\n');
      ExtendLastShape(Split(s[..k], '\n'), s[k]);
    }
  }

  /** What a list must be for its stored text to read back as that list: when the text parses as an
      array, the list it parses to; otherwise, keys without line breaks and with none empty at either
      end. */
  predicate Storable(keys: seq<string>, parse: Parser) {
    var text := Join(keys, '\n');
    if Bracketed(text, parse) then parse(TrimSpace(text)).value == keys else OneLine(keys) && FullEnds(keys)
  }

  /** Storing a list and reading it back returns it iff it is storable. */
  lemma ReadBackIff(keys: seq<string>, parse: Parser)
    ensures KeyList(Join(keys, '\n'), parse) == keys <==> Storable(keys, parse)
  {
    hide TrimSpace, Bracketed, TrimBy;
    var s := Join(keys, '\n');
    if Bracketed(s, parse) {
      BracketedText(s, parse);
    } else if !OneLine(keys) {
      LinesOneLine(s);
    } else if keys != [] {
      JoinEnds(keys, '\n');
      if FullEnds(keys) {
        TrimIsTight(s, Cut('\n'));
        SplitJoin(keys, '\n');
      } else if s != "" {
        LinesFullEnds(s);
        OneEmptyKey(keys);
      }
    }
  }

  lemma BracketedText(key: string, parse: Parser)
    requires Bracketed(key, parse)
    ensures key != "" && KeyList(key, parse) == parse(TrimSpace(key)).value
  {
  }

  /** A pretty-printed array gives keys that contain line breaks: stored as lines, one of them falls
      apart although no key is empty. */
  lemma LineBreakFallsApart(parse: Parser)
    ensures
      var keys := ["{\n}", "1"];
      FullEnds(keys) && KeyList(Join(keys, '\n'), parse) != keys
  {
    hide KeyList;
    var keys := ["{\n}", "1"];
    var text := Join(keys, '\n');
    assert text == "{\n}\n1";
    TrimIsTight(text, IsSpace);
    assert keys[0][1] == '\n';
    ReadBackIff(keys, parse);
  }

  lemma OneEmptyKey(keys: seq<string>)
    ensures keys == [""] ==> Join(keys, '\n') == ""
  {
  }

  // ---------------------------------------------------------------------------
  // Compaction
  // ---------------------------------------------------------------------------

  function Without<T>(s: seq<T>, k: int): seq<T> {
    if 0 <= k < |s| then s[..k] + s[k + 1..] else s
  }

  /** One element goes, and those behind it move up by one. */
  lemma WithoutIs<T>(s: seq<T>, k: nat, i: nat)
    requires k < |s|
    ensures |Without(s, k)| == |s| - 1
    ensures i < |s| - 1 ==> Without(s, k)[i] == if i < k then s[i] else s[i + 1]
  {
  }

  /** The rows that deleting the automatically disabled keys leaves. */
  function NotAutoDisabled(rows: seq<KeyRow>): seq<KeyRow> {
    if rows == [] then []
    else
      var front, last := NotAutoDisabled(rows[..|rows| - 1]), rows[|rows| - 1];
      if last.status == AUTO_DISABLED then front else front + [last]
  }

  /** The positions of the rows whose status is not three, in order. */
  function Kept(rows: seq<KeyRow>): seq<nat> {
    if rows == [] then []
    else
      var n := |rows| - 1;
      if rows[n].status != 3 then Kept(rows[..n]) + [n] else Kept(rows[..n])
  }

  lemma {:induction false} KeptPositions(rows: seq<KeyRow>, i: nat)
    ensures forall k :: 0 <= k < |Kept(rows)| ==> Kept(rows)[k] < |rows|
    ensures i < |rows| ==> (i in Kept(rows) <==> rows[i].status != 3)
  {
    if rows != [] {
      var n := |rows| - 1;
      KeptPositions(rows[..n], i);
      if i < n { assert rows[..n][i] == rows[i]; }
    }
  }

  lemma {:induction false} KeptInOrder(rows: seq<KeyRow>)
    ensures forall j, k :: 0 <= j < k < |Kept(rows)| ==> Kept(rows)[j] < Kept(rows)[k]
  {
    if rows != [] {
      KeptInOrder(rows[..|rows| - 1]);
      KeptPositions(rows[..|rows| - 1], 0);
    }
  }

  lemma {:induction false} KeptAt(rows: seq<KeyRow>, k: nat)
    ensures |NotAutoDisabled(rows)| == |Kept(rows)|
    ensures k < |Kept(rows)| ==> Kept(rows)[k] < |rows| && NotAutoDisabled(rows)[k] == rows[Kept(rows)[k]]
  {
    if rows != [] { KeptAt(rows[..|rows| - 1], k); }
  }

  /** Exactly which rows stay: those whose status is not three, in their order. */
  lemma RowsThatStay(rows: seq<KeyRow>)
    ensures
      var kept, left := Kept(rows), NotAutoDisabled(rows);
      && |left| == |kept|
      && (forall k :: 0 <= k < |kept| ==> kept[k] < |rows| && left[k] == rows[kept[k]])
      && (forall j, k :: 0 <= j < k < |kept| ==> kept[j] < kept[k])
      && (forall i :: 0 <= i < |rows| ==> (i in kept <==> rows[i].status != 3))
  {
    hide Kept, NotAutoDisabled;
    KeptInOrder(rows);
    KeptAt(rows, 0);
    forall k | 0 <= k < |Kept(rows)| ensures Kept(rows)[k] < |rows| && NotAutoDisabled(rows)[k] == rows[Kept(rows)[k]] {
      KeptAt(rows, k);
    }
    forall i | 0 <= i < |rows| ensures i in Kept(rows) <==> rows[i].status != 3 { KeptPositions(rows, i); }
  }

  function KeysOf(rows: seq<KeyRow>): seq<string> {
    seq(|rows|, i requires 0 <= i < |rows| => rows[i].key)
  }

  /** `b` is `a` apart from position `n`. */
  ghost predicate SameElsewhere(a: Marks, b: Marks, n: int) {
    && (forall i :: i != n ==> (i in a.status <==> i in b.status) && (i in a.status ==> a.status[i] == b.status[i]))
    && (forall i :: i != n ==> (i in a.time <==> i in b.time) && (i in a.time ==> a.time[i] == b.time[i]))
    && (forall i :: i != n ==> (i in a.reason <==> i in b.reason) && (i in a.reason ==> a.reason[i] == b.reason[i]))
  }

  lemma RowsSnoc(rest: seq<string>, a: Marks, key: string, b: Marks)
    requires InRange(a, |rest|) && SameElsewhere(a, b, |rest|)
    ensures Rows(rest + [key], b) == Rows(rest, a) + [RowAt(key, b, |rest|)]
    ensures InRange(b, |rest| + 1)
  {
    var grown := Rows(rest + [key], b);
    assert forall i :: 0 <= i < |rest| ==> grown[i] == Rows(rest, a)[i];
  }

  /** The loop of `delete_key`. */
  method DropKey(keys: seq<string>, m: Marks, k: int) returns (rest: seq<string>, left: Marks)
    ensures rest == Without(keys, k)
    ensures Rows(rest, left) == Without(Rows(keys, m), k)
    ensures InRange(left, |rest|)
  {
    hide Rows, RowAt, SameElsewhere;
    rest, left := [], Marks(map[], map[], map[]);
    ghost var rows := Rows(keys, m);
    for i := 0 to |keys|
      invariant rest == Without(keys[..i], k)
      invariant Rows(rest, left) == Without(rows[..i], k)
      invariant InRange(left, |rest|)
    {
      if i != k {
        var n := |rest|;
        var next := Moved(left, n, m, i);
        MovedRow(left, n, m, i, keys[i]);
        RowsSnoc(rest, left, keys[i], next);
        WithoutSnoc(keys, i, k);
        WithoutSnoc(rows, i, k);
        rest := rest + [keys[i]];
        left := next;
      } else {
        assert keys[..i + 1][..i] + keys[..i + 1][i + 1..] == keys[..i];
        assert rows[..i + 1][..i] + rows[..i + 1][i + 1..] == rows[..i];
      }
    }
    assert keys[..|keys|] == keys && rows[..|rows|] == rows;
  }

  /** The marks of position `i` carried to position `n`, except a status that says enabled. */
  function Moved(left: Marks, n: int, m: Marks, i: int): Marks {
    Marks(if i in m.status && m.status[i] != ENABLED then left.status[n := m.status[i]] else left.status,
          if i in m.time then left.time[n := m.time[i]] else left.time,
          if i in m.reason then left.reason[n := m.reason[i]] else left.reason)
  }

  lemma MovedRow(left: Marks, n: nat, m: Marks, i: int, key: string)
    requires InRange(left, n)
    ensures SameElsewhere(left, Moved(left, n, m, i), n)
    ensures RowAt(key, Moved(left, n, m, i), n) == RowAt(key, m, i)
  {
  }

  lemma WithoutSnoc<T>(s: seq<T>, i: nat, k: int)
    requires i < |s| && i != k
    ensures Without(s[..i + 1], k) == Without(s[..i], k) + [s[i]]
  {
    if 0 <= k < i {
      assert s[..i + 1][..k] == s[..k] == s[..i][..k];
      assert s[..i + 1][k + 1..] == s[k + 1..i + 1] == s[k + 1..i] + [s[i]];
      assert s[..i][k + 1..] == s[k + 1..i];
    }
  }

  /** The loop of `delete_disabled_keys`: marks are carried for keys that stay disabled. */
  method DropAutoDisabled(keys: seq<string>, m: Marks) returns (rest: seq<string>, left: Marks, deleted: nat)
    ensures Rows(rest, left) == NotAutoDisabled(Rows(keys, m))
    ensures InRange(left, |rest|)
    ensures deleted == |keys| - |rest|
  {
    hide Rows, RowAt, SameElsewhere;
    rest, left, deleted := [], Marks(map[], map[], map[]), 0;
    ghost var rows := Rows(keys, m);
    for i := 0 to |keys|
      invariant Rows(rest, left) == NotAutoDisabled(rows[..i])
      invariant InRange(left, |rest|)
      invariant deleted == i - |rest|
    {
      assert rows[..i + 1][..i] == rows[..i];
      assert rows[i] == RowAt(keys[i], m, i);
      var status := StatusAt(m, i);
      StatusOfRow(keys[i], m, i);
      if status == AUTO_DISABLED {
        deleted := deleted + 1;
      } else {
        var n := |rest|;
        var next := left;
        if status != ENABLED {
          next := Moved(left, n, m, i);
          MovedRow(left, n, m, i, keys[i]);
        } else {
          EnabledRow(left, n, m, i, keys[i]);
        }
        RowsSnoc(rest, left, keys[i], next);
        rest := rest + [keys[i]];
        left := next;
      }
    }
    assert rows[..|rows|] == rows;
  }

  lemma StatusOfRow(key: string, m: Marks, i: int)
    ensures RowAt(key, m, i).status == StatusAt(m, i) && RowAt(key, m, i).key == key
  {
  }

  lemma EnabledRow(left: Marks, n: nat, m: Marks, i: int, key: string)
    requires InRange(left, n) && StatusAt(m, i) == ENABLED
    ensures SameElsewhere(left, left, n)
    ensures RowAt(key, left, n) == RowAt(key, m, i)
  {
  }

  // ---------------------------------------------------------------------------
  // The channel and its actions
  // ---------------------------------------------------------------------------

  datatype Outcome = Done | NoIndex | OutOfRange | LastKey | NothingToDo

  class Channel {
    const parse: Parser
    var key: string
    var size: int
    var marks: Marks

    constructor (parse: Parser, key: string, marks: Marks)
      ensures this.parse == parse && this.key == key && this.marks == marks && size == KeyCount(key, parse)
    {
      this.parse, this.key, this.marks, size := parse, key, marks, KeyCount(key, parse);
    }

    function Keys(): seq<string>
      reads this
    {
      KeyList(key, parse)
    }

    function View(): seq<KeyRow>
      reads this
    {
      Rows(Keys(), marks)
    }

    /** The stored size is the number of keys, as saving counts them and as reading lists them. */
    predicate Valid()
      reads this
    {
      size == |Keys()| == KeyCount(key, parse)
    }

    /** Every mark belongs to a key. */
    predicate Aligned()
      reads this
    {
      InRange(marks, size)
    }

    /** Saving: an empty key text is not written, so the stored one stays; the size is recounted and
        statuses beyond it are dropped. */
    method Save(stored: string)
      modifies this
      ensures key == if old(key) == "" then stored else old(key)
      ensures size == KeyCount(key, parse)
      ensures marks == old(marks).(status := map i | i in old(marks).status && i < size :: old(marks).status[i])
      ensures Aligned() <==>
                && (forall i :: i in old(marks).status ==> i >= 0)
                && (forall i :: i in old(marks).time ==> 0 <= i < KeyCount(key, parse))
                && (forall i :: i in old(marks).reason ==> 0 <= i < KeyCount(key, parse))
    {
      if key == "" {
        key := stored;
      }
      size := KeyCount(key, parse);
      marks := marks.(status := map i | i in marks.status && i < size :: marks.status[i]);
      assert forall i :: i in old(marks).status && i < size ==> i in marks.status;
    }

    method DisableKey(index: Option<int>) returns (o: Outcome)
      requires Valid()
      modifies this
      ensures Valid() && Keys() == old(Keys()) && (old(Aligned()) ==> Aligned())
      ensures o == (if index.None? then NoIndex else if 0 <= index.value < old(size) then Done else OutOfRange)
      ensures o != Done ==> View() == old(View())
      ensures o == Done ==>
                && marks.time == old(marks.time) && marks.reason == old(marks.reason)
                && forall i :: 0 <= i < size ==>
                     View()[i] == if i == index.value then DisabledRow(Keys()[i], old(marks), i) else old(View())[i]
    {
      hide KeyList, KeyCount;
      if index.None? { return NoIndex; }
      if index.value < 0 || index.value >= size { return OutOfRange; }
      marks := marks.(status := marks.status[index.value := MANUALLY_DISABLED]);
      SizeIsCount(key, parse);
      Save(key);
      o := Done;
    }

    method EnableKey(index: Option<int>) returns (o: Outcome)
      requires Valid()
      modifies this
      ensures Valid() && Keys() == old(Keys()) && (old(Aligned()) ==> Aligned())
      ensures o == (if index.None? then NoIndex else if 0 <= index.value < old(size) then Done else OutOfRange)
      ensures o != Done ==> View() == old(View())
      ensures o == Done ==>
                forall i :: 0 <= i < size ==>
                  View()[i] == if i == index.value then KeyRow(Keys()[i], ENABLED, 0, "") else old(View())[i]
    {
      hide KeyList, KeyCount;
      if index.None? { return NoIndex; }
      if index.value < 0 || index.value >= size { return OutOfRange; }
      marks := Marks(marks.status - {index.value}, marks.time - {index.value}, marks.reason - {index.value});
      SizeIsCount(key, parse);
      Save(key);
      o := Done;
    }

    /** Deletes one key. The view loses that row, and every other row keeps its status, time and reason,
        iff the remaining list is storable. */
    method DeleteKey(index: Option<int>) returns (o: Outcome)
      requires Valid()
      modifies this
      ensures o == (if index.None? then NoIndex
                    else if !(0 <= index.value < old(size)) then OutOfRange
                    else if old(size) == 1 then LastKey else Done)
      ensures o != Done ==> Valid() && Keys() == old(Keys()) && View() == old(View())
      ensures
        var rest := Without(old(Keys()), if index.Some? then index.value else -1);
        o == Done ==>
          && (Keys() == rest <==> Storable(rest, parse))
          && (View() == Without(old(View()), index.value) <==> Storable(rest, parse))
          && (Storable(rest, parse) ==> Valid() && Aligned())
    {
      hide KeyList, KeyCount, Storable, Rows;
      if index.None? { return NoIndex; }
      if index.value < 0 || index.value >= size { return OutOfRange; }
      var rest, left := DropKey(Keys(), marks, index.value);
      if |rest| == 0 { return LastKey; }
      var stored := key;
      key := Join(rest, '\n');
      marks := left;
      StoredText(rest, parse);
      RowsKeys(rest, left);
      Save(stored);
      RowsKeys(Keys(), marks);
      o := Done;
    }

    /** Deletes the automatically disabled keys. The view keeps the other rows, in order and unchanged,
        iff some key stays and the remaining list is storable. When no key stays, the
        key text is not written while the marks are, so every key counts as enabled again. */
    method DeleteDisabledKeys() returns (o: Outcome, deleted: nat)
      requires Valid()
      modifies this
      ensures o == if NotAutoDisabled(old(View())) == old(View()) then NothingToDo else Done
      ensures o == NothingToDo ==> Valid() && Keys() == old(Keys()) && View() == old(View())
      ensures deleted == |old(View())| - |NotAutoDisabled(old(View()))|
      ensures
        var rows := NotAutoDisabled(old(View()));
        && (o == Done && rows == [] ==> Valid() && Aligned() && Keys() == old(Keys()) && AllEnabled(View()))
        && (o == Done ==>
              && (View() == rows <==> rows != [] && Storable(KeysOf(rows), parse))
              && (View() == rows ==> Valid() && Aligned() && Keys() == KeysOf(rows)))
    {
      hide KeyList, KeyCount, Storable, Rows, NotAutoDisabled, AllEnabled, Join;
      var rest, left;
      rest, left, deleted := DropAutoDisabled(Keys(), marks);
      ghost var rows := NotAutoDisabled(View());
      RowsKeys(rest, left);
      FilterShrinks(View());
      if deleted == 0 {
        return NothingToDo, deleted;
      }
      var stored := key;
      StoredStays(stored, parse);
      key := Join(rest, '\n');
      marks := left;
      EmptyText();
      if rest != [] {
        StoredText(rest, parse);
      }
      Save(stored);
      RowsKeys(Keys(), marks);
      if rest == [] {
        NoMarks(Keys(), marks);
      }
      o := Done;
    }

    method EnableAllKeys() returns (count: nat)
      requires Valid()
      modifies this
      ensures Valid() && Aligned() && Keys() == old(Keys())
      ensures AllEnabled(View()) && count == |old(marks.status)|
    {
      hide KeyList, KeyCount, Rows;
      NoMarks(Keys(), Marks(map[], map[], map[]));
      count := |marks.status|;
      marks := Marks(map[], map[], map[]);
      StoredStays(key, parse);
      Save(key);
    }

    /** Disables the enabled keys by hand; keys that are already disabled keep their rows. */
    method DisableAllKeys() returns (o: Outcome)
      requires Valid()
      modifies this
      ensures Valid() && Keys() == old(Keys()) && (old(Aligned()) ==> Aligned())
      ensures o == Done || o == NothingToDo
      ensures o == NothingToDo <==> forall i :: 0 <= i < |old(View())| ==> old(View())[i].status != ENABLED
      ensures marks.time == old(marks.time) && marks.reason == old(marks.reason)
      ensures forall i :: 0 <= i < size ==>
                View()[i] == if old(View())[i].status == ENABLED then DisabledRow(Keys()[i], old(marks), i) else old(View())[i]
    {
      hide KeyList, KeyCount;
      var status, count := DisableEnabled(marks, size);
      ghost var enabled :| count > 0 ==> 0 <= enabled < size && StatusAt(marks, enabled) == ENABLED;
      assert count > 0 ==> View()[enabled].status == ENABLED;
      if count == 0 {
        return NothingToDo;
      }
      marks := marks.(status := status);
      StoredStays(key, parse);
      Save(key);
      o := Done;
    }

    /** The status view: counts over all keys, and one page of the keys that match the filter. */
    method KeyStatus(page: int, pageSize: int, filter: Option<int>) returns (r: StatusPage)
      ensures
        var size := if pageSize <= 0 then DEFAULT_PAGE_SIZE else pageSize;
        var list := Matching(View(), filter);
        && r.pageSize == size && r.total == |list| && r.totalPages == TotalPages(|list|, size)
        && r.page == Clamp(page, r.totalPages) && r.keys == PageOf(list, r.page, size)
      ensures r.enabled == Count(View(), ENABLED) && r.manual == Count(View(), MANUALLY_DISABLED) && r.auto == Count(View(), AUTO_DISABLED)
    {
      hide Rows, KeyList, Matching, Count, PageOf, TotalPages;
      var at := if page <= 0 then 1 else page;
      var size := if pageSize <= 0 then DEFAULT_PAGE_SIZE else pageSize;
      var list, enabled, manual, auto := ScanKeys(View(), filter);
      var pages := TotalPages(|list|, size);
      if at > pages {
        at := pages;
      }
      r := StatusPage(PageOf(list, at, size), |list|, at, size, pages, enabled, manual, auto);
    }
  }

  // ---------------------------------------------------------------------------
  // The status view
  // ---------------------------------------------------------------------------

  const DEFAULT_PAGE_SIZE := 50

  datatype Listed = Listed(index: nat, row: KeyRow, preview: string)

  /** A key's first ten characters. */
  function Preview(key: string): string {
    if |key| > 10 then key[..10] + "..." else key
  }

  function Entry(index: nat, row: KeyRow): Listed {
    Listed(index, row, Preview(row.key))
  }

  datatype StatusPage = StatusPage(keys: seq<Listed>, total: nat, page: int, pageSize: int, totalPages: int,
                                   enabled: nat, manual: nat, auto: nat)

  function Matching(rows: seq<KeyRow>, filter: Option<int>): seq<Listed> {
    if rows == [] then []
    else
      var k := |rows| - 1;
      Matching(rows[..k], filter) + if filter.None? || rows[k].status == filter.value then [Entry(k, rows[k])] else []
  }

  function Count(rows: seq<KeyRow>, status: int): nat {
    if rows == [] then 0
    else Count(rows[..|rows| - 1], status) + if rows[|rows| - 1].status == status then 1 else 0
  }

  function TotalPages(n: nat, size: int): (pages: int)
    requires size > 0
    ensures pages >= 1
  {
    var pages := (n + size - 1) / size;
    if pages == 0 then 1 else pages
  }

  function Clamp(page: int, pages: int): int {
    if page <= 0 then 1 else if page > pages then pages else page
  }

  function PageOf(list: seq<Listed>, page: int, size: int): seq<Listed>
    requires page >= 1 && size > 0
  {
    var start := (page - 1) * size;
    if 0 <= start < |list| then list[start..if start + size > |list| then |list| else start + size] else []
  }

  function FirstPages(list: seq<Listed>, pages: nat, size: int): seq<Listed>
    requires size > 0
  {
    if pages == 0 then [] else FirstPages(list, pages - 1, size) + PageOf(list, pages, size)
  }

  lemma {:induction false} FirstPagesShape(list: seq<Listed>, pages: nat, size: int)
    requires size > 0
    ensures FirstPages(list, pages, size) == list[..if pages * size > |list| then |list| else pages * size]
  {
    if pages > 0 {
      FirstPagesShape(list, pages - 1, size);
      assert pages * size == (pages - 1) * size + size;
    }
  }

  /** The number of pages: one for an empty list, otherwise the fewest that hold it. */
  lemma TotalPagesIs(n: nat, size: int)
    requires size > 0
    ensures
      var pages := TotalPages(n, size);
      if n == 0 then pages == 1 else (pages - 1) * size < n <= pages * size
  {
    Covers(n, size);
    var a := n + size - 1;
    assert a / size * size <= a;
    assert (a / size - 1) * size == a / size * size - size;
  }

  /** The page shown is the one asked for when there is one of that number, else the first or the last. */
  lemma ClampIs(page: int, pages: int)
    requires pages >= 1
    ensures 1 <= Clamp(page, pages) <= pages
    ensures 1 <= page <= pages ==> Clamp(page, pages) == page
    ensures page < 1 ==> Clamp(page, pages) == 1
    ensures page > pages ==> Clamp(page, pages) == pages
  {
  }

  /** A page holds the entries from its start on, as many as fit. */
  lemma PageIs(list: seq<Listed>, page: int, size: int, i: nat)
    requires page >= 1 && size > 0
    ensures
      var start, shown := (page - 1) * size, PageOf(list, page, size);
      && |shown| == (if start >= |list| then 0 else if |list| - start < size then |list| - start else size)
      && (i < |shown| ==> shown[i] == list[start + i])
  {
    assert (page - 1) * size >= 0;
  }

  /** The keys with a status. */
  function Holders(rows: seq<KeyRow>, status: int): set<nat> {
    set i: nat | i < |rows| && rows[i].status == status
  }

  lemma HoldersGrow(rows: seq<KeyRow>, status: int)
    requires rows != []
    ensures
      var n := |rows| - 1;
      && n !in Holders(rows[..n], status)
      && Holders(rows, status) == if rows[n].status == status then Holders(rows[..n], status) + {n} else Holders(rows[..n], status)
  {
    var n := |rows| - 1;
    assert forall i :: 0 <= i < n ==> rows[..n][i] == rows[i];
  }

  /** The counts are the numbers of keys with each status. */
  lemma {:induction false} CountIs(rows: seq<KeyRow>, status: int)
    ensures Count(rows, status) == |Holders(rows, status)|
  {
    hide Holders;
    if rows == [] {
      NoHolders(status);
    } else {
      HoldersGrow(rows, status);
      CountIs(rows[..|rows| - 1], status);
    }
  }

  lemma NoHolders(status: int)
    ensures Holders([], status) == {}
  {
  }

  /** A short key is shown whole, a longer one by its first ten characters. */
  lemma PreviewIs(key: string)
    ensures |key| <= 10 ==> Preview(key) == key
    ensures |key| > 10 ==> |Preview(key)| == 13 && Preview(key)[..10] == key[..10] && Preview(key)[10..] == "..."
  {
  }

  /** The pages, one after the other, are the filtered list. */
  lemma PagesConcatenate(list: seq<Listed>, size: int)
    requires size > 0
    ensures FirstPages(list, TotalPages(|list|, size), size) == list
  {
    hide FirstPages;
    var pages := TotalPages(|list|, size);
    FirstPagesShape(list, pages, size);
    Covers(|list|, size);
  }

  lemma Covers(n: nat, size: int)
    requires size > 0
    ensures (n + size - 1) / size * size >= n
  {
    var a := n + size - 1;
    assert a == a / size * size + a % size;
  }

  /** Every listed key is in the view at its index, in order, and a key that matches is listed. */
  lemma {:induction false} MatchingIsExact(rows: seq<KeyRow>, filter: Option<int>)
    ensures
      var list := Matching(rows, filter);
      && (forall j :: 0 <= j < |list| ==> list[j].index < |rows| && list[j] == Entry(list[j].index, rows[list[j].index]))
      && (forall i, j :: 0 <= i < j < |list| ==> list[i].index < list[j].index)
      && (forall k :: 0 <= k < |rows| ==> ((filter.None? || rows[k].status == filter.value) <==> Entry(k, rows[k]) in list))
  {
    if rows != [] {
      var k := |rows| - 1;
      MatchingIsExact(rows[..k], filter);
      var front, list := Matching(rows[..k], filter), Matching(rows, filter);
      forall i | 0 <= i < |rows| ensures (filter.None? || rows[i].status == filter.value) <==> Entry(i, rows[i]) in list {
        if i < k { assert rows[..k][i] == rows[i]; }
      }
    }
  }

  /** The loop that disables the enabled keys among the first `size`. */
  method DisableEnabled(m: Marks, size: nat) returns (status: map<int, int>, count: nat)
    ensures forall j :: !(0 <= j < size) ==> (j in status <==> j in m.status) && (j in status ==> status[j] == m.status[j])
    ensures forall j :: 0 <= j < size ==> j in status
    ensures forall j :: 0 <= j < size ==> status[j] == if StatusAt(m, j) == ENABLED then MANUALLY_DISABLED else m.status[j]
    ensures count == 0 <==> forall j :: 0 <= j < size ==> StatusAt(m, j) != ENABLED
  {
    status, count := m.status, 0;
    var i := 0;
    while i < size
      invariant 0 <= i <= size
      invariant forall j :: i <= j || j < 0 ==> (j in status <==> j in m.status) && (j in status ==> status[j] == m.status[j])
      invariant forall j :: 0 <= j < i ==> j in status
      invariant forall j :: 0 <= j < i ==> status[j] == if StatusAt(m, j) == ENABLED then MANUALLY_DISABLED else m.status[j]
      invariant count == 0 <==> forall j :: 0 <= j < i ==> StatusAt(m, j) != ENABLED
    {
      if StatusAt(m, i) == ENABLED {
        status := status[i := MANUALLY_DISABLED];
        count := count + 1;
      }
      i := i + 1;
    }
  }

  /** The loop that lists the matching keys and counts all of them. */
  method ScanKeys(rows: seq<KeyRow>, filter: Option<int>) returns (list: seq<Listed>, enabled: nat, manual: nat, auto: nat)
    ensures list == Matching(rows, filter)
    ensures enabled == Count(rows, ENABLED) && manual == Count(rows, MANUALLY_DISABLED) && auto == Count(rows, AUTO_DISABLED)
  {
    list, enabled, manual, auto := [], 0, 0, 0;
    for i := 0 to |rows|
      invariant enabled == Count(rows[..i], ENABLED) && manual == Count(rows[..i], MANUALLY_DISABLED)
      invariant auto == Count(rows[..i], AUTO_DISABLED)
      invariant list == Matching(rows[..i], filter)
    {
      assert rows[..i + 1][..i] == rows[..i];
      match rows[i].status {
        case 1 => enabled := enabled + 1;
        case 2 => manual := manual + 1;
        case 3 => auto := auto + 1;
        case _ =>
      }
      if filter.None? || rows[i].status == filter.value {
        list := list + [Entry(i, rows[i])];
      }
    }
    assert rows[..|rows|] == rows;
  }

  lemma EmptyText()
    ensures Join([], '\n') == ""
  {
  }

  predicate AllEnabled(rows: seq<KeyRow>) {
    forall i :: 0 <= i < |rows| ==> rows[i] == KeyRow(rows[i].key, ENABLED, 0, "")
  }

  lemma NoMarks(keys: seq<string>, m: Marks)
    requires InRange(m, 0)
    ensures AllEnabled(Rows(keys, m))
  {
  }

  lemma RowsKeys(keys: seq<string>, m: Marks)
    ensures KeysOf(Rows(keys, m)) == keys
  {
  }

  lemma {:induction false} FilterShrinks(rows: seq<KeyRow>)
    ensures |NotAutoDisabled(rows)| <= |rows|
    ensures |NotAutoDisabled(rows)| == |rows| <==> NotAutoDisabled(rows) == rows
  {
    if rows != [] {
      FilterShrinks(rows[..|rows| - 1]);
      assert rows == rows[..|rows| - 1] + [rows[|rows| - 1]];
    }
  }

  lemma StoredStays(key: string, parse: Parser)
    ensures KeyList(key, parse) != [] ==> KeyCount(key, parse) == |KeyList(key, parse)|
    ensures key == "" ==> KeyCount(key, parse) == 0
    ensures KeyList(key, parse) == [] ==> key == "" || Bracketed(key, parse)
  {
    hide TrimSpace;
    if key != "" && !Bracketed(key, parse) { LinesOneLine(key); }
  }

  lemma SizeIsCount(key: string, parse: Parser)
    requires KeyList(key, parse) != []
    ensures KeyCount(key, parse) == |KeyList(key, parse)| && key != ""
  {
  }

  /** What a list stored as text reads back as. */
  lemma StoredText(rest: seq<string>, parse: Parser)
    requires rest != []
    ensures
      var text := Join(rest, '\n');
      && (KeyList(text, parse) == rest <==> Storable(rest, parse))
      && (Storable(rest, parse) ==> text != "" && KeyCount(text, parse) == |rest|)
      && (text == "" ==> rest == [""] && !Storable(rest, parse))
  {
    hide Bracketed, Lines, TrimSpace;
    ReadBackIff(rest, parse);
    JoinEnds(rest, '\n');
    if Join(rest, '\n') == "" { NotBracketed(parse); }
    if Bracketed(Join(rest, '\n'), parse) { BracketedText(Join(rest, '\n'), parse); }
  }

  lemma NotBracketed(parse: Parser)
    ensures !Bracketed("", parse)
  {
  }

  // ---------------------------------------------------------------------------
  // Appending keys
  // ---------------------------------------------------------------------------

  predicate StartsBracket(key: string) {
    TrimSpace(key) != "" && TrimSpace(key)[0] == '['
  }

  /** The keys that appending starts from. */
  function AppendBase(key: string, parse: Parser): seq<string> {
    if StartsBracket(key) then
      if parse(TrimSpace(key)).Some? then parse(TrimSpace(key)).value else []
    else Lines(key)
  }

  /** Appending starts from the keys the channel has, unless its text looks like an array and is not
      one: then it starts from none. */
  lemma AppendBaseIff(key: string, parse: Parser)
    requires key != ""
    ensures AppendBase(key, parse) == KeyList(key, parse) <==> !(StartsBracket(key) && parse(TrimSpace(key)).None?)
  {
    hide TrimSpace, Lines;
    LinesOneLine(key);
  }

  lemma NormalizeNext(s: seq<string>, t: seq<string>, raw: string)
    requires UpstreamModels.Normalize(s) == UpstreamModels.Normalize(t)
    ensures
      var name := TrimSpace(raw);
      UpstreamModels.Normalize(s + [raw]) == UpstreamModels.Normalize(if name == "" then t else t + [name])
  {
    hide TrimSpace;
    TrimSettles(raw);
    assert (s + [raw])[..|s + [raw]| - 1] == s;
    assert (t + [TrimSpace(raw)])[..|t + [TrimSpace(raw)]| - 1] == t;
  }

  /** Appends the keys in `input` that are not blank and not there yet, each once: together the old and
      the new keys have exactly the distinct names that the old keys and the input have. */
  method AppendKeys(existing: seq<string>, input: string) returns (all: seq<string>)
    ensures existing <= all
    ensures
      UpstreamModels.Normalize(existing + Split(input, '\n')) == UpstreamModels.Normalize(existing) + all[|existing|..]
  {
    hide TrimSpace, Split, UpstreamModels.Normalize;
    var inputs := Split(input, '\n');
    var newKeys := [];
    assert existing + inputs[..0] == existing + newKeys;
    for i := 0 to |inputs|
      invariant UpstreamModels.Normalize(existing + inputs[..i]) == UpstreamModels.Normalize(existing + newKeys)
      invariant forall k :: 0 <= k < |newKeys| ==> newKeys[k] != "" && TrimSpace(newKeys[k]) == newKeys[k]
    {
      NormalizeNext(existing + inputs[..i], existing + newKeys, inputs[i]);
      TrimSettles(inputs[i]);
      assert existing + inputs[..i] + [inputs[i]] == existing + inputs[..i + 1];
      var key := TrimSpace(inputs[i]);
      if key != "" {
        assert existing + newKeys + [key] == existing + (newKeys + [key]);
        newKeys := newKeys + [key];
      }
    }
    assert inputs[..|inputs|] == inputs;
    var added := Fresh(existing, newKeys);
    all := existing + added;
    assert all[|existing|..] == added;
  }

  /** The new keys that are not among the old ones or earlier new ones. */
  method Fresh(existing: seq<string>, newKeys: seq<string>) returns (added: seq<string>)
    requires forall k :: 0 <= k < |newKeys| ==> newKeys[k] != "" && TrimSpace(newKeys[k]) == newKeys[k]
    ensures UpstreamModels.Normalize(existing + newKeys) == UpstreamModels.Normalize(existing) + added
  {
    hide TrimSpace, UpstreamModels.Normalize;
    ghost var old' := UpstreamModels.Normalize(existing);
    var seen := SeenKeys(existing);
    added := [];
    assert existing + newKeys[..0] == existing;
    for i := 0 to |newKeys|
      invariant UpstreamModels.Normalize(existing + newKeys[..i]) == old' + added
      invariant forall x :: x in seen <==> x in old' + added
    {
      UpstreamModels.NormalizeSnoc(existing + newKeys[..i], newKeys[i]);
      assert existing + newKeys[..i] + [newKeys[i]] == existing + newKeys[..i + 1];
      if newKeys[i] !in seen {
        seen := seen + {newKeys[i]};
        assert old' + added + [newKeys[i]] == old' + (added + [newKeys[i]]);
        added := added + [newKeys[i]];
      }
    }
    assert newKeys[..|newKeys|] == newKeys;
  }

  method SeenKeys(existing: seq<string>) returns (seen: set<string>)
    ensures forall x :: x in seen <==> x in UpstreamModels.Normalize(existing)
  {
    hide TrimSpace;
    seen := {};
    for i := 0 to |existing|
      invariant forall x :: x in seen <==> x in UpstreamModels.Normalize(existing[..i])
    {
      assert existing[..i + 1][..|existing[..i + 1]| - 1] == existing[..i];
      var key := TrimSpace(existing[i]);
      if key != "" {
        seen := seen + {key};
      }
    }
    assert existing[..|existing|] == existing;
  }

  /** Appending to any text: the channel then has its old keys followed by the new ones, iff appending
      starts from its keys, and these have no line break and leave no empty key at either end; or, when
      the new text parses as an array, iff it parses to that list. */
  lemma AppendReadsBack(key: string, parse: Parser, added: seq<string>)
    requires key != "" && OneLine(added) && forall i :: 0 <= i < |added| ==> added[i] != ""
    ensures
      var base := AppendBase(key, parse);
      var text := Join(base + added, '\n');
      KeyList(text, parse) == KeyList(key, parse) + added <==>
      if Bracketed(text, parse) then parse(TrimSpace(text)).value == KeyList(key, parse) + added
      else base == KeyList(key, parse) && OneLine(base) && FullEnds(base + added)
  {
    hide Bracketed, TrimSpace, Lines, Join, OneLine, FullEnds, KeyList, AppendBase, StartsBracket;
    var base := AppendBase(key, parse);
    var text, keys := Join(base + added, '\n'), KeyList(key, parse);
    ReadBackIff(base + added, parse);
    if Bracketed(text, parse) {
      BracketedText(text, parse);
    } else if base == keys {
      OneLineParts(base, added);
    } else {
      AppendBaseIff(key, parse);
      BaseLost(key, parse);
      LinesOneLine(key);
      AddedStorable(added);
      assert base + added == added;
      assert |keys + added| > |added|;
    }
  }

  lemma BaseLost(key: string, parse: Parser)
    requires key != "" && StartsBracket(key) && parse(TrimSpace(key)).None?
    ensures KeyList(key, parse) == Lines(key) && AppendBase(key, parse) == []
  {
  }

  lemma OneLineParts(a: seq<string>, b: seq<string>)
    requires OneLine(b)
    ensures OneLine(a + b) <==> OneLine(a)
  {
    var c := a + b;
    assert forall i :: 0 <= i < |a| ==> c[i] == a[i];
    assert forall i :: |a| <= i < |c| ==> c[i] == b[i - |a|];
  }

  lemma AddedStorable(added: seq<string>)
    requires forall i :: 0 <= i < |added| ==> added[i] != ""
    ensures FullEnds(added)
  {
  }

  /** In the newline format that is so iff the text is more than blank lines. */
  lemma AppendToLinesReadsBack(key: string, parse: Parser, added: seq<string>)
    requires key != "" && !StartsBracket(key)
    requires OneLine(added) && forall i :: 0 <= i < |added| ==> added[i] != ""
    ensures
      var text := Join(Lines(key) + added, '\n');
      !Bracketed(text, parse) ==> (KeyList(text, parse) == KeyList(key, parse) + added <==> Lines(key) != [""])
  {
    hide Bracketed, TrimSpace, Lines, Join, OneLine, FullEnds;
    AppendReadsBack(key, parse, added);
    AppendBaseIff(key, parse);
    LinesOneLine(key);
    LinesFullEnds(key);
    if Lines(key) != [""] {
      EndsAppend(Lines(key), added);
    } else {
      BlankStart(added);
    }
  }

  /** An input: a text that looks like an array and is none. Appending "b" loses the key it has. */
  lemma AppendLosesAKey(parse: Parser)
    requires parse("[a").None?
    ensures KeyList("[a", parse) == ["[a"] && AppendBase("[a", parse) == []
  {
    TrimIsTight("[a", IsSpace);
    TrimIsTight("[a", Cut('\n'));
    SplitWhole("[a", '\n');
  }

  lemma BlankStart(added: seq<string>)
    ensures !FullEnds([""] + added)
  {
  }

  lemma EndsAppend(a: seq<string>, b: seq<string>)
    requires OneLine(a) && OneLine(b) && a != [] && FullEnds(a)
    requires forall i :: 0 <= i < |b| ==> b[i] != ""
    ensures OneLine(a + b) && FullEnds(a + b)
  {
    var c := a + b;
    assert forall i :: 0 <= i < |c| ==> c[i] == if i < |a| then a[i] else b[i - |a|];
  }

  /** The key text after appending; a channel without keys simply takes the input. */
  method AppendText(origin: string, input: string, parse: Parser) returns (key: string, added: seq<string>)
    ensures origin == "" ==> key == input
    ensures origin != "" ==>
              var base := AppendBase(origin, parse);
              && key == Join(base + added, '\n')
              && UpstreamModels.Normalize(base + Split(input, '\n')) == UpstreamModels.Normalize(base) + added
  {
    hide Join, Split, AppendBase, UpstreamModels.Normalize;
    added := [];
    if origin == "" {
      return input, added;
    }
    var base := AppendBase(origin, parse);
    var all := AppendKeys(base, input);
    added := all[|base|..];
    assert base + added == all;
    key := Join(all, '\n');
  }

  // ---------------------------------------------------------------------------
  // Runs in which marks do not stay with their keys
  // ---------------------------------------------------------------------------

  lemma TwoLines(parse: Parser, a: char, b: char)
    requires !IsSpace(a) && !IsSpace(b) && a != '[' && a != '\n' && b != '\n'
    ensures KeyList([a, '\n', b], parse) == [[a], [b]] && KeyCount([a, '\n', b], parse) == 2
    ensures KeyList([a], parse) == [[a]] && KeyCount([a], parse) == 1
  {
    var keys := [[a], [b]];
    assert Join(keys, '\n') == [a] + ['\n'] + [b] == [a, '\n', b];
    TrimIsTight([a, '\n', b], IsSpace);
    TrimIsTight([a], IsSpace);
    StoredText(keys, parse);
    StoredText([[a]], parse);
  }

  /** The second of two keys is disabled with a time and a reason. The text is replaced by the first key
      alone, a third key is appended and disabled by hand: it shows the time and the reason of the key
      that is gone, because saving drops statuses past the end and leaves times and reasons. */
  method LeftoverMarksShow(parse: Parser) returns (row: KeyRow, aligned: bool)
    ensures row == KeyRow("c", MANUALLY_DISABLED, 7, "expired") && !aligned
  {
    hide KeyList, KeyCount;
    TwoLines(parse, 'a', 'b');
    TwoLines(parse, 'a', 'c');
    var ch := new Channel(parse, "a\nb", Marks(map[1 := AUTO_DISABLED], map[1 := 7], map[1 := "expired"]));
    ch.key := "a";
    ch.Save("a\nb");
    aligned := ch.Aligned();
    ch.key := "a\nc";
    ch.Save("a");
    var _ := ch.DisableKey(Some(1));
    row := ch.View()[1];
  }

  /** A channel whose only key is automatically disabled: deleting the disabled keys reports one deleted
      and leaves the key, enabled. */
  method DeletingTheOnlyKeyEnablesIt(parse: Parser) returns (deleted: nat, view: seq<KeyRow>)
    ensures deleted == 1 && view == [KeyRow("a", ENABLED, 0, "")]
  {
    hide KeyList, KeyCount;
    TwoLines(parse, 'a', 'b');
    var ch := new Channel(parse, "a", Marks(map[0 := AUTO_DISABLED], map[], map[]));
    assert ch.View() == [KeyRow("a", AUTO_DISABLED, 0, "")];
    assert NotAutoDisabled(ch.View()[..0]) == [];
    var o;
    o, deleted := ch.DeleteDisabledKeys();
    view := ch.View();
  }
}
