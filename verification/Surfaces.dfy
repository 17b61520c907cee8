/** The contract surface: written as rows of cells, read back, and compared. */
module Surfaces {
  import opened Options
  import opened Trailers
  import Shards

  datatype Entry = Entry(kind: string, name: string, params: seq<string>, rank: Option<int>)
  datatype Table = Table(columns: seq<string>, types: seq<string>)
  datatype Process = Process(name: string, proctype: string, offset: int, subscribes: seq<string>,
                             publishes: seq<string>)
  datatype Transport = Transport(name: string, isDefault: bool, expects: string, example: string, note: string)

  datatype Surface = Surface(
    functions: map<string, seq<Entry>>,
    tables: map<string, Table>,
    processes: seq<Process>,
    variables: seq<string>,
    transports: seq<Transport>,
    generatedBy: string)

  datatype FnRow = FnRow(ns: string, name: string, kind: string, rank: string, params: string)
  datatype ColumnRow = ColumnRow(table: string, column: string, qtype: string)
  datatype ProcessRow = ProcessRow(name: string, proctype: string, offset: string, subscribes: string,
                                   publishes: string)
  datatype TransportRow = TransportRow(name: string, isDefault: string, expects: string, example: string, note: string)

  datatype Files = Files(
    functions: seq<FnRow>,
    columns: seq<ColumnRow>,
    processes: seq<ProcessRow>,
    variables: seq<string>,
    transports: seq<TransportRow>,
    generatedBy: string)

  // ---- numbers in cells

  function Digit(n: nat): char
    requires n < 10
  {
    ('0' as int + n) as char
  }

  function ShowNat(n: nat): (s: string)
    ensures s != "" && forall i :: 0 <= i < |s| ==> '0' <= s[i] <= '9'
  {
    if n < 10 then [Digit(n)] else ShowNat(n / 10) + [Digit(n % 10)]
  }

  function Show(n: int): string {
    if n < 0 then "-" + ShowNat(-n) else ShowNat(n)
  }

  function ReadNat(s: string): Option<nat> {
    if s == "" || !('0' <= s[|s| - 1] <= '9') then None
    else
      var last := s[|s| - 1] as int - '0' as int;
      if |s| == 1 then Some(last)
      else
        var rest := ReadNat(s[..|s| - 1]);
        if rest.None? then None else Some(10 * rest.value + last)
  }

  function ReadInt(s: string): Option<int> {
    if s != "" && s[0] == '-' then
      var n := ReadNat(s[1..]);
      if n.None? then None else (var v: int := n.value; Some(-v))
    else
      var n := ReadNat(s);
      if n.None? then None else Some(n.value)
  }

  lemma {:induction false} NatReads(n: nat)
    ensures ReadNat(ShowNat(n)) == Some(n)
  {
    if n >= 10 {
      NatReads(n / 10);
      var s := ShowNat(n / 10) + [Digit(n % 10)];
      assert s[..|s| - 1] == ShowNat(n / 10);
    }
  }

  lemma IntReads(n: int)
    ensures ReadInt(Show(n)) == Some(n) && Show(n) != ""
  {
    NatReads(if n < 0 then -n else n);
    assert n < 0 ==> Show(n)[1..] == ShowNat(-n);
  }

  // ---- lists in cells

  function ListCell(xs: seq<string>): string {
    Joined(xs, ' ')
  }

  function CellList(cell: string): seq<string> {
    if cell == "" then [] else SplitOn(cell, ' ')
  }

  lemma {:induction false} SplitHasNone(s: string, c: char)
    ensures forall p :: p in SplitOn(s, c) ==> c !in p
    decreases |s|
  {
    var k := IndexOf(s, c);
    if k < |s| {
      SplitHasNone(s[k + 1..], c);
    }
  }

  predicate Listable(xs: seq<string>) {
    xs != [""] && forall x :: x in xs ==> ' ' !in x
  }

  /** A list comes back from its cell exactly when no item holds a space and it is
      not one empty item. */
  lemma ListReads(xs: seq<string>)
    ensures CellList(ListCell(xs)) == xs <==> Listable(xs)
    ensures (forall x :: x in xs ==> ' ' !in x) && ListCell(xs) == "" ==> xs == [] || xs == [""]
    ensures ListCell(xs) != "" ==> (CellList(ListCell(xs)) == xs <==> forall x :: x in xs ==> ' ' !in x)
    ensures xs == [] || xs == [""] ==> ListCell(xs) == ""
  {
    SplitHasNone(ListCell(xs), ' ');
    if xs != [] && forall x :: x in xs ==> ' ' !in x {
      SplitJoined(xs, ' ');
    }
    assert |xs| == 1 ==> xs == [xs[0]];
  }

  // ---- functions

  function EntryRow(ns: string, e: Entry): FnRow {
    FnRow(ns, e.name, e.kind, if e.rank.None? then "" else Show(e.rank.value), ListCell(e.params))
  }

  /** A blank list of parameters is one blank name for a function, none for anything else. */
  function RowEntry(row: FnRow): Option<Entry> {
    var rank := if row.rank == "" then Some(None)
                else (var n := ReadInt(row.rank); if n.None? then None else Some(Some(n.value)));
    if rank.None? then None
    else
      var params := if row.params != "" then CellList(row.params) else if rank.value.None? then [] else [""];
      Some(Entry(row.kind, row.name, params, rank.value))
  }

  predicate GoodEntry(e: Entry) {
    && (forall p :: p in e.params ==> ' ' !in p)
    && (e.params == [] ==> e.rank.None?)
    && (e.params == [""] ==> e.rank.Some?)
  }

  function Reread(e: Entry): Entry {
    var r := RowEntry(EntryRow("", e));
    if r.None? then e else r.value
  }

  /** An entry comes back exactly when it is well formed. */
  lemma EntryReads(ns: string, e: Entry)
    ensures RowEntry(EntryRow(ns, e)) == Some(Reread(e))
    ensures Reread(e) == e <==> GoodEntry(e)
    ensures Reread(e).name == e.name
  {
    if e.rank.Some? {
      IntReads(e.rank.value);
    }
    ListReads(e.params);
  }

  // ---- order

  predicate UpTo(a: string, b: string) {
    Shards.NameUpTo(a, b)
  }

  function InsertBy<T>(key: T -> string, x: T, xs: seq<T>): seq<T> {
    if xs == [] || UpTo(key(x), key(xs[0])) then [x] + xs else [xs[0]] + InsertBy(key, x, xs[1..])
  }

  /** Sorted by `key`, those with one key as they were. */
  function SortBy<T>(key: T -> string, xs: seq<T>): seq<T> {
    if xs == [] then [] else InsertBy(key, xs[0], SortBy(key, xs[1..]))
  }

  predicate InOrder<T>(key: T -> string, xs: seq<T>) {
    forall i, j :: 0 <= i < j < |xs| ==> UpTo(key(xs[i]), key(xs[j]))
  }

  function EntryName(e: Entry): string { e.name }

  function ProcessName(p: Process): string { p.name }

  function Itself(s: string): string { s }

  lemma {:induction false} InsertsInOrder<T>(key: T -> string, x: T, xs: seq<T>)
    requires InOrder(key, xs)
    ensures InOrder(key, InsertBy(key, x, xs)) && |InsertBy(key, x, xs)| == |xs| + 1
    ensures forall y :: y in InsertBy(key, x, xs) ==> y == x || y in xs
  {
    if xs == [] {
    } else if UpTo(key(x), key(xs[0])) {
      forall j | 0 <= j < |xs| ensures UpTo(key(x), key(xs[j])) {
        if j > 0 {
          Shards.NamesChain(key(x), key(xs[0]), key(xs[j]));
        }
      }
    } else {
      Shards.NamesCompare(key(x), key(xs[0]));
      InsertsInOrder(key, x, xs[1..]);
      var rest := InsertBy(key, x, xs[1..]);
      forall j | 0 <= j < |rest| ensures UpTo(key(xs[0]), key(rest[j])) {
        assert rest[j] in rest;
        if rest[j] != x {
          var k :| 0 <= k < |xs[1..]| && xs[1..][k] == rest[j];
          assert xs[k + 1] == rest[j];
        }
      }
    }
  }

  /** The items with this key, as they stand. */
  function WithKey<T>(key: T -> string, xs: seq<T>, k: string): seq<T> {
    if xs == [] then [] else (if key(xs[0]) == k then [xs[0]] else []) + WithKey(key, xs[1..], k)
  }

  lemma WithKeyFirst<T>(key: T -> string, x: T, xs: seq<T>, k: string)
    ensures WithKey(key, [x] + xs, k) == (if key(x) == k then [x] else []) + WithKey(key, xs, k)
  {
    assert ([x] + xs)[1..] == xs;
  }

  lemma {:induction false} InsertKeeps<T>(key: T -> string, x: T, xs: seq<T>)
    ensures multiset(InsertBy(key, x, xs)) == multiset{x} + multiset(xs)
  {
    hide UpTo;
    if xs != [] && !UpTo(key(x), key(xs[0])) {
      InsertKeeps(key, x, xs[1..]);
      assert xs == [xs[0]] + xs[1..];
    }
  }

  lemma {:induction false} InsertKeepsOrder<T>(key: T -> string, x: T, xs: seq<T>, k: string)
    ensures WithKey(key, InsertBy(key, x, xs), k) == WithKey(key, [x] + xs, k)
  {
    hide UpTo, WithKey;
    if xs != [] && !UpTo(key(x), key(xs[0])) {
      KeysDiffer(key(x), key(xs[0]));
      InsertKeepsOrder(key, x, xs[1..], k);
      WithKeyFirst(key, xs[0], InsertBy(key, x, xs[1..]), k);
      WithKeyFirst(key, x, xs[1..], k);
      WithKeyFirst(key, x, xs, k);
      WithKeyFirst(key, xs[0], xs[1..], k);
      assert xs == [xs[0]] + xs[1..];
    }
  }

  lemma KeysDiffer(a: string, b: string)
    requires !UpTo(a, b)
    ensures a != b
  {
    Shards.NamesCompare(a, b);
  }

  /** Sorting keeps every item, and those with one key in the order they came. */
  lemma {:induction false} SortKeeps<T>(key: T -> string, xs: seq<T>, k: string)
    ensures multiset(SortBy(key, xs)) == multiset(xs)
    ensures WithKey(key, SortBy(key, xs), k) == WithKey(key, xs, k)
  {
    if xs != [] {
      SortKeeps(key, xs[1..], k);
      var rest := SortBy(key, xs[1..]);
      InsertKeeps(key, xs[0], rest);
      InsertKeepsOrder(key, xs[0], rest, k);
      WithKeyFirst(key, xs[0], rest, k);
      WithKeyFirst(key, xs[0], xs[1..], k);
      assert xs == [xs[0]] + xs[1..];
    }
  }

  /** Sorting sorts, and changes nothing exactly when it was sorted. */
  lemma {:induction false} Sorts<T>(key: T -> string, xs: seq<T>)
    ensures InOrder(key, SortBy(key, xs)) && |SortBy(key, xs)| == |xs|
    ensures InOrder(key, xs) <==> SortBy(key, xs) == xs
  {
    if xs != [] {
      Sorts(key, xs[1..]);
      InsertsInOrder(key, xs[0], SortBy(key, xs[1..]));
      if InOrder(key, xs) {
        assert forall j :: 0 <= j < |xs[1..]| ==> xs[1..][j] == xs[j + 1];
        assert |xs| > 1 ==> UpTo(key(xs[0]), key(xs[1]));
        assert xs == [xs[0]] + xs[1..];
      }
    }
  }

  /** The least of some names. */
  lemma LeastIsOne(s: set<string>)
    requires s != {}
    ensures exists x :: x in s && forall y :: y in s ==> UpTo(x, y)
    ensures forall x, y :: x in s && y in s && UpTo(x, y) && UpTo(y, x) ==> x == y
  {
    LeastExists(s);
    forall x, y | x in s && y in s && UpTo(x, y) && UpTo(y, x) ensures x == y {
      Shards.NamesCompare(x, y);
    }
  }

  lemma {:induction false} LeastExists(s: set<string>)
    requires s != {}
    ensures exists x :: x in s && forall y :: y in s ==> UpTo(x, y)
  {
    var x :| x in s;
    var rest := s - {x};
    if rest == {} {
      Shards.NamesCompare(x, x);
      assert s == {x};
    } else {
      LeastExists(rest);
      var least :| least in rest && forall y :: y in rest ==> UpTo(least, y);
      Shards.NamesCompare(x, least);
      Shards.NamesCompare(x, x);
      var m := if UpTo(x, least) then x else least;
      forall y | y in s ensures UpTo(m, y) {
        if y != x && m == x {
          assert y in rest;
          Shards.NamesChain(x, least, y);
        }
      }
    }
  }

  function Sorted(s: set<string>): (r: seq<string>)
    ensures forall x :: x in r <==> x in s
    ensures forall i, j :: 0 <= i < j < |r| ==> r[i] != r[j]
    ensures forall i, j :: 0 <= i < j < |r| ==> UpTo(r[i], r[j])
  {
    if s == {} then []
    else
      LeastIsOne(s);
      var x :| x in s && forall y :: y in s ==> UpTo(x, y);
      [x] + Sorted(s - {x})
  }

  // ---- the functions file

  function EntryRows(ns: string, es: seq<Entry>): seq<FnRow> {
    if es == [] then [] else [EntryRow(ns, es[0])] + EntryRows(ns, es[1..])
  }

  function EntriesOf(fns: map<string, seq<Entry>>, ns: string): seq<Entry> {
    if ns in fns then fns[ns] else []
  }

  function FunctionRows(fns: map<string, seq<Entry>>, nss: seq<string>): seq<FnRow> {
    if nss == [] then [] else EntryRows(nss[0], SortBy(EntryName, EntriesOf(fns, nss[0]))) + FunctionRows(fns, nss[1..])
  }

  /** One more row of the file: its entry joins its namespace. */
  function AddRow(so: Option<map<string, seq<Entry>>>, row: FnRow): Option<map<string, seq<Entry>>> {
    var e := RowEntry(row);
    if so.None? || e.None? then None
    else Some(so.value[row.ns := (if row.ns in so.value then so.value[row.ns] else []) + [e.value]])
  }

  function ReadRows(rows: seq<FnRow>, so: Option<map<string, seq<Entry>>>): Option<map<string, seq<Entry>>> {
    if rows == [] then so else ReadRows(rows[1..], AddRow(so, rows[0]))
  }

  function Rereads(es: seq<Entry>): (r: seq<Entry>)
    ensures |r| == |es| && forall i :: 0 <= i < |es| ==> r[i] == Reread(es[i])
  {
    if es == [] then [] else [Reread(es[0])] + Rereads(es[1..])
  }

  lemma {:induction false} RowsAppend(a: seq<FnRow>, b: seq<FnRow>, so: Option<map<string, seq<Entry>>>)
    ensures ReadRows(a + b, so) == ReadRows(b, ReadRows(a, so))
  {
    if a == [] {
      assert a + b == b;
    } else {
      assert (a + b)[1..] == a[1..] + b;
      RowsAppend(a[1..], b, AddRow(so, a[0]));
    }
  }

  lemma Overwrite<K, V>(m: map<K, V>, k: K, v: V, w: V)
    ensures m[k := v][k := w] == m[k := w]
  {
  }

  function Joining(ns: string, more: seq<Entry>, m: map<string, seq<Entry>>): map<string, seq<Entry>> {
    if more == [] then m else m[ns := (if ns in m then m[ns] else []) + more]
  }

  lemma RowJoins(ns: string, e: Entry, m: map<string, seq<Entry>>)
    ensures AddRow(Some(m), EntryRow(ns, e)) == Some(Joining(ns, [Reread(e)], m))
  {
    hide RowEntry, Reread;
    EntryReads(ns, e);
  }

  lemma JoiningTwice(ns: string, e: Entry, more: seq<Entry>, m: map<string, seq<Entry>>)
    ensures Joining(ns, more, Joining(ns, [e], m)) == Joining(ns, [e] + more, m)
  {
    var had := if ns in m then m[ns] else [];
    assert had + [e] + more == had + ([e] + more);
    Overwrite(m, ns, had + [e], had + [e] + more);
    if more == [] {
      assert [e] + more == [e];
    }
  }

  /** A namespace's rows put its entries, in order, after those it has. */
  lemma {:induction false} BlockReads(ns: string, es: seq<Entry>, m: map<string, seq<Entry>>)
    ensures ReadRows(EntryRows(ns, es), Some(m)) == Some(Joining(ns, Rereads(es), m))
  {
    if es != [] {
      hide AddRow, EntryRow, Reread, Joining;
      RowJoins(ns, es[0], m);
      var next := Joining(ns, [Reread(es[0])], m);
      assert EntryRows(ns, es)[1..] == EntryRows(ns, es[1..]);
      BlockReads(ns, es[1..], next);
      JoiningTwice(ns, Reread(es[0]), Rereads(es[1..]), m);
    }
  }

  /** What comes back of some namespaces. */
  function Back(fns: map<string, seq<Entry>>, nss: seq<string>): map<string, seq<Entry>>
    requires forall ns :: ns in nss ==> ns in fns
  {
    map ns | ns in nss && fns[ns] != [] :: Rereads(SortBy(EntryName, fns[ns]))
  }

  lemma BackParts(fns: map<string, seq<Entry>>, nss: seq<string>)
    requires nss != [] && (forall ns :: ns in nss ==> ns in fns) && nss[0] !in nss[1..]
    ensures forall ns :: ns in nss[1..] ==> ns in nss
    ensures nss[0] !in Back(fns, nss[1..])
    ensures Back(fns, nss)
            == if fns[nss[0]] == [] then Back(fns, nss[1..])
               else Back(fns, nss[1..])[nss[0] := Rereads(SortBy(EntryName, fns[nss[0]]))]
  {
    hide SortBy, Rereads, GoodEntry, UpTo;
    assert nss == [nss[0]] + nss[1..];
  }

  lemma PutFirst<V(!new)>(m: map<string, V>, r: map<string, V>, k: string, v: V)
    requires k !in m && k !in r
    ensures m[k := v] + r == m + r[k := v]
  {
  }

  lemma BackStep(fns: map<string, seq<Entry>>, nss: seq<string>, m: map<string, seq<Entry>>)
    requires nss != [] && (forall ns :: ns in nss ==> ns in fns && ns !in m) && nss[0] !in nss[1..]
    requires forall ns :: ns in nss[1..] ==> ns in fns
    ensures m + Back(fns, nss) == Joining(nss[0], Rereads(SortBy(EntryName, fns[nss[0]])), m) + Back(fns, nss[1..])
  {
    hide SortBy, Rereads, InOrder, Back;
    var block := Rereads(SortBy(EntryName, fns[nss[0]]));
    Sorts(EntryName, fns[nss[0]]);
    assert block == [] <==> fns[nss[0]] == [];
    BackParts(fns, nss);
    assert [] + block == block;
    PutFirst(m, Back(fns, nss[1..]), nss[0], block);
  }

  lemma {:induction false} FunctionsRead(fns: map<string, seq<Entry>>, nss: seq<string>, m: map<string, seq<Entry>>)
    requires forall ns :: ns in nss ==> ns in fns && ns !in m
    requires forall i, j :: 0 <= i < j < |nss| ==> nss[i] != nss[j]
    ensures ReadRows(FunctionRows(fns, nss), Some(m)) == Some(m + Back(fns, nss))
  {
    if nss == [] {
      assert m + Back(fns, nss) == m;
    } else {
      var ns := nss[0];
      var block := SortBy(EntryName, fns[ns]);
      var next := Joining(ns, Rereads(block), m);
      RowsAppend(EntryRows(ns, block), FunctionRows(fns, nss[1..]), Some(m));
      BlockReads(ns, block, m);
      assert ns !in nss[1..];
      assert forall k :: k in nss[1..] ==> k in nss;
      BackStep(fns, nss, m);
      JoiningKeeps(ns, Rereads(block), m);
      assert forall k :: k in nss[1..] ==> k in nss;
      hide SortBy, Rereads, ReadRows, EntryRows, Back, Joining;
      FunctionsRead(fns, nss[1..], next);
    }
  }

  lemma JoiningKeeps(ns: string, more: seq<Entry>, m: map<string, seq<Entry>>)
    ensures forall k :: k in Joining(ns, more, m) ==> k in m || k == ns
  {
  }

  predicate GoodFunctions(fns: map<string, seq<Entry>>) {
    forall ns :: ns in fns ==> fns[ns] != [] && GoodEntries(fns[ns])
  }

  predicate GoodEntries(es: seq<Entry>) {
    InOrder(EntryName, es) && forall i :: 0 <= i < |es| ==> GoodEntry(es[i])
  }

  lemma EntriesRead(es: seq<Entry>)
    ensures Rereads(SortBy(EntryName, es)) == es <==> GoodEntries(es)
  {
    Sorts(EntryName, es);
    var sorted := SortBy(EntryName, es);
    forall i | 0 <= i < |sorted|
      ensures Reread(sorted[i]).name == sorted[i].name && (Reread(sorted[i]) == sorted[i] <==> GoodEntry(sorted[i]))
    {
      EntryReads("", sorted[i]);
    }
    hide Reread, GoodEntry, SortBy;
    if Rereads(sorted) == es {
      assert forall i :: 0 <= i < |es| ==> es[i] == Reread(sorted[i]) && EntryName(es[i]) == EntryName(sorted[i]);
      assert InOrder(EntryName, es);
    }
  }

  /** The functions come back exactly when each namespace has some, in order of
      name, and each is well formed. */
  lemma FunctionsRoundTrip(fns: map<string, seq<Entry>>)
    ensures ReadRows(FunctionRows(fns, Sorted(fns.Keys)), Some(map[])) == Some(fns) <==> GoodFunctions(fns)
  {
    hide ReadRows, FunctionRows, GoodEntries, Rereads, SortBy;
    var nss := Sorted(fns.Keys);
    FunctionsRead(fns, nss, map[]);
    var back := Back(fns, nss);
    assert map[] + back == back;
    forall ns | ns in fns ensures Rereads(SortBy(EntryName, fns[ns])) == fns[ns] <==> GoodEntries(fns[ns]) {
      EntriesRead(fns[ns]);
    }
    SameMaps(back, fns);
  }

  /** A part of a map is the map exactly when it has every key, and the same there. */
  lemma SameMaps<V(!new)>(a: map<string, V>, b: map<string, V>)
    requires forall k :: k in a ==> k in b
    ensures a == b <==> forall k :: k in b ==> k in a && a[k] == b[k]
  {
    if forall k :: k in b ==> k in a && a[k] == b[k] {
      assert a.Keys == b.Keys;
    }
  }

  // ---- the tables file

  function ColumnRows(table: string, t: Table): seq<ColumnRow>
    requires |t.columns| == |t.types|
  {
    seq(|t.columns|, i requires 0 <= i < |t.columns| => ColumnRow(table, t.columns[i], t.types[i]))
  }

  ghost predicate Zipped(ts: map<string, Table>) {
    forall n :: n in ts ==> |ts[n].columns| == |ts[n].types|
  }

  function TableRows(ts: map<string, Table>, names: seq<string>): seq<ColumnRow>
    requires forall n :: n in names ==> n in ts && |ts[n].columns| == |ts[n].types|
  {
    if names == [] then [] else ColumnRows(names[0], ts[names[0]]) + TableRows(ts, names[1..])
  }

  function AddColumn(so: map<string, Table>, row: ColumnRow): map<string, Table> {
    var t := if row.table in so then so[row.table] else Table([], []);
    so[row.table := Table(t.columns + [row.column], t.types + [row.qtype])]
  }

  function ReadColumns(rows: seq<ColumnRow>, so: map<string, Table>): map<string, Table> {
    if rows == [] then so else ReadColumns(rows[1..], AddColumn(so, rows[0]))
  }

  lemma {:induction false} ColumnsAppend(a: seq<ColumnRow>, b: seq<ColumnRow>, so: map<string, Table>)
    ensures ReadColumns(a + b, so) == ReadColumns(b, ReadColumns(a, so))
  {
    if a == [] {
      assert a + b == b;
    } else {
      assert (a + b)[1..] == a[1..] + b;
      ColumnsAppend(a[1..], b, AddColumn(so, a[0]));
    }
  }

  function JoiningTable(table: string, t: Table, so: map<string, Table>): map<string, Table> {
    if t.columns == [] then so
    else
      var had := if table in so then so[table] else Table([], []);
      so[table := Table(had.columns + t.columns, had.types + t.types)]
  }

  lemma JoiningTableTwice(table: string, x: string, y: string, t: Table, so: map<string, Table>)
    requires |t.columns| == |t.types|
    ensures JoiningTable(table, t, JoiningTable(table, Table([x], [y]), so))
            == JoiningTable(table, Table([x] + t.columns, [y] + t.types), so)
  {
    var had := if table in so then so[table] else Table([], []);
    var one := Table(had.columns + [x], had.types + [y]);
    var all := Table(had.columns + ([x] + t.columns), had.types + ([y] + t.types));
    if t.columns == [] {
      assert t.types == [] && [x] + t.columns == [x] && [y] + t.types == [y];
    } else {
      assert had.columns + [x] + t.columns == all.columns && had.types + [y] + t.types == all.types;
      Overwrite(so, table, one, all);
    }
  }

  lemma {:induction false} TableReads(table: string, t: Table, so: map<string, Table>)
    requires |t.columns| == |t.types|
    ensures ReadColumns(ColumnRows(table, t), so) == JoiningTable(table, t, so)
    decreases |t.columns|
  {
    if t.columns != [] {
      var rows := ColumnRows(table, t);
      var rest := Table(t.columns[1..], t.types[1..]);
      assert rows[1..] == ColumnRows(table, rest);
      assert AddColumn(so, rows[0]) == JoiningTable(table, Table([t.columns[0]], [t.types[0]]), so);
      TableReads(table, rest, AddColumn(so, rows[0]));
      JoiningTableTwice(table, t.columns[0], t.types[0], rest, so);
      assert [t.columns[0]] + rest.columns == t.columns && [t.types[0]] + rest.types == t.types;
      assert Table(t.columns, t.types) == t;
    }
  }

  function TablesBack(ts: map<string, Table>, names: seq<string>): map<string, Table>
    requires forall n :: n in names ==> n in ts
  {
    map n | n in names && ts[n].columns != [] :: ts[n]
  }

  lemma TablesBackStep(ts: map<string, Table>, names: seq<string>, so: map<string, Table>)
    requires names != [] && (forall n :: n in names ==> n in ts && n !in so) && names[0] !in names[1..]
    ensures so + TablesBack(ts, names) == JoiningTable(names[0], ts[names[0]], so) + TablesBack(ts, names[1..])
    ensures forall k :: k in JoiningTable(names[0], ts[names[0]], so) ==> k in so || k == names[0]
  {
    var t := ts[names[0]];
    assert names == [names[0]] + names[1..];
    assert [] + t.columns == t.columns && [] + t.types == t.types;
    assert Table(t.columns, t.types) == t;
  }

  lemma {:induction false} TablesRead(ts: map<string, Table>, names: seq<string>, so: map<string, Table>)
    requires forall n :: n in names ==> n in ts && |ts[n].columns| == |ts[n].types| && n !in so
    requires forall i, j :: 0 <= i < j < |names| ==> names[i] != names[j]
    ensures ReadColumns(TableRows(ts, names), so) == so + TablesBack(ts, names)
  {
    if names == [] {
      assert so + TablesBack(ts, names) == so;
    } else {
      var n := names[0];
      assert n !in names[1..];
      ColumnsAppend(ColumnRows(n, ts[n]), TableRows(ts, names[1..]), so);
      TableReads(n, ts[n], so);
      TablesBackStep(ts, names, so);
      assert forall k :: k in names[1..] ==> k in names;
      hide ReadColumns, ColumnRows, JoiningTable, TablesBack;
      TablesRead(ts, names[1..], JoiningTable(n, ts[n], so));
    }
  }

  /** The tables come back exactly when none is empty. */
  lemma TablesRoundTrip(ts: map<string, Table>)
    requires Zipped(ts)
    ensures ReadColumns(TableRows(ts, Sorted(ts.Keys)), map[]) == ts <==> forall n :: n in ts ==> ts[n].columns != []
  {
    hide ReadColumns, TableRows, UpTo;
    var names := Sorted(ts.Keys);
    TablesRead(ts, names, map[]);
    var back := TablesBack(ts, names);
    assert map[] + back == back;
    SameMaps(back, ts);
  }

  // ---- processes, variables, transports

  function ProcessRows(ps: seq<Process>): (r: seq<ProcessRow>)
    ensures |r| == |ps|
    ensures forall i :: 0 <= i < |ps| ==>
              r[i] == ProcessRow(ps[i].name, ps[i].proctype, Show(ps[i].offset), ListCell(ps[i].subscribes),
                                 ListCell(ps[i].publishes))
  {
    if ps == [] then []
    else
      var p := ps[0];
      [ProcessRow(p.name, p.proctype, Show(p.offset), ListCell(p.subscribes), ListCell(p.publishes))]
      + ProcessRows(ps[1..])
  }

  function ReadProcesses(rows: seq<ProcessRow>): Option<seq<Process>> {
    if rows == [] then Some([])
    else
      var offset := ReadInt(rows[0].offset);
      var rest := ReadProcesses(rows[1..]);
      if offset.None? || rest.None? then None
      else Some([Process(rows[0].name, rows[0].proctype, offset.value, CellList(rows[0].subscribes),
                         CellList(rows[0].publishes))] + rest.value)
  }

  function ProcessBack(p: Process): Process {
    p.(subscribes := CellList(ListCell(p.subscribes)), publishes := CellList(ListCell(p.publishes)))
  }

  predicate GoodProcesses(ps: seq<Process>) {
    InOrder(ProcessName, ps) && forall i :: 0 <= i < |ps| ==> Listable(ps[i].subscribes) && Listable(ps[i].publishes)
  }

  lemma {:induction false} ProcessesRead(ps: seq<Process>)
    ensures var r := ReadProcesses(ProcessRows(ps));
            r.Some? && |r.value| == |ps| && forall i :: 0 <= i < |ps| ==> r.value[i] == ProcessBack(ps[i])
  {
    if ps != [] {
      hide Show, ReadInt, ListCell, CellList;
      IntReads(ps[0].offset);
      ProcessesRead(ps[1..]);
      assert ProcessRows(ps)[1..] == ProcessRows(ps[1..]);
    }
  }

  /** The processes come back exactly when they are in order of name and each list
      fits its cell. */
  lemma ProcessesRoundTrip(ps: seq<Process>)
    ensures ReadProcesses(ProcessRows(SortBy(ProcessName, ps))) == Some(ps) <==> GoodProcesses(ps)
  {
    var sorted := SortBy(ProcessName, ps);
    Sorts(ProcessName, ps);
    ProcessesRead(sorted);
    forall i | 0 <= i < |sorted|
      ensures ProcessBack(sorted[i]) == sorted[i] <==> Listable(sorted[i].subscribes) && Listable(sorted[i].publishes)
    {
      ListReads(sorted[i].subscribes);
      ListReads(sorted[i].publishes);
    }
    hide Listable, SortBy, ReadProcesses, ProcessRows, CellList, ListCell;
    var back := ReadProcesses(ProcessRows(sorted));
    if back == Some(ps) {
      assert forall i :: 0 <= i < |ps| ==>
               ps[i] == ProcessBack(sorted[i]) && ProcessName(ps[i]) == ProcessName(sorted[i]);
      assert InOrder(ProcessName, ps);
    }
    if GoodProcesses(ps) {
      assert back.value == ps;
    }
  }

  function TransportRows(ts: seq<Transport>): (r: seq<TransportRow>)
    ensures |r| == |ts|
    ensures forall i :: 0 <= i < |ts| ==>
              r[i]
              == TransportRow(ts[i].name, if ts[i].isDefault then "1" else "0",
                              ts[i].expects, ts[i].example, ts[i].note)
  {
    seq(|ts|, i requires 0 <= i < |ts| =>
          TransportRow(ts[i].name, if ts[i].isDefault then "1" else "0", ts[i].expects, ts[i].example, ts[i].note))
  }

  function ReadTransports(rows: seq<TransportRow>): seq<Transport> {
    seq(|rows|, i requires 0 <= i < |rows| =>
          Transport(rows[i].name, rows[i].isDefault == "1", rows[i].expects, rows[i].example, rows[i].note))
  }

  // ---- the whole surface

  /** The files, or an error when a table's columns and types do not pair up. */
  ghost function WriteSurface(s: Surface): Option<Files> {
    if !Zipped(s.tables) then None
    else Some(Files(FunctionRows(s.functions, Sorted(s.functions.Keys)),
                    TableRows(s.tables, Sorted(s.tables.Keys)),
                    ProcessRows(SortBy(ProcessName, s.processes)),
                    SortBy(Itself, s.variables),
                    TransportRows(s.transports),
                    s.generatedBy))
  }

  function ReadSurface(f: Files): Option<Surface> {
    var functions := ReadRows(f.functions, Some(map[]));
    var processes := ReadProcesses(f.processes);
    if functions.None? || processes.None? then None
    else Some(Surface(functions.value, ReadColumns(f.columns, map[]), processes.value, f.variables,
                      ReadTransports(f.transports), f.generatedBy))
  }

  ghost predicate WellFormed(s: Surface) {
    && GoodFunctions(s.functions)
    && Zipped(s.tables) && (forall n :: n in s.tables ==> s.tables[n].columns != [])
    && GoodProcesses(s.processes)
    && InOrder(Itself, s.variables)
  }

  /** A surface comes back from its files exactly when it is well formed and sorted. */
  lemma SurfaceRoundTrip(s: Surface)
    ensures WriteSurface(s).Some? && ReadSurface(WriteSurface(s).value) == Some(s) <==> WellFormed(s)
  {
    hide FunctionRows, ReadRows, TableRows, ReadColumns, ProcessRows, ReadProcesses, SortBy, InOrder, GoodFunctions;
    hide GoodProcesses;
    FunctionsRoundTrip(s.functions);
    ProcessesRoundTrip(s.processes);
    Sorts(Itself, s.variables);
    if Zipped(s.tables) {
      TablesRoundTrip(s.tables);
      assert ReadTransports(TransportRows(s.transports)) == s.transports;
    }
  }

  // ---- the loops

  lemma {:induction false} ErrorStays(rows: seq<FnRow>)
    ensures ReadRows(rows, None) == None
  {
    if rows != [] {
      ErrorStays(rows[1..]);
    }
  }

  method ReadFunctionsFile(rows: seq<FnRow>) returns (r: Option<map<string, seq<Entry>>>)
    ensures r == ReadRows(rows, Some(map[]))
  {
    var functions: map<string, seq<Entry>> := map[];
    for i := 0 to |rows|
      invariant ReadRows(rows[i..], Some(functions)) == ReadRows(rows, Some(map[]))
    {
      assert rows[i..][1..] == rows[i + 1..];
      var e := RowEntry(rows[i]);
      if e.None? {
        ErrorStays(rows[i + 1..]);
        return None;
      }
      ghost var before := functions;
      if rows[i].ns !in functions {
        functions := functions[rows[i].ns := []];
      }
      Overwrite(before, rows[i].ns, [], [] + [e.value]);
      functions := functions[rows[i].ns := functions[rows[i].ns] + [e.value]];
      assert AddRow(Some(before), rows[i]) == Some(functions);
    }
    r := Some(functions);
  }

  method WriteNamespace(ns: string, es: seq<Entry>) returns (rows: seq<FnRow>)
    ensures rows == EntryRows(ns, es)
  {
    hide EntryRow;
    rows := [];
    for k := 0 to |es|
      invariant rows + EntryRows(ns, es[k..]) == EntryRows(ns, es)
    {
      assert es[k..][1..] == es[k + 1..];
      rows := rows + [EntryRow(ns, es[k])];
    }
    assert es[|es|..] == [];
  }

  method WriteNamespaces(fns: map<string, seq<Entry>>, nss: seq<string>) returns (rows: seq<FnRow>)
    ensures rows == FunctionRows(fns, nss)
  {
    rows := [];
    assert nss[..0] == [] && FunctionRows(fns, []) == [];
    hide FunctionRows, EntryRows, SortBy;
    for i := 0 to |nss|
      invariant rows == FunctionRows(fns, nss[..i])
    {
      assert nss[..i + 1] == nss[..i] + [nss[i]];
      var block := WriteNamespace(nss[i], SortBy(EntryName, EntriesOf(fns, nss[i])));
      OneMoreNamespace(fns, nss[..i], nss[i]);
      rows := rows + block;
    }
    assert nss[..|nss|] == nss;
  }

  method WriteFunctionsFile(fns: map<string, seq<Entry>>) returns (rows: seq<FnRow>)
    ensures rows == FunctionRows(fns, Sorted(fns.Keys))
  {
    rows := WriteNamespaces(fns, Sorted(fns.Keys));
  }

  lemma {:induction false} OneMoreNamespace(fns: map<string, seq<Entry>>, nss: seq<string>, ns: string)
    ensures FunctionRows(fns, nss + [ns])
            == FunctionRows(fns, nss) + EntryRows(ns, SortBy(EntryName, EntriesOf(fns, ns)))
  {
    hide EntryRows, SortBy;
    if nss == [] {
      assert [ns][1..] == [];
    } else {
      assert (nss + [ns])[1..] == nss[1..] + [ns];
      OneMoreNamespace(fns, nss[1..], ns);
    }
  }

  method ReadTablesFile(rows: seq<ColumnRow>) returns (tables: map<string, Table>)
    ensures tables == ReadColumns(rows, map[])
  {
    tables := map[];
    for i := 0 to |rows|
      invariant ReadColumns(rows[i..], tables) == ReadColumns(rows, map[])
    {
      assert rows[i..][1..] == rows[i + 1..];
      var row := rows[i];
      var t := if row.table in tables then tables[row.table] else Table([], []);
      tables := tables[row.table := Table(t.columns + [row.column], t.types + [row.qtype])];
    }
  }
}
