/** What the reader makes of any rows, said cell by cell. */
module SurfaceRows {
  import opened Options
  import opened Trailers
  import opened Surfaces
  import opened ShardSays

  // ---- numbers

  function Power(k: nat): nat { if k == 0 then 1 else 10 * Power(k - 1) }

  predicate Digits(s: string) { s != "" && forall i :: 0 <= i < |s| ==> '0' <= s[i] <= '9' }

  /** The number the digits write, the first counting most. */
  function Decimal(s: string): nat
    requires forall i :: 0 <= i < |s| ==> '0' <= s[i] <= '9'
  {
    if s == "" then 0 else (s[0] as int - '0' as int) * Power(|s| - 1) + Decimal(s[1..])
  }

  /** The cell writes the number, a minus sign before one below zero, and perhaps before zero. */
  predicate Writes(cell: string, n: int) {
    || (Digits(cell) && n == Decimal(cell))
    || (cell != "" && cell[0] == '-' && Digits(cell[1..]) && n == -(Decimal(cell[1..]) as int))
  }

  lemma {:induction false} DecimalLast(s: string)
    requires Digits(s)
    ensures var n := |s| - 1; Decimal(s) == 10 * Decimal(s[..n]) + (s[n] as int - '0' as int)
    decreases |s|
  {
    var n := |s| - 1;
    if n == 0 {
      assert s[..0] == "" && s[1..] == "" && Power(0) == 1;
    } else {
      DecimalLast(s[1..]);
      assert s[1..][..n - 1] == s[..n][1..] && s[1..][n - 1] == s[n];
      var d, p := s[0] as int - '0' as int, Power(n - 1);
      assert Power(n) == 10 * p;
      TenTimes(d, p);
    }
  }

  lemma TenTimes(d: int, p: int)
    ensures d * (10 * p) == 10 * (d * p)
  {
  }

  lemma {:induction false} NatIff(s: string, n: nat)
    ensures ReadNat(s) == Some(n) <==> Digits(s) && n == Decimal(s)
    decreases |s|
  {
    hide Decimal, Power;
    if s != "" && '0' <= s[|s| - 1] <= '9' {
      var k := |s| - 1;
      var last := s[k] as int - '0' as int;
      if k == 0 {
        OneDigit(s);
      } else {
        if Digits(s) {
          DecimalLast(s);
          NatIff(s[..k], Decimal(s[..k]));
        }
        if ReadNat(s[..k]).Some? {
          NatIff(s[..k], ReadNat(s[..k]).value);
          assert forall i :: 0 <= i < k ==> s[i] == s[..k][i];
          DecimalLast(s);
        }
      }
    }
  }

  lemma OneDigit(s: string)
    requires |s| == 1 && '0' <= s[0] <= '9'
    ensures Decimal(s) == s[0] as int - '0' as int
  {
    assert s[1..] == "" && Power(0) == 1;
  }

  lemma IntIff(s: string, n: int)
    ensures ReadInt(s) == Some(n) <==> Writes(s, n)
  {
    hide ReadNat, Decimal, Power;
    if s != "" && s[0] == '-' {
      if ReadNat(s[1..]).Some? { NatIff(s[1..], ReadNat(s[1..]).value); }
      if Digits(s[1..]) { NatIff(s[1..], Decimal(s[1..])); }
    } else {
      if ReadNat(s).Some? { NatIff(s, ReadNat(s).value); }
      if Digits(s) { NatIff(s, Decimal(s)); }
    }
  }

  // ---- lists

  /** The items between the cell's spaces, a blank cell holding none. */
  predicate Lists(cell: string, xs: seq<string>) {
    if cell == "" then xs == []
    else xs != [] && (forall x :: x in xs ==> ' ' !in x) && Joined(xs, ' ') == cell
  }

  lemma ListIff(cell: string, xs: seq<string>)
    ensures CellList(cell) == xs <==> Lists(cell, xs)
  {
    if cell != "" {
      SplitJoins(cell);
      SplitHasNone(cell, ' ');
      if Lists(cell, xs) { SplitJoined(xs, ' '); }
    }
  }

  lemma JoinedFirst(x: string, rest: seq<string>)
    ensures Joined([x] + rest, ' ') == if rest == [] then x else x + " " + Joined(rest, ' ')
  {
    assert ([x] + rest)[1..] == rest;
  }

  lemma {:induction false} SplitJoins(s: string)
    ensures SplitOn(s, ' ') != [] && Joined(SplitOn(s, ' '), ' ') == s
    decreases |s|
  {
    hide IndexOf, Joined;
    var k := IndexOf(s, ' ');
    if k < |s| {
      SplitJoins(s[k + 1..]);
      JoinedFirst(s[..k], SplitOn(s[k + 1..], ' '));
      assert s == s[..k] + " " + s[k + 1..];
    } else {
      JoinedFirst(s, []);
      assert [s] + [] == [s];
    }
  }

  // ---- functions

  /** The row is this entry's: a blank rank is none, and a blank list of parameters is one
      blank name where there is a rank, none where there is not. */
  predicate RowIs(row: FnRow, e: Entry) {
    && e.kind == row.kind && e.name == row.name
    && (if row.rank == "" then e.rank.None? else e.rank.Some? && Writes(row.rank, e.rank.value))
    && (if row.params == "" then e.params == (if e.rank.None? then [] else [""]) else Lists(row.params, e.params))
  }

  ghost predicate IsEntry(row: FnRow) { exists e :: RowIs(row, e) }

  lemma RowIff(row: FnRow, e: Entry)
    ensures RowEntry(row) == Some(e) <==> RowIs(row, e)
  {
    hide ReadInt, Writes, CellList, Lists;
    if ReadInt(row.rank).Some? { IntIff(row.rank, ReadInt(row.rank).value); }
    if e.rank.Some? { IntIff(row.rank, e.rank.value); }
    ListIff(row.params, e.params);
  }

  /** The entries of one namespace's rows, in the order they stand. */
  ghost predicate Gathers(rows: seq<FnRow>, ns: string, es: seq<Entry>)
    decreases |rows|
  {
    if rows == [] then es == []
    else
      var n := |rows| - 1;
      if rows[n].ns == ns then es != [] && RowIs(rows[n], es[|es| - 1]) && Gathers(rows[..n], ns, es[..|es| - 1])
      else Gathers(rows[..n], ns, es)
  }

  lemma {:induction false} RowsLast(rows: seq<FnRow>, so: Option<map<string, seq<Entry>>>)
    requires rows != []
    ensures ReadRows(rows, so) == AddRow(ReadRows(rows[..|rows| - 1], so), rows[|rows| - 1])
    decreases |rows|
  {
    hide AddRow;
    if |rows| == 1 {
      assert rows[1..] == [] && rows[..0] == [];
    } else {
      RowsLast(rows[1..], AddRow(so, rows[0]));
      assert rows[1..][..|rows| - 2] == rows[..|rows| - 1][1..];
    }
  }

  function Held(fns: map<string, seq<Entry>>, ns: string): seq<Entry> { if ns in fns then fns[ns] else [] }

  /** FUNCTIONS. The rows are read exactly when each is some entry's, and each namespace then
      holds its rows' entries in their order. */
  lemma {:induction false} RowsSay(rows: seq<FnRow>, ns: string)
    ensures var r := ReadRows(rows, Some(map[]));
            && (r.Some? <==> forall i :: 0 <= i < |rows| ==> IsEntry(rows[i]))
            && (r.Some? ==> (ns in r.value <==> exists i :: 0 <= i < |rows| && rows[i].ns == ns))
            && (r.Some? ==> Gathers(rows, ns, Held(r.value, ns)))
    decreases |rows|
  {
    hide RowEntry, RowIs, IsEntry;
    if rows != [] {
      var n := |rows| - 1;
      RowsSay(rows[..n], ns);
      RowsLast(rows, Some(map[]));
      RowRead(rows[n]);
      EachRow(rows);
      if RowEntry(rows[n]).Some? { RowIff(rows[n], RowEntry(rows[n]).value); }
      assert forall i :: 0 <= i < n ==> rows[i] == rows[..n][i];
    }
  }

  lemma RowRead(row: FnRow)
    ensures RowEntry(row).Some? <==> IsEntry(row)
  {
    hide RowIs, RowEntry;
    if RowEntry(row).Some? { RowIff(row, RowEntry(row).value); }
    if e :| RowIs(row, e) { RowIff(row, e); }
  }

  lemma EachRow(rows: seq<FnRow>)
    requires rows != []
    ensures var n := |rows| - 1;
            (forall i :: 0 <= i < |rows| ==> IsEntry(rows[i])) <==>
            (forall i :: 0 <= i < n ==> IsEntry(rows[..n][i])) && IsEntry(rows[n])
  {
    hide IsEntry;
    var n := |rows| - 1;
    assert forall i :: 0 <= i < n ==> rows[i] == rows[..n][i];
  }

  // ---- tables

  function CellsOf(rows: seq<ColumnRow>, table: string, types: bool): seq<string> {
    if rows == [] then []
    else
      var n := |rows| - 1;
      CellsOf(rows[..n], table, types) +
      if rows[n].table == table then [if types then rows[n].qtype else rows[n].column] else []
  }

  lemma {:induction false} ColumnsLast(rows: seq<ColumnRow>, so: map<string, Table>)
    requires rows != []
    ensures ReadColumns(rows, so) == AddColumn(ReadColumns(rows[..|rows| - 1], so), rows[|rows| - 1])
    decreases |rows|
  {
    hide AddColumn;
    if |rows| == 1 {
      assert rows[1..] == [] && rows[..0] == [];
    } else {
      ColumnsLast(rows[1..], AddColumn(so, rows[0]));
      assert rows[1..][..|rows| - 2] == rows[..|rows| - 1][1..];
    }
  }

  /** TABLES. Each table named by a row holds its rows' columns and types in their order. */
  lemma {:induction false} ColumnsSay(rows: seq<ColumnRow>, table: string)
    ensures var r := ReadColumns(rows, map[]);
            && (table in r <==> exists i :: 0 <= i < |rows| && rows[i].table == table)
            && (table in r ==> r[table] == Table(CellsOf(rows, table, false), CellsOf(rows, table, true)))
            && (table !in r ==> CellsOf(rows, table, false) == [] && CellsOf(rows, table, true) == [])
    decreases |rows|
  {
    if rows != [] {
      var n := |rows| - 1;
      ColumnsSay(rows[..n], table);
      ColumnsLast(rows, map[]);
      assert forall i :: 0 <= i < n ==> rows[i] == rows[..n][i];
    }
  }

  // ---- processes and transports

  predicate ProcessIs(row: ProcessRow, p: Process) {
    && p.name == row.name && p.proctype == row.proctype && Writes(row.offset, p.offset)
    && Lists(row.subscribes, p.subscribes) && Lists(row.publishes, p.publishes)
  }

  /** PROCESSES. The rows are read as these processes exactly when each row is its process's. */
  lemma {:induction false} ProcessesSay(rows: seq<ProcessRow>, ps: seq<Process>)
    ensures ReadProcesses(rows) == Some(ps) <==>
              |ps| == |rows| && forall i :: 0 <= i < |rows| ==> ProcessIs(rows[i], ps[i])
    decreases |rows|
  {
    hide ReadInt, CellList, Writes, Lists;
    if rows != [] {
      var row := rows[0];
      if ReadInt(row.offset).Some? { IntIff(row.offset, ReadInt(row.offset).value); }
      if ReadProcesses(rows[1..]).Some? { ProcessesSay(rows[1..], ReadProcesses(rows[1..]).value); }
      if ps != [] {
        IntIff(row.offset, ps[0].offset);
        ListIff(row.subscribes, ps[0].subscribes);
        ListIff(row.publishes, ps[0].publishes);
        ProcessesSay(rows[1..], ps[1..]);
        assert ps == [ps[0]] + ps[1..];
        assert forall i :: 1 <= i < |rows| ==> rows[i] == rows[1..][i - 1];
        assert forall i :: 1 <= i < |ps| ==> ps[i] == ps[1..][i - 1];
      }
    }
  }

  /** TRANSPORTS. Each row is a transport, the default one where the cell is `1`. */
  lemma TransportsSay(rows: seq<TransportRow>)
    ensures var ts := ReadTransports(rows);
            |ts| == |rows| && forall i :: 0 <= i < |rows| ==>
              && ts[i].name == rows[i].name && (ts[i].isDefault <==> rows[i].isDefault == "1")
              && ts[i].expects == rows[i].expects && ts[i].example == rows[i].example && ts[i].note == rows[i].note
  {
  }

  // ---- the order rows are written in

  /** By namespace, and in one namespace by name. */
  ghost predicate RowsAscend(rows: seq<FnRow>) {
    forall i, j :: 0 <= i < j < |rows| ==>
      Precedes(rows[i].ns, rows[j].ns) && (rows[i].ns == rows[j].ns ==> Precedes(rows[i].name, rows[j].name))
  }

  lemma {:induction false} EntriesRow(ns: string, es: seq<Entry>)
    ensures |EntryRows(ns, es)| == |es|
    ensures forall i :: 0 <= i < |es| ==> EntryRows(ns, es)[i].ns == ns && EntryRows(ns, es)[i].name == es[i].name
  {
    hide ListCell, Show;
    if es != [] {
      EntriesRow(ns, es[1..]);
      assert forall i :: 1 <= i < |es| ==> es[i] == es[1..][i - 1];
    }
  }

  lemma NameOfSelf(ns: string)
    ensures Precedes(ns, ns)
  {
    assert AgreeTo(ns, ns, |ns|);
  }

  /** Written rows come by namespace and name. */
  lemma {:induction false} FunctionRowsAscend(fns: map<string, seq<Entry>>, nss: seq<string>)
    requires forall i, j :: 0 <= i < j < |nss| ==> UpTo(nss[i], nss[j]) && nss[i] != nss[j]
    ensures RowsAscend(FunctionRows(fns, nss))
    ensures forall i :: 0 <= i < |FunctionRows(fns, nss)| ==> FunctionRows(fns, nss)[i].ns in nss
    decreases |nss|
  {
    hide EntryRows, SortBy, UpTo, Precedes;
    if nss != [] {
      var ns, rest := nss[0], FunctionRows(fns, nss[1..]);
      var es := SortBy(EntryName, EntriesOf(fns, ns));
      var block := EntryRows(ns, es);
      FunctionRowsAscend(fns, nss[1..]);
      EntriesRow(ns, es);
      Sorts(EntryName, EntriesOf(fns, ns));
      NameOfSelf(ns);
      forall i, j | 0 <= i < j < |block| ensures Precedes(block[i].name, block[j].name) {
        OrderIff(es[i].name, es[j].name);
      }
      forall x | x in nss[1..] ensures Precedes(ns, x) && ns != x {
        var k :| 0 <= k < |nss[1..]| && nss[1..][k] == x;
        assert UpTo(nss[0], nss[k + 1]) && nss[0] != nss[k + 1];
        OrderIff(ns, x);
      }
      BlocksAscend(block, rest, ns, nss[1..]);
    }
  }

  lemma OrderIff(a: string, b: string)
    ensures UpTo(a, b) <==> Precedes(a, b)
  {
    hide Precedes;
    NameOrderIff(a, b);
  }

  lemma BlocksAscend(block: seq<FnRow>, rest: seq<FnRow>, ns: string, others: seq<string>)
    requires forall i :: 0 <= i < |block| ==> block[i].ns == ns
    requires forall i, j :: 0 <= i < j < |block| ==> Precedes(block[i].name, block[j].name)
    requires RowsAscend(rest) && Precedes(ns, ns)
    requires forall i :: 0 <= i < |rest| ==> rest[i].ns in others
    requires forall x :: x in others ==> Precedes(ns, x) && ns != x
    ensures RowsAscend(block + rest)
  {
    hide Precedes;
    var rows := block + rest;
    forall i, j | 0 <= i < j < |rows|
      ensures Precedes(rows[i].ns, rows[j].ns) && (rows[i].ns == rows[j].ns ==> Precedes(rows[i].name, rows[j].name)) {
      if i < |block| <= j {
        assert rows[j] == rest[j - |block|] && rest[j - |block|].ns in others;
      }
    }
  }

  /** ORDER. A surface's functions are written by namespace and name, its processes and
      variables by name. */
  lemma WrittenInOrder(s: Surface, f: Files)
    requires WriteSurface(s) == Some(f)
    ensures RowsAscend(f.functions)
    ensures forall i, j :: 0 <= i < j < |f.processes| ==> Precedes(f.processes[i].name, f.processes[j].name)
    ensures forall i, j :: 0 <= i < j < |f.variables| ==> Precedes(f.variables[i], f.variables[j])
  {
    hide FunctionRows, TableRows, SortBy, ListCell, Show, Precedes, UpTo;
    FunctionRowsAscend(s.functions, Sorted(s.functions.Keys));
    var ps, vs := SortBy(ProcessName, s.processes), SortBy(Itself, s.variables);
    Sorts(ProcessName, s.processes);
    Sorts(Itself, s.variables);
    forall i, j | 0 <= i < j < |ps| ensures Precedes(ps[i].name, ps[j].name) {
      assert UpTo(ProcessName(ps[i]), ProcessName(ps[j]));
      OrderIff(ps[i].name, ps[j].name);
    }
    forall i, j | 0 <= i < j < |vs| ensures Precedes(vs[i], vs[j]) {
      assert UpTo(Itself(vs[i]), Itself(vs[j]));
      OrderIff(vs[i], vs[j]);
    }
  }
}
