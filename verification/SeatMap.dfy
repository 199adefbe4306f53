/**
 Where a showtime's seats come from: the seeder's grid of generated ids, `createShowtime`'s map, and the
 list that `initializeShowtimeSeats` hands to the seat store.
 */
module SeatMap {
  import opened Basics
  import opened SeatModel
  import opened SeatArguments
  import opened SeatScripts
  import opened SeatCounter

  function Decimal(n: nat): (s: Str)
    ensures |s| > 0
  {
    if n < 10 then [48 + n] else Decimal(n / 10) + [48 + n % 10]
  }

  lemma {:induction false} DecimalInjective(m: nat, n: nat)
    ensures Decimal(m) == Decimal(n) ==> m == n
    decreases m
  {
    var s, t := Decimal(m), Decimal(n);
    if s == t {
      assert s[|s| - 1] == 48 + m % 10 && t[|t| - 1] == 48 + n % 10;
      if m >= 10 && n >= 10 {
        assert s[..|s| - 1] == Decimal(m / 10) && t[..|t| - 1] == Decimal(n / 10);
        DecimalInjective(m / 10, n / 10);
      } else {
        assert |Decimal(m / 10)| > 0 && |Decimal(n / 10)| > 0;
      }
    }
  }

  /** The row letter, one 16-bit code unit counted from `A`, and the column in decimal. */
  function GenerateSeatId(row: nat, col: nat): Str {
    [(65 + row) % 0x1_0000] + Decimal(col)
  }

  function DetermineSeatType(row: nat, col: nat, rows: nat, cols: nat): Str {
    if row >= rows - 2 then VIP
    else if row == 0 && col % 2 == 0 && col < cols then COUPLE
    else STANDARD
  }

  /** The last two rows are vip; in other grids the even columns of the first row, but for its last, are couple. */
  lemma CellTypes(row: nat, col: nat, rows: nat, cols: nat)
    ensures var t := DetermineSeatType(row, col, rows, cols);
            && (t == VIP <==> row + 2 >= rows)
            && (t == COUPLE <==> row == 0 && rows > 2 && col % 2 == 0 && col < cols)
            && (t == STANDARD <==> row + 2 < rows && (row > 0 || col % 2 == 1 || col >= cols))
  {
  }

  predicate IsDigit(c: CodeUnit) {
    48 <= c <= 57
  }

  function Number(s: Str): nat
    requires forall i :: 0 <= i < |s| ==> IsDigit(s[i])
  {
    if s == [] then 0 else
      var last: int := s[|s| - 1];
      assert IsDigit(s[|s| - 1]);
      10 * Number(s[..|s| - 1]) + (last - 48)
  }

  lemma {:induction false} DecimalIsNumber(n: nat)
    ensures forall i :: 0 <= i < |Decimal(n)| ==> IsDigit(Decimal(n)[i])
    ensures Number(Decimal(n)) == n
    ensures |Decimal(n)| <= 2 <==> n < 100
  {
    if n >= 10 {
      DecimalIsNumber(n / 10);
      assert Decimal(n)[..|Decimal(n)| - 1] == Decimal(n / 10);
      if n >= 100 {
        assert |Decimal(n / 10)| > 1;
      } else {
        assert |Decimal(n / 10)| == 1;
      }
    } else {
      assert Decimal(n)[..0] == [];
    }
  }

  /** The ids that a request to hold seats may name: a capital letter and one or two digits. */
  predicate SeatCode(s: Str) {
    2 <= |s| <= 3 && 65 <= s[0] <= 90 && forall i :: 1 <= i < |s| ==> IsDigit(s[i])
  }

  /** An id is the row's letter and the column in decimal, and users can ask for it up to row Z and column 99. */
  lemma GeneratedIds(row: nat, col: nat)
    requires row < 0x1_0000 - 65
    ensures var id := GenerateSeatId(row, col);
            && id[0] == 65 + row
            && (forall i :: 1 <= i < |id| ==> IsDigit(id[i])) && Number(id[1..]) == col
            && (SeatCode(id) <==> row < 26 && col < 100)
  {
    DecimalIsNumber(col);
    assert GenerateSeatId(row, col)[1..] == Decimal(col);
  }

  /** Ids that a request may name are non-empty and colon-free, so they survive printing and parsing. */
  lemma SeatCodesArePlain(s: Str)
    ensures SeatCode(s) ==> Plain(s)
  {
    if SeatCode(s) {
      assert forall i :: 0 <= i < |s| ==> s[i] != COLON by {
        forall i | 0 <= i < |s|
          ensures s[i] != COLON
        {
          assert i == 0 || IsDigit(s[i]);
        }
      }
    }
  }

  lemma SameIdSameCell(r: nat, c: nat, r': nat, c': nat)
    ensures GenerateSeatId(r, c) == GenerateSeatId(r', c') <==> r % 0x1_0000 == r' % 0x1_0000 && c == c'
  {
    var s, t := GenerateSeatId(r, c), GenerateSeatId(r', c');
    assert s[1..] == Decimal(c) && t[1..] == Decimal(c');
    assert s[0] == (65 + r) % 0x1_0000 && t[0] == (65 + r') % 0x1_0000;
    if s == t {
      assert s[1..] == t[1..];
      DecimalInjective(c, c');
    }
  }

  ghost predicate IdsInjective(rows: nat, cols: nat) {
    forall r, c, r', c' |
      0 <= r < rows && 1 <= c <= cols && 0 <= r' < rows && 1 <= c' <= cols &&
      GenerateSeatId(r, c) == GenerateSeatId(r', c') ::
      r == r' && c == c'
  }

  /** The ids of a grid are all different exactly until the row letters run out. */
  lemma IdsInjectiveIff(rows: nat, cols: nat)
    ensures IdsInjective(rows, cols) <==> rows <= 0x1_0000 || cols == 0
  {
    forall r: nat, c: nat, r': nat, c': nat
      ensures GenerateSeatId(r, c) == GenerateSeatId(r', c') <==> r % 0x1_0000 == r' % 0x1_0000 && c == c'
    {
      SameIdSameCell(r, c, r', c');
    }
    if rows > 0x1_0000 && cols > 0 {
      assert GenerateSeatId(0, 1) == GenerateSeatId(0x1_0000, 1);
    }
  }

  function RowIds(row: nat, cols: nat): set<Str> {
    set c | 1 <= c <= cols :: GenerateSeatId(row, c)
  }

  function GridIds(rows: nat, cols: nat): set<Str> {
    set r, c | 0 <= r < rows && 1 <= c <= cols :: GenerateSeatId(r, c)
  }

  lemma {:induction false} RowSize(row: nat, cols: nat)
    ensures |RowIds(row, cols)| == cols
  {
    if cols > 0 {
      RowSize(row, cols - 1);
      assert RowIds(row, cols) == RowIds(row, cols - 1) + {GenerateSeatId(row, cols)};
      if GenerateSeatId(row, cols) in RowIds(row, cols - 1) {
        var c :| 1 <= c <= cols - 1 && GenerateSeatId(row, c) == GenerateSeatId(row, cols);
        SameIdSameCell(row, c, row, cols);
        assert false;
      }
    }
  }

  lemma GridGrows(row: nat, cols: nat)
    ensures GridIds(row + 1, cols) == GridIds(row, cols) + RowIds(row, cols)
  {
    forall id | id in GridIds(row + 1, cols)
      ensures id in GridIds(row, cols) + RowIds(row, cols)
    {
      var r, c :| 0 <= r < row + 1 && 1 <= c <= cols && id == GenerateSeatId(r, c);
      if r == row {
        assert id in RowIds(row, cols);
      }
    }
  }

  lemma NewRow(row: nat, cols: nat)
    requires row < 0x1_0000
    ensures GridIds(row, cols) !! RowIds(row, cols)
  {
    if id :| id in GridIds(row, cols) && id in RowIds(row, cols) {
      var c' :| 1 <= c' <= cols && id == GenerateSeatId(row, c');
      var r, c :| 0 <= r < row && 1 <= c <= cols && id == GenerateSeatId(r, c);
      SameIdSameCell(r, c, row, c');
      assert false;
    }
  }

  lemma {:induction false} GridSize(rows: nat, cols: nat)
    requires rows <= 0x1_0000
    ensures |GridIds(rows, cols)| == rows * cols
  {
    if rows > 0 {
      var row := rows - 1;
      GridSize(row, cols);
      GridGrows(row, cols);
      RowSize(row, cols);
      NewRow(row, cols);
      assert rows * cols == row * cols + cols;
    } else {
      assert GridIds(0, cols) == {};
    }
  }

  /** `generateSeatsMap`: exactly the grid's ids that are not listed as unavailable. */
  method GenerateSeatsMap(rows: nat, cols: nat, unavailable: seq<Str>) returns (m: map<Str, Str>)
    ensures m.Keys == GridIds(rows, cols) - Elems(unavailable)
    ensures rows <= 0x1_0000 ==> |m| == rows * cols - |GridIds(rows, cols) * Elems(unavailable)|
    ensures rows <= 0x1_0000 ==>
              forall r, c :: 0 <= r < rows && 1 <= c <= cols && GenerateSeatId(r, c) in m ==>
                m[GenerateSeatId(r, c)] == DetermineSeatType(r, c, rows, cols)
  {
    m := map[];
    var skip := Elems(unavailable);
    for row := 0 to rows
      invariant m.Keys == GridIds(row, cols) - skip
      invariant rows <= 0x1_0000 ==> TypedUpTo(m, row, 0, rows, cols)
    {
      var col := 1;
      while col <= cols
        invariant 1 <= col <= cols + 1
        invariant m.Keys == (GridIds(row, cols) + RowIds(row, col - 1)) - skip
        invariant rows <= 0x1_0000 ==> TypedUpTo(m, row, col - 1, rows, cols)
      {
        var id := GenerateSeatId(row, col);
        assert RowIds(row, col) == RowIds(row, col - 1) + {id};
        if rows <= 0x1_0000 {
          TypedStep(m, row, col, rows, cols);
        }
        if id !in skip {
          m := m[id := DetermineSeatType(row, col, rows, cols)];
        }
        col := col + 1;
      }
      GridGrows(row, cols);
    }
    if rows <= 0x1_0000 {
      GridSize(rows, cols);
      var grid := GridIds(rows, cols);
      assert grid == (grid - skip) + (grid * skip);
      assert |m| == |m.Keys|;
    }
  }

  /** Types are right in the rows before `row` and in the first `done` columns of `row`. */
  ghost predicate TypedUpTo(m: map<Str, Str>, row: nat, done: nat, rows: nat, cols: nat) {
    forall r: nat, c: nat :: (r < row && 1 <= c <= cols) || (r == row && 1 <= c <= done) ==>
      (GenerateSeatId(r, c) in m ==> m[GenerateSeatId(r, c)] == DetermineSeatType(r, c, rows, cols))
  }

  lemma TypedStep(m: map<Str, Str>, row: nat, col: nat, rows: nat, cols: nat)
    requires row < rows <= 0x1_0000 && 1 <= col <= cols
    requires TypedUpTo(m, row, col - 1, rows, cols)
    ensures TypedUpTo(m[GenerateSeatId(row, col) := DetermineSeatType(row, col, rows, cols)], row, col, rows, cols)
    ensures GenerateSeatId(row, col) !in m ==> TypedUpTo(m, row, col, rows, cols)
  {
    forall r: nat, c: nat | r <= row
      ensures GenerateSeatId(r, c) == GenerateSeatId(row, col) ==> r == row && c == col
    {
      SameIdSameCell(r, c, row, col);
    }
  }

  /** The map of `createShowtime`: a repeated id keeps its last type. */
  method BuildSeatsMap(list: seq<Request>) returns (m: map<SeatId, Str>)
    ensures m == map k | k in Ids(list) :: TypeFor(list, k)
  {
    m := map[];
    for i := 0 to |list|
      invariant m == map k | k in Ids(list[..i]) :: TypeFor(list[..i], k)
    {
      assert list[..i + 1] == list[..i] + [list[i]];
      IdsAppend(list[..i], list[i]);
      m := m[list[i].id := list[i].seatType];
    }
    assert list[..|list|] == list;
  }

  function TypeOrDefault(t: Str): (r: Str)
    ensures r == STANDARD || r == t
    ensures t != [] ==> r == t
  {
    if t == [] then STANDARD else t
  }

  /** `initializeShowtimeSeats`: pushes the map's entries into a list, in the map's own order. */
  method SeatList(m: map<SeatId, Str>) returns (list: seq<Request>)
    ensures Distinct(Ids(list)) && Elems(Ids(list)) == m.Keys
    ensures forall i :: 0 <= i < |list| ==> list[i].id in m && list[i].seatType == TypeOrDefault(m[list[i].id])
  {
    list := [];
    var todo := m.Keys;
    while todo != {}
      invariant todo <= m.Keys
      invariant Distinct(Ids(list)) && Elems(Ids(list)) == m.Keys - todo
      invariant forall i :: 0 <= i < |list| ==> list[i].id in m && list[i].seatType == TypeOrDefault(m[list[i].id])
      decreases todo
    {
      var id :| id in todo;
      assert forall i :: 0 <= i < |list| ==> Ids(list)[i] in Elems(Ids(list));
      ghost var prev := list;
      list := list + [Request(id, TypeOrDefault(m[id]))];
      IdsAppend(prev, Request(id, TypeOrDefault(m[id])));
      assert Elems(Ids(list)) == Elems(Ids(prev)) + {id};
      todo := todo - {id};
    }
  }

  /**
   A new showtime starts with the counter at the number of fields, whatever repetitions the seat list
   given to `createShowtime` contained.
   */
  method CreateShowtime(list: seq<Request>, store: SeatStore) returns (totalSeats: nat)
    requires store.seats == map[]
    modifies store
    ensures totalSeats == |list|
    ensures store.seats.Keys == Elems(Ids(list))
    ensures forall k :: k in store.seats ==> store.seats[k] == Available(TypeOrDefault(TypeFor(list, k)))
    ensures Surplus(store.Snapshot()) == 0 && store.available == |store.seats| <= totalSeats
    ensures totalSeats == store.available <==> Distinct(Ids(list))
  {
    var m := BuildSeatsMap(list);
    assert m.Keys == Elems(Ids(list));
    var seats := SeatList(m);
    store.InitializeShowtime(seats, false);
    InitExactIff(seats);
    DistinctIffFull(Ids(list));
    DistinctIffFull(Ids(seats));
    assert |store.seats| == |store.seats.Keys|;
    forall k | k in store.seats
      ensures TypeFor(seats, k) == TypeOrDefault(m[k])
    {
      TypeForFrom(seats, m, k);
    }
    totalSeats := |list|;
  }

  lemma {:induction false} TypeForFrom(list: seq<Request>, m: map<SeatId, Str>, k: SeatId)
    requires forall i :: 0 <= i < |list| ==> list[i].id in m && list[i].seatType == TypeOrDefault(m[list[i].id])
    requires k in Ids(list)
    ensures k in m && TypeFor(list, k) == TypeOrDefault(m[k])
  {
    var n := |list| - 1;
    if list[n].id != k {
      var i :| 0 <= i < |list| && Ids(list)[i] == k;
      assert Ids(list[..n])[i] == k;
      TypeForFrom(list[..n], m, k);
    }
  }
}
