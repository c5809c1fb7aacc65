/**
 * The logic of the SQLite storage layer that lies around its SQL: the
 * default limit, the encoding of rows into the `intval`/`strval` columns
 * and their folding back, the choice of a property query by the types of
 * its arguments, the iden ranges `_genStoreRows` walks, the blob store and
 * the connection pool.  The database itself is a value here: a table is a
 * sequence of rows, and a query that is sent to it is returned, not run.
 */
module Sqlite {
  import opened Wrappers
  import opened Placeholders
  import opened SqliteQuery

  // ------------------------------------------------------------------
  // The default limit

  /** `dblim`: -1, which SQLite reads as "no limit". */
  const DbLim: int := -1

  /** `_getDbLimit`: the limit given, or the default when there is none. */
  function GetDbLimit(limit: Option<int>): (r: int)
    ensures limit.Some? ==> r == limit.value
    ensures limit.None? ==> r == DbLim && r < 0
  {
    if limit.Some? then limit.value else DbLim
  }

  // ------------------------------------------------------------------
  // Rows and their columns

  /** A row value: an int, a string, or None. */
  datatype Valu = IntV(i: int) | StrV(s: string) | NoneV

  /** A row as the storage layer is handed it: (iden, prop, valu, tstamp). */
  datatype Row = Row(iden: string, prop: string, valu: Valu, tstamp: int)

  /** The named arguments `_addRows` binds for one row of the insert. */
  datatype RowArgs = RowArgs(iden: string, prop: string, intval: Option<int>, strval: Option<string>, tstamp: int)

  /** A cell of the table: NULL, an integer or text. */
  datatype Cell = Null | IntCell(i: int) | TextCell(s: string)

  /** A row of the table, its columns in the order the table declares them. */
  datatype TableRow = TableRow(iden: string, prop: string, strval: Cell, intval: Cell, tstamp: int)

  /** A row as `_foldTypeCols` returns it; its value is whichever cell it picked. */
  datatype Folded = Folded(iden: string, prop: string, valu: Cell, tstamp: int)

  /** The cell a row value belongs in. */
  function CellOf(v: Valu): Cell
  {
    match v
    case IntV(i) => IntCell(i)
    case StrV(s) => TextCell(s)
    case NoneV => Null
  }

  /**
   * `_addRows`, for one row: an int goes in `intval`, anything else in
   * `strval`, and the other is None; a None value leaves both None.
   */
  function Encode(r: Row): (a: RowArgs)
    ensures a.intval.Some? <==> r.valu.IntV?
    ensures a.strval.Some? <==> r.valu.StrV?
    ensures r.valu.IntV? ==> a.intval == Some(r.valu.i)
    ensures r.valu.StrV? ==> a.strval == Some(r.valu.s)
    ensures (a.iden, a.prop, a.tstamp) == (r.iden, r.prop, r.tstamp)
  {
    match r.valu
    case IntV(i) => RowArgs(r.iden, r.prop, Some(i), None, r.tstamp)
    case StrV(s) => RowArgs(r.iden, r.prop, None, Some(s), r.tstamp)
    case NoneV => RowArgs(r.iden, r.prop, None, None, r.tstamp)
  }

  /** The table row the insert of `_t_addrows` stores: its parameters are bound by name. */
  function Insert(a: RowArgs): TableRow
  {
    TableRow(a.iden, a.prop,
             if a.strval.Some? then TextCell(a.strval.value) else Null,
             if a.intval.Some? then IntCell(a.intval.value) else Null,
             a.tstamp)
  }

  /**
   * `_foldTypeCols`, for one row: it unpacks the selected columns by
   * position as `iden, prop, intval, strval, tstamp`, so the cell it names
   * `intval` is the table's `strval` column, and it keeps that one unless
   * it is NULL.
   */
  function FoldRow(t: TableRow): (f: Folded)
    ensures (f.iden, f.prop, f.tstamp) == (t.iden, t.prop, t.tstamp)
    ensures t.strval != Null ==> f.valu == t.strval
    ensures t.strval == Null ==> f.valu == t.intval
  {
    match t
    case TableRow(iden, prop, intval, strval, tstamp) =>
      if intval != Null then Folded(iden, prop, intval, tstamp) else Folded(iden, prop, strval, tstamp)
  }

  /** The fold the column names suggest: the `intval` column first. */
  function FoldByName(t: TableRow): Folded
  {
    if t.intval != Null then Folded(t.iden, t.prop, t.intval, t.tstamp) else Folded(t.iden, t.prop, t.strval, t.tstamp)
  }

  /**
   * A stored row has at most one of its two value cells set, both being
   * NULL exactly for a None value, and so the fold reads it the same
   * whichever of the two columns it looks at first.
   */
  lemma InsertOneCell(r: Row)
    ensures Insert(Encode(r)).strval == Null || Insert(Encode(r)).intval == Null
    ensures (Insert(Encode(r)).strval == Null && Insert(Encode(r)).intval == Null) <==> r.valu.NoneV?
    ensures FoldRow(Insert(Encode(r))) == FoldByName(Insert(Encode(r)))
  {
  }

  /** Where both value cells are set, the positional fold reads the `strval` column, not `intval`. */
  lemma FoldReadsStrvalFirst(t: TableRow)
    requires t.strval != Null && t.intval != Null
    ensures FoldRow(t).valu == t.strval
    ensures FoldRow(t) != FoldByName(t) <==> t.strval != t.intval
  {
  }

  /** A row stored by `_addRows` and read back by `_foldTypeCols` is the row stored. */
  lemma RowRoundTrip(r: Row)
    ensures FoldRow(Insert(Encode(r))) == Folded(r.iden, r.prop, CellOf(r.valu), r.tstamp)
  {
  }

  /** `_addRows`: the argument list for the insert, one entry per row, in order. */
  method AddRows(rows: seq<Row>) returns (args: seq<RowArgs>)
    ensures |args| == |rows|
    ensures forall i :: 0 <= i < |rows| ==> args[i] == Encode(rows[i])
  {
    args := [];
    for i := 0 to |rows|
      invariant |args| == i
      invariant forall j :: 0 <= j < i ==> args[j] == Encode(rows[j])
    {
      var Row(iden, prop, v, t) := rows[i];
      if v.IntV? {
        args := args + [RowArgs(iden, prop, Some(v.i), None, t)];
      } else {
        args := args + [RowArgs(iden, prop, None, if v.StrV? then Some(v.s) else None, t)];
      }
    }
  }

  /** `_foldTypeCols`: every selected row folded, in order. */
  method FoldTypeCols(rows: seq<TableRow>) returns (ret: seq<Folded>)
    ensures |ret| == |rows|
    ensures forall i :: 0 <= i < |rows| ==> ret[i] == FoldRow(rows[i])
  {
    ret := [];
    for i := 0 to |rows|
      invariant |ret| == i
      invariant forall j :: 0 <= j < i ==> ret[j] == FoldRow(rows[j])
    {
      var TableRow(iden, prop, intval, strval, tstamp) := rows[i];
      if intval != Null {
        ret := ret + [Folded(iden, prop, intval, tstamp)];
      } else {
        ret := ret + [Folded(iden, prop, strval, tstamp)];
      }
    }
  }

  /**
   * Rows added with `_addRows` and selected back in the same order fold
   * to the rows added, each value in its own cell.
   */
  lemma RowsRoundTrip(rows: seq<Row>)
    ensures forall i :: 0 <= i < |rows| ==>
      FoldRow(Insert(Encode(rows[i]))) == Folded(rows[i].iden, rows[i].prop, CellOf(rows[i].valu), rows[i].tstamp)
  {
    forall i | 0 <= i < |rows|
      ensures FoldRow(Insert(Encode(rows[i]))) == Folded(rows[i].iden, rows[i].prop, CellOf(rows[i].valu), rows[i].tstamp)
    {
      RowRoundTrip(rows[i]);
    }
  }

  // ------------------------------------------------------------------
  // Property queries

  /** An argument of `_runPropQuery` by its Python type. */
  datatype Arg = NoneArg | IntArg(i: int) | StrArg(s: string) | OtherArg

  /** `type(x)`. */
  function TypeOf(a: Arg): TypeTag
  {
    match a
    case NoneArg => NoneT
    case IntArg(_) => IntT
    case StrArg(_) => StrT
    case OtherArg => OtherT
  }

  /** The query `_runPropQuery` hands to the select (or the method given), with its arguments. */
  datatype PropCall = PropCall(query: PropQuery, sql: string, prop: string, valu: Arg, limit: int,
                               mintime: Arg, maxtime: Arg)

  /**
   * `_runPropQuery`: the default limit, then the query filed under the
   * types of `valu`, `mintime` and `maxtime`, prepared as at start-up, or
   * a KeyError for any other combination of types.
   */
  method RunPropQuery(kind: QueryKind, prop: string, valu: Arg, limit: Option<int>, mintime: Arg, maxtime: Arg)
    returns (r: Result<PropCall>)
    ensures r.Err? <==> TypeOf(valu) == OtherT || TypeOf(mintime) !in {NoneT, IntT} || TypeOf(maxtime) !in {NoneT, IntT}
    ensures r.Err? ==> r.error == "KeyError"
    ensures r.Ok? ==>
      var c := r.value;
      && QBuild(kind, (TypeOf(valu), TypeOf(mintime), TypeOf(maxtime))) == Some(c.query)
      && (c.prop, c.valu, c.limit, c.mintime, c.maxtime) == (prop, valu, GetDbLimit(limit), mintime, maxtime)
      && c.sql == FillIn(Flatten(Pieces(c.query)), Completion(Flatten(Pieces(c.query)), map[NameStr(TABLE) := TableName]))
      && FindAll(c.sql) == []
      && c.query.head == HeadOf(kind)
      && Selects(Pieces(c.query), TypeOf(valu), TypeOf(mintime), TypeOf(maxtime))
  {
    var lim := GetDbLimit(limit);
    var key := (TypeOf(valu), TypeOf(mintime), TypeOf(maxtime));
    QBuildFields(kind, key.0, key.1, key.2);
    var found := QBuild(kind, key);
    if found.None? {
      return Err("KeyError");
    }
    QBuildSelects(kind, key.0, key.1, key.2);
    var sql := PrepQuery(Pieces(found.value));
    r := Ok(PropCall(found.value, sql, prop, valu, lim, mintime, maxtime));
  }

  // ------------------------------------------------------------------
  // The iden ranges of `_genStoreRows`

  function Pow16(k: nat): nat
  {
    if k == 0 then 1 else 16 * Pow16(k - 1)
  }

  lemma {:induction false} Pow16Positive(k: nat)
    ensures Pow16(k) >= 1
  {
    if k > 0 {
      Pow16Positive(k - 1);
    }
  }

  lemma {:induction false} Pow16Mono(a: nat, b: nat)
    requires a <= b
    ensures Pow16(a) <= Pow16(b)
    decreases b - a
  {
    if a < b {
      Pow16Mono(a, b - 1);
      Pow16Positive(b - 1);
    }
  }

  lemma {:induction false} Pow16Add(a: nat, b: nat)
    ensures Pow16(a + b) == Pow16(a) * Pow16(b)
  {
    if b > 0 {
      Pow16Add(a, b - 1);
      assert Pow16(a + b) == 16 * Pow16(a + b - 1);
    }
  }

  /** The lower-case hex digit of `d`. */
  function HexDigit(d: nat): char
    requires d < 16
  {
    if d < 10 then ('0' as int + d) as char else ('a' as int + d - 10) as char
  }

  /** The value of a hex digit, as `int(_, 16)` reads it. */
  function DigitValue(ch: char): int
  {
    if '0' <= ch <= '9' then ch as int - '0' as int
    else if 'a' <= ch <= 'f' then ch as int - 'a' as int + 10
    else 0
  }

  /** `'{:0=wx}'.format(n)`: `n` in lower-case hex, padded with zeros to `w` digits. */
  function Hex(n: nat, w: nat): string
    decreases n, w
  {
    if n < 16 && w <= 1 then [HexDigit(n)]
    else Hex(n / 16, if w > 0 then w - 1 else 0) + [HexDigit(n % 16)]
  }

  /** `int(s, 16)` on a string of hex digits. */
  function ParseHex(s: string): int
    decreases |s|
  {
    if |s| == 0 then 0 else 16 * ParseHex(s[..|s| - 1]) + DigitValue(s[|s| - 1])
  }

  lemma DigitRoundTrip(d: nat)
    requires d < 16
    ensures DigitValue(HexDigit(d)) == d
  {
  }

  /** The hex of `n` reads back as `n`. */
  lemma {:induction false} HexParse(n: nat, w: nat)
    ensures ParseHex(Hex(n, w)) == n
    decreases n, w
  {
    DigitRoundTrip(n % 16);
    if n < 16 && w <= 1 {
      assert Hex(n, w) == [HexDigit(n)];
    } else {
      var w' := if w > 0 then w - 1 else 0;
      HexParse(n / 16, w');
      var h := Hex(n, w);
      assert h == Hex(n / 16, w') + [HexDigit(n % 16)];
      assert h[..|h| - 1] == Hex(n / 16, w');
    }
  }

  /** The hex of `n` has at least `w` digits, and exactly `w` when `n` fits in them. */
  lemma {:induction false} HexLength(n: nat, w: nat)
    ensures |Hex(n, w)| >= 1 && |Hex(n, w)| >= w
    ensures w >= 1 && n < Pow16(w) ==> |Hex(n, w)| == w
    decreases n, w
  {
    if !(n < 16 && w <= 1) {
      var w' := if w > 0 then w - 1 else 0;
      HexLength(n / 16, w');
      if w >= 1 && n < Pow16(w) {
        Pow16Positive(w');
        assert n / 16 < Pow16(w');
      }
    }
  }

  /** A run of `n` zeros. */
  function Zeros(n: nat): (s: string)
    ensures |s| == n && forall i :: 0 <= i < n ==> s[i] == '0'
  {
    seq(n, _ => '0')
  }

  lemma {:induction false} ParseZeros(n: nat)
    ensures ParseHex(Zeros(n)) == 0
    decreases n
  {
    if n > 0 {
      ParseZeros(n - 1);
      assert Zeros(n)[..n - 1] == Zeros(n - 1);
    }
  }

  /**
   * 2^1024 - 2^970, half way between the largest finite IEEE 754 double and
   * 2^1024: the true division `a / b` of two integers raises OverflowError
   * exactly when `a / b` is at least this, since it rounds to nearest, ties
   * to even, and the tie rounds up to 2^1024.
   */
  const FloatOverflow: nat := 179769313486231580793728971405303415079934132710037826936173778980444968292764750946649017977587207096330286416692887910946555547851940402630657488671505820681908902000708383676273854845817711531764475730270069855571366959622842914819860834936475292719074168444365510704342711559699508093042880177904174497792

  /** Whether Python's true division `a / b` of two integers raises OverflowError. */
  predicate DivOverflows(a: nat, b: nat)
    requires b > 0
  {
    a >= FloatOverflow * b
  }

  /** With the smallest `incvalu`, 1, the division overflows exactly from a `slicebytes` of 256 on. */
  lemma OverflowFrom256(k: nat)
    ensures DivOverflows(Pow16(k), 1) <==> k >= 256
  {
    assert Pow16(1) == 16;
    Pow16Add(1, 1);
    assert Pow16(2) == 256;
    Pow16Add(2, 2);
    assert Pow16(4) == 65536;
    Pow16Add(4, 4);
    assert Pow16(8) == 4294967296;
    Pow16Add(8, 8);
    assert Pow16(16) == 18446744073709551616;
    Pow16Add(16, 16);
    assert Pow16(32) == 340282366920938463463374607431768211456;
    Pow16Add(32, 32);
    assert Pow16(64) == 115792089237316195423570985008687907853269984665640564039457584007913129639936;
    Pow16Add(64, 64);
    assert Pow16(128) == 13407807929942597099574024998205846127479365820592393377723561443721764030073546976801874298166903427690031858186486050853753882811946569946433649006084096;
    Pow16Add(128, 128);
    assert Pow16(256) == 179769313486231590772930519078902473361797697894230657273430081157732675805500963132708477322407536021120113879871393357658789768814416622492847430639474124377767893424865485276302219601246094119453082952085005768838150682342462881473913110540827237163350510684586298239947245938479716304835356329624224137216;
    if k >= 256 {
      Pow16Mono(256, k);
    } else {
      Pow16Mono(k, 255);
    }
  }

  /** The highest iden, 32 `f`s. */
  const HighestIden: string := "ffffffffffffffffffffffffffffffff"

  /** The lower bound of the first range: the first `slicebytes` digits of the lowest iden, which is 32 zeros. */
  function FirstLower(slicebytes: nat): string
  {
    Zeros(if slicebytes <= 32 then slicebytes else 32)
  }

  /** The counter after `k + 1` steps of `incvalu`: `(k + 1) * incvalu`, added up step by step. */
  function Counter(k: nat, incvalu: nat): nat
  {
    if k == 0 then incvalu else Counter(k - 1, incvalu) + incvalu
  }

  lemma CounterNext(k: nat, incvalu: nat)
    ensures Counter(k + 1, incvalu) == Counter(k, incvalu) + incvalu
  {
  }

  lemma {:induction false} CounterMono(a: nat, b: nat, incvalu: nat)
    requires a <= b
    ensures Counter(a, incvalu) <= Counter(b, incvalu)
    decreases b
  {
    if a < b {
      CounterMono(a, b - 1, incvalu);
    }
  }

  lemma {:induction false} CounterProduct(k: nat, incvalu: nat)
    ensures Counter(k, incvalu) == (k + 1) * incvalu
    decreases k
  {
    if k > 0 {
      CounterProduct(k - 1, incvalu);
      assert (k + 1) * incvalu == k * incvalu + incvalu;
    }
  }

  /** The upper bound of range `k`: the counter in hex, or the highest iden once it reaches `16 ** slicebytes`. */
  function UpperBound(k: nat, slicebytes: nat, incvalu: nat): string
  {
    if Counter(k, incvalu) >= Pow16(slicebytes) then HighestIden else Hex(Counter(k, incvalu), slicebytes)
  }

  /** The lower bound of range `k`: the first lower bound, then the previous upper bound. */
  function LowerBound(k: nat, slicebytes: nat, incvalu: nat): string
  {
    if k == 0 then FirstLower(slicebytes) else UpperBound(k - 1, slicebytes, incvalu)
  }

  /** The first `n` ranges. */
  function Ranges(n: nat, slicebytes: nat, incvalu: nat): (rs: seq<(string, string)>)
    ensures |rs| == n
    decreases n
  {
    if n == 0 then [] else Ranges(n - 1, slicebytes, incvalu) + [(LowerBound(n - 1, slicebytes, incvalu), UpperBound(n - 1, slicebytes, incvalu))]
  }

  lemma RangesNext(n: nat, slicebytes: nat, incvalu: nat)
    ensures Ranges(n + 1, slicebytes, incvalu) == Ranges(n, slicebytes, incvalu) + [(LowerBound(n, slicebytes, incvalu), UpperBound(n, slicebytes, incvalu))]
  {
  }

  lemma {:induction false} RangesAt(n: nat, slicebytes: nat, incvalu: nat, k: nat)
    requires k < n
    ensures Ranges(n, slicebytes, incvalu)[k] == (LowerBound(k, slicebytes, incvalu), UpperBound(k, slicebytes, incvalu))
    decreases n
  {
    if k < n - 1 {
      RangesAt(n - 1, slicebytes, incvalu, k);
    }
  }

  /**
   * The ranges queried, in order: one per step of the counter, the last
   * being the first whose counter reaches `16 ** slicebytes`.
   */
  predicate QueryRanges(rs: seq<(string, string)>, slicebytes: nat, incvalu: nat)
  {
    && |rs| > 0
    && (|rs| == 1 || Counter(|rs| - 2, incvalu) < Pow16(slicebytes))
    && Pow16(slicebytes) <= Counter(|rs| - 1, incvalu)
    && rs == Ranges(|rs|, slicebytes, incvalu)
  }

  /** What `_genStoreRows` asks of the table: the iden ranges, then whether the highest iden is fetched by itself. */
  datatype StoreScan = StoreScan(ranges: seq<(string, string)>, fetchHighest: bool)

  /**
   * `_genStoreRows`: nothing when the table is empty (`MAX(iden)` gives
   * None); a ZeroDivisionError for an `incvalu` of 0, an OverflowError when
   * `16 ** slicebytes / incvalu` is beyond the range of a float, and a
   * ValueError for a `slicebytes` of 0 (`int('', 16)`); otherwise the contiguous ranges
   * the counter walks, and the separate fetch of the highest iden when the
   * table holds it, since each range excludes its upper bound.
   */
  method GenStoreRows(slicebytes: nat, incvalu: int, highest: Option<string>) returns (r: Result<StoreScan>)
    requires incvalu >= 0
    ensures highest.None? || highest == Some("") ==> r == Ok(StoreScan([], false))
    ensures highest.Some? && highest != Some("") && incvalu == 0 ==> r == Err("ZeroDivisionError")
    ensures highest.Some? && highest != Some("") && incvalu > 0 ==>
      if DivOverflows(Pow16(slicebytes), incvalu) then r == Err("OverflowError")
      else if slicebytes == 0 then r == Err("ValueError")
      else
        && r.Ok?
        && QueryRanges(r.value.ranges, slicebytes, incvalu)
        && (r.value.fetchHighest <==> highest.value == HighestIden)
  {
    if highest.None? || highest.value == "" {
      return Ok(StoreScan([], false));
    }
    var maxv := Pow16(slicebytes);
    if incvalu == 0 {
      return Err("ZeroDivisionError");
    }
    if DivOverflows(maxv, incvalu) {
      return Err("OverflowError");
    }
    if slicebytes == 0 {
      return Err("ValueError");
    }
    var ranges := WalkRanges(slicebytes, incvalu);
    r := Ok(StoreScan(ranges, highest.value == HighestIden));
  }

  /** The loop of `_genStoreRows`: the ranges the counter walks, from the first lower bound up. */
  method WalkRanges(slicebytes: nat, incvalu: nat) returns (ranges: seq<(string, string)>)
    requires slicebytes > 0 && incvalu > 0
    ensures QueryRanges(ranges, slicebytes, incvalu)
  {
    var maxv := Pow16(slicebytes);
    var lowerbound := FirstLower(slicebytes);
    ParseZeros(if slicebytes <= 32 then slicebytes else 32);
    var c := ParseHex(lowerbound) + incvalu;
    var upperbound := Hex(c, slicebytes);
    ranges := [];
    while true
      invariant c == Counter(|ranges|, incvalu)
      invariant |ranges| == 0 || Counter(|ranges| - 1, incvalu) < maxv
      invariant lowerbound == LowerBound(|ranges|, slicebytes, incvalu)
      invariant upperbound == Hex(c, slicebytes)
      invariant ranges == Ranges(|ranges|, slicebytes, incvalu)
      decreases maxv - c
    {
      if c >= maxv {
        upperbound := HighestIden;
      }
      ghost var k := |ranges|;
      assert upperbound == UpperBound(k, slicebytes, incvalu);
      RangesNext(k, slicebytes, incvalu);
      ranges := ranges + [(lowerbound, upperbound)];
      if c >= maxv {
        break;
      }
      CounterNext(k, incvalu);
      assert |ranges| == k + 1;
      c := c + incvalu;
      assert c == Counter(k + 1, incvalu);
      lowerbound := upperbound;
      upperbound := Hex(c, slicebytes);
    }
  }

  /** Every upper bound but the last is the counter in hex, with exactly `slicebytes` digits. */
  lemma BoundHex(rs: seq<(string, string)>, slicebytes: nat, incvalu: nat, k: nat)
    requires QueryRanges(rs, slicebytes, incvalu) && slicebytes > 0 && k < |rs| - 1
    ensures |rs[k].1| == slicebytes && ParseHex(rs[k].1) == (k + 1) * incvalu
  {
    CounterMono(k, |rs| - 2, incvalu);
    RangesAt(|rs|, slicebytes, incvalu, k);
    assert rs[k].1 == Hex(Counter(k, incvalu), slicebytes);
    HexLength(Counter(k, incvalu), slicebytes);
    HexParse(Counter(k, incvalu), slicebytes);
    CounterProduct(k, incvalu);
  }

  /**
   * The ranges start at the lowest prefix, each starts where the previous
   * one ends, every bound but the last is the counter `(k + 1) * incvalu`
   * in hex with exactly `slicebytes` digits, and the last ends at the
   * highest iden.
   */
  lemma RangesContiguous(rs: seq<(string, string)>, slicebytes: nat, incvalu: nat)
    requires QueryRanges(rs, slicebytes, incvalu) && slicebytes > 0
    ensures rs[0].0 == FirstLower(slicebytes)
    ensures forall k :: 0 < k < |rs| ==> rs[k].0 == rs[k - 1].1
    ensures rs[|rs| - 1].1 == HighestIden
    ensures forall k :: 0 <= k < |rs| - 1 ==>
      |rs[k].1| == slicebytes && ParseHex(rs[k].1) == (k + 1) * incvalu
  {
    RangesAt(|rs|, slicebytes, incvalu, 0);
    RangesAt(|rs|, slicebytes, incvalu, |rs| - 1);
    forall k | 0 < k < |rs|
      ensures rs[k].0 == rs[k - 1].1
    {
      RangesAt(|rs|, slicebytes, incvalu, k);
      RangesAt(|rs|, slicebytes, incvalu, k - 1);
    }
    forall k | 0 <= k < |rs| - 1
      ensures |rs[k].1| == slicebytes && ParseHex(rs[k].1) == (k + 1) * incvalu
    {
      BoundHex(rs, slicebytes, incvalu, k);
    }
  }

  lemma MulMono(a: nat, b: nat, c: nat)
    requires a <= b
    ensures a * c <= b * c
  {
  }

  /**
   * When `incvalu` divides `16 ** slicebytes`, the scan makes
   * `16 ** slicebytes / incvalu` queries.
   */
  lemma RangesCount(rs: seq<(string, string)>, slicebytes: nat, incvalu: nat)
    requires QueryRanges(rs, slicebytes, incvalu) && incvalu > 0
    requires Pow16(slicebytes) % incvalu == 0
    ensures |rs| == Pow16(slicebytes) / incvalu
  {
    var n := |rs|;
    Pow16Positive(slicebytes);
    CounterProduct(n - 1, incvalu);
    if n > 1 {
      CounterProduct(n - 2, incvalu);
    }
    CountArith(n, incvalu, Pow16(slicebytes));
  }

  /** The one count of steps of `incvalu` that first reaches a multiple `m` of it is `m / incvalu`. */
  lemma CountArith(n: nat, incvalu: nat, m: nat)
    requires incvalu > 0 && n >= 1 && m >= 1 && m % incvalu == 0
    requires m <= n * incvalu
    requires n == 1 || (n - 1) * incvalu < m
    ensures n == m / incvalu
  {
    var q := m / incvalu;
    assert q * incvalu == m;
    if q < n {
      MulMono(q, n - 1, incvalu);
    }
  }

  /** With the defaults, a `slicebytes` and an `incvalu` of 4, the scan makes 16384 queries. */
  lemma DefaultQueries(rs: seq<(string, string)>)
    requires QueryRanges(rs, 4, 4)
    ensures |rs| == 16384
  {
    assert Pow16(4) == 65536;
    RangesCount(rs, 4, 4);
  }

  // ------------------------------------------------------------------
  // The blob store

  type Bytes = seq<bv8>

  /** The values stored under `key`, as `SELECT v ... WHERE k=key` returns them. */
  function Matches(rows: seq<(string, Bytes)>, key: string): (vs: seq<Bytes>)
    ensures |vs| <= |rows|
    decreases |rows|
  {
    if |rows| == 0 then []
    else if rows[0].0 == key then [rows[0].1] + Matches(rows[1..], key)
    else Matches(rows[1..], key)
  }

  /** The rows without those under `key`, as `DELETE ... WHERE k=key` leaves them. */
  function Drop(rows: seq<(string, Bytes)>, key: string): (d: seq<(string, Bytes)>)
    ensures |d| <= |rows|
    decreases |rows|
  {
    if |rows| == 0 then []
    else if rows[0].0 == key then Drop(rows[1..], key)
    else [rows[0]] + Drop(rows[1..], key)
  }

  /** `key` is the key of some row. */
  predicate HasKey(rows: seq<(string, Bytes)>, key: string)
    decreases |rows|
  {
    |rows| > 0 && (rows[0].0 == key || HasKey(rows[1..], key))
  }

  /** No two rows share a key: what the blob table's UNIQUE index keeps. */
  predicate UniqueKeys(rows: seq<(string, Bytes)>)
    decreases |rows|
  {
    |rows| == 0 || (!HasKey(rows[1..], rows[0].0) && UniqueKeys(rows[1..]))
  }

  lemma {:induction false} MatchesEmpty(rows: seq<(string, Bytes)>, key: string)
    ensures Matches(rows, key) == [] <==> !HasKey(rows, key)
    decreases |rows|
  {
    if |rows| > 0 {
      MatchesEmpty(rows[1..], key);
    }
  }

  /** Under the UNIQUE index a key has at most one value, so reading the blob store never fails. */
  lemma {:induction false} UniqueMatches(rows: seq<(string, Bytes)>, key: string)
    requires UniqueKeys(rows)
    ensures |Matches(rows, key)| <= 1
    decreases |rows|
  {
    if |rows| > 0 {
      UniqueMatches(rows[1..], key);
      MatchesEmpty(rows[1..], key);
    }
  }

  lemma {:induction false} MatchesAppend(a: seq<(string, Bytes)>, b: seq<(string, Bytes)>, key: string)
    ensures Matches(a + b, key) == Matches(a, key) + Matches(b, key)
    decreases |a|
  {
    if |a| > 0 {
      assert (a + b)[0] == a[0] && (a + b)[1..] == a[1..] + b;
      MatchesAppend(a[1..], b, key);
    } else {
      assert a + b == b;
    }
  }

  lemma {:induction false} HasKeyAppend(a: seq<(string, Bytes)>, b: seq<(string, Bytes)>, key: string)
    ensures HasKey(a + b, key) <==> HasKey(a, key) || HasKey(b, key)
    decreases |a|
  {
    if |a| > 0 {
      assert (a + b)[0] == a[0] && (a + b)[1..] == a[1..] + b;
      HasKeyAppend(a[1..], b, key);
    } else {
      assert a + b == b;
    }
  }

  /** Dropping `key` removes its values and leaves every other key's. */
  lemma {:induction false} DropMatches(rows: seq<(string, Bytes)>, key: string, other: string)
    ensures Matches(Drop(rows, key), key) == []
    ensures other != key ==> Matches(Drop(rows, key), other) == Matches(rows, other)
    decreases |rows|
  {
    if |rows| > 0 {
      DropMatches(rows[1..], key, other);
      MatchesAppend([rows[0]], Drop(rows[1..], key), key);
      MatchesAppend([rows[0]], Drop(rows[1..], key), other);
    }
  }

  /** Dropping `key` leaves exactly the other keys, still distinct. */
  lemma {:induction false} DropUnique(rows: seq<(string, Bytes)>, key: string, other: string)
    ensures HasKey(Drop(rows, key), other) <==> HasKey(rows, other) && other != key
    ensures UniqueKeys(rows) ==> UniqueKeys(Drop(rows, key))
    decreases |rows|
  {
    if |rows| > 0 {
      DropUnique(rows[1..], key, other);
      DropUnique(rows[1..], key, rows[0].0);
      HasKeyAppend([rows[0]], Drop(rows[1..], key), other);
      var d := [rows[0]] + Drop(rows[1..], key);
      assert rows[0].0 != key ==> d[0] == rows[0] && d[1..] == Drop(rows[1..], key);
    }
  }

  /** `INSERT OR REPLACE`: the old row under the key, if any, goes, and the new one is added last. */
  function Replace(rows: seq<(string, Bytes)>, key: string, valu: Bytes): seq<(string, Bytes)>
  {
    Drop(rows, key) + [(key, valu)]
  }

  /** A row whose key is new may be added last, and the keys stay distinct. */
  lemma {:induction false} UniqueSnoc(rows: seq<(string, Bytes)>, key: string, valu: Bytes)
    requires UniqueKeys(rows) && !HasKey(rows, key)
    ensures UniqueKeys(rows + [(key, valu)])
    decreases |rows|
  {
    if |rows| > 0 {
      var s := rows + [(key, valu)];
      assert s[0] == rows[0] && s[1..] == rows[1..] + [(key, valu)];
      UniqueSnoc(rows[1..], key, valu);
      HasKeyAppend(rows[1..], [(key, valu)], rows[0].0);
      assert [(key, valu)][1..] == [];
    } else {
      assert rows + [(key, valu)] == [(key, valu)];
      assert [(key, valu)][1..] == [];
    }
  }

  /** After a replace the key holds exactly the new value, every other key what it held, and the keys stay distinct. */
  lemma ReplaceFacts(rows: seq<(string, Bytes)>, key: string, valu: Bytes, other: string)
    ensures Matches(Replace(rows, key, valu), key) == [valu]
    ensures other != key ==> Matches(Replace(rows, key, valu), other) == Matches(rows, other)
    ensures UniqueKeys(rows) ==> UniqueKeys(Replace(rows, key, valu))
  {
    DropMatches(rows, key, other);
    MatchesAppend(Drop(rows, key), [(key, valu)], key);
    MatchesAppend(Drop(rows, key), [(key, valu)], other);
    assert [(key, valu)][1..] == [];
    DropUnique(rows, key, key);
    if UniqueKeys(rows) {
      UniqueSnoc(Drop(rows, key), key, valu);
    }
  }

  /** The blob table `{{BLOB_TABLE}}`: its (k, v) rows in the order they were stored. */
  class BlobStore {
    var rows: seq<(string, Bytes)>

    ghost predicate Valid()
      reads this
    {
      UniqueKeys(rows)
    }

    constructor()
      ensures rows == [] && Valid()
    {
      rows := [];
    }

    /** `_setBlobValu`: the value is stored under the key, replacing any old one, and handed back. */
    method SetBlobValu(key: string, valu: Bytes) returns (r: Bytes)
      modifies this
      ensures rows == Replace(old(rows), key, valu)
      ensures old(Valid()) ==> Valid()
      ensures r == valu
    {
      ReplaceFacts(rows, key, valu, key);
      rows := Replace(rows, key, valu);
      r := valu;
    }

    /** `_getBlobValu`: None for no row, the value for one, BadCoreStore for more. */
    method GetBlobValu(key: string) returns (r: Result<Option<Bytes>>)
      ensures |Matches(rows, key)| == 0 ==> r == Ok(None)
      ensures |Matches(rows, key)| == 1 ==> r == Ok(Some(Matches(rows, key)[0]))
      ensures |Matches(rows, key)| > 1 ==> r == Err("BadCoreStore")
      ensures r.Ok? && r.value.None? <==> !HasKey(rows, key)
    {
      MatchesEmpty(rows, key);
      var found := Matches(rows, key);
      if |found| == 0 {
        return Ok(None);
      }
      if |found| > 1 {
        return Err("BadCoreStore");
      }
      r := Ok(Some(found[0]));
    }

    /** `_hasBlobValu`: BadCoreStore for more than one row, otherwise whether there is one. */
    method HasBlobValu(key: string) returns (r: Result<bool>)
      ensures |Matches(rows, key)| > 1 ==> r == Err("BadCoreStore")
      ensures |Matches(rows, key)| <= 1 ==> r == Ok(HasKey(rows, key))
    {
      MatchesEmpty(rows, key);
      var found := Matches(rows, key);
      if |found| > 1 {
        return Err("BadCoreStore");
      }
      if |found| == 0 {
        return Ok(false);
      }
      r := Ok(true);
    }

    /**
     * `_delBlobValu`: the value read as `_getBlobValu` reads it; NoSuchName
     * when there is none, otherwise the key's rows are deleted and the old
     * value returned.
     */
    method DelBlobValu(key: string) returns (r: Result<Bytes>)
      modifies this
      ensures !HasKey(old(rows), key) ==> r == Err("NoSuchName") && rows == old(rows)
      ensures |Matches(old(rows), key)| > 1 ==> r == Err("BadCoreStore") && rows == old(rows)
      ensures |Matches(old(rows), key)| == 1 ==> r == Ok(Matches(old(rows), key)[0]) && rows == Drop(old(rows), key)
      ensures old(Valid()) ==> Valid()
    {
      var ret := GetBlobValu(key);
      if ret.Err? {
        return Err(ret.error);
      }
      if ret.value.None? {
        return Err("NoSuchName");
      }
      DropUnique(rows, key, key);
      rows := Drop(rows, key);
      r := Ok(ret.value.value);
    }

    /** `_getBlobKeys`: the key of every row. */
    method GetBlobKeys() returns (ks: seq<string>)
      ensures |ks| == |rows| && forall i :: 0 <= i < |rows| ==> ks[i] == rows[i].0
    {
      ks := [];
      for i := 0 to |rows|
        invariant |ks| == i && forall j :: 0 <= j < i ==> ks[j] == rows[j].0
      {
        ks := ks + [rows[i].0];
      }
    }
  }

  // ------------------------------------------------------------------
  // The connection pool

  /** `DbPool`: connections made up front and handed out first in, first out. */
  class DbPool<Conn> {
    var size: int
    var dbque: seq<Conn>

    /**
     * Makes `size` connections and puts each in the queue; `made` stands
     * for what the factory returns on each call, in order.
     */
    constructor(size: int, made: seq<Conn>)
      requires |made| == if size > 0 then size else 0
      ensures this.size == size && dbque == made
    {
      this.size := size;
      dbque := [];
      new;
      for i := 0 to |made|
        invariant this.size == size && dbque == made[..i]
      {
        Put(made[i]);
      }
    }

    /** `put`: the connection joins the back of the queue. */
    method Put(db: Conn)
      modifies this`dbque
      ensures dbque == old(dbque) + [db]
    {
      dbque := dbque + [db];
    }

    /** `get`: the connection at the front of the queue leaves it. */
    method Get() returns (db: Conn)
      requires |dbque| > 0
      modifies this`dbque
      ensures db == old(dbque)[0] && dbque == old(dbque)[1..]
    {
      db := dbque[0];
      dbque := dbque[1..];
    }
  }
}
