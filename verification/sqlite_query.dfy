/**
 * Query templates of the SQLite storage layer (synapse/cores/sqlite.py),
 * the preparation that turns them into executable SQL, and the `qbuild`
 * table that chooses one by the types of a property query's arguments.
 *
 * A template is a sequence of pieces: literal SQL fragments, `{{NAME}}`
 * placeholders, and `column op {{NAME}}` comparisons.  `Flatten` spells it
 * out as literal text and holes, and `Render` gives exactly the string
 * literal of the storage class.
 */
module SqliteQuery {
  import opened Wrappers
  import opened Placeholders

  // ------------------------------------------------------------------
  // Placeholder names

  /** The `{{NAME}}` placeholders that occur in the templates modelled here. */
  datatype Name = TABLE | BLOB_TABLE | IDEN | INTVAL | KEY | LIMIT | LOWERBOUND | MAXTIME
                | MINTIME | PROP | STRVAL | TSTAMP | UPPERBOUND | VALU

  function NameStr(n: Name): string
  {
    match n
    case TABLE => "TABLE"
    case BLOB_TABLE => "BLOB_TABLE"
    case IDEN => "IDEN"
    case INTVAL => "INTVAL"
    case KEY => "KEY"
    case LIMIT => "LIMIT"
    case LOWERBOUND => "LOWERBOUND"
    case MAXTIME => "MAXTIME"
    case MINTIME => "MINTIME"
    case PROP => "PROP"
    case STRVAL => "STRVAL"
    case TSTAMP => "TSTAMP"
    case UPPERBOUND => "UPPERBOUND"
    case VALU => "VALU"
  }

  lemma UpperNames(n: Name)
    requires n != BLOB_TABLE
    ensures |NameStr(n)| > 0 && IsUpper(NameStr(n))
  {
  }

  lemma BlobTableName()
    ensures forall i :: 0 <= i < |NameStr(BLOB_TABLE)| ==> IsNameChar(NameStr(BLOB_TABLE)[i])
    ensures NameStr(BLOB_TABLE)[4] == '_'
  {
  }

  /**
   * Every name is a non-empty run of capitals and underscores, and
   * BLOB_TABLE is the only one the pattern `[A-Z]+` does not cover.
   */
  lemma NameChars(n: Name)
    ensures |NameStr(n)| > 0
    ensures forall i :: 0 <= i < |NameStr(n)| ==> IsNameChar(NameStr(n)[i])
    ensures IsUpper(NameStr(n)) <==> n != BLOB_TABLE
  {
    if n == BLOB_TABLE {
      BlobTableName();
      assert !IsUpperChar(NameStr(n)[4]);
    } else {
      UpperNames(n);
    }
  }

  lemma NameInjective(m: Name, n: Name)
    ensures NameStr(m) == NameStr(n) ==> m == n
  {
  }

  // ------------------------------------------------------------------
  // Templates

  datatype Column = Iden | Prop | Strval | Intval | Tstamp

  function ColStr(c: Column): string
  {
    match c
    case Iden => "iden"
    case Prop => "prop"
    case Strval => "strval"
    case Intval => "intval"
    case Tstamp => "tstamp"
  }

  datatype Op = Eq | Ge | Lt | Le

  /** The operator's text; some templates put a blank on each side of it. */
  function OpStr(op: Op, spaced: bool): string
  {
    var o := match op
      case Eq => "="
      case Ge => ">="
      case Lt => "<"
      case Le => "<=";
    if spaced then " " + o + " " else o
  }

  lemma LeadPlain(c: Column, op: Op, spaced: bool)
    ensures Plain(ColStr(c) + OpStr(op, spaced))
  {
  }

  datatype Piece =
    | Text(f: Frag)
    | Stash(n: Name)
    | Cmp(col: Column, op: Op, spaced: bool, arg: Name)

  type Template = seq<Piece>

  /** `{{n}}` occurs in `t`, on its own or as the argument of a comparison. */
  predicate Occurs(t: Template, n: Name)
  {
    exists i :: 0 <= i < |t| && (t[i] == Stash(n) || (t[i].Cmp? && t[i].arg == n))
  }

  function PieceChunks(p: Piece): Flat
  {
    match p
    case Text(f) => [Lit(FragStr(f))]
    case Stash(n) => [Hole(NameStr(n))]
    case Cmp(c, op, spaced, n) => [Lit(ColStr(c) + OpStr(op, spaced)), Hole(NameStr(n))]
  }

  /** The template as literal text and holes. */
  function Flatten(t: Template): Flat
    decreases |t|
  {
    if |t| == 0 then [] else PieceChunks(t[0]) + Flatten(t[1..])
  }

  /** The template's string literal, as written in the storage class. */
  function Render(t: Template): string
  {
    FillIn(Flatten(t), map[])
  }

  lemma PieceFacts(p: Piece)
    ensures WellFormed(PieceChunks(p))
    ensures forall a :: HoleIn(PieceChunks(p), a) ==> exists n :: a == NameStr(n) && (p == Stash(n) || (p.Cmp? && p.arg == n))
  {
    match p
    case Text(f) =>
      FragPlain(f);
    case Stash(n) =>
      NameChars(n);
    case Cmp(c, op, spaced, n) =>
      LeadPlain(c, op, spaced);
      NameChars(n);
      var k := PieceChunks(p);
      assert k[0] == Lit(ColStr(c) + OpStr(op, spaced)) && k[1] == Hole(NameStr(n));
  }

  /**
   * The flattened template's literal text contains no `{`, and its holes are
   * the names that occur in the template.
   */
  lemma {:induction false} FlattenFacts(t: Template)
    ensures WellFormed(Flatten(t))
    ensures forall a :: HoleIn(Flatten(t), a) ==> exists n :: a == NameStr(n) && Occurs(t, n)
    decreases |t|
  {
    if |t| > 0 {
      PieceFacts(t[0]);
      FlattenFacts(t[1..]);
      WellFormedAppend(PieceChunks(t[0]), Flatten(t[1..]));
      forall a | HoleIn(Flatten(t), a)
        ensures exists n :: a == NameStr(n) && Occurs(t, n)
      {
        HoleAppend(PieceChunks(t[0]), Flatten(t[1..]), a);
        if HoleIn(PieceChunks(t[0]), a) {
          var n :| a == NameStr(n) && (t[0] == Stash(n) || (t[0].Cmp? && t[0].arg == n));
          assert Occurs(t, n);
        } else {
          var n :| a == NameStr(n) && Occurs(t[1..], n);
          var i :| 0 <= i < |t[1..]| && (t[1..][i] == Stash(n) || (t[1..][i].Cmp? && t[1..][i].arg == n));
          assert t[i + 1] == t[1..][i];
        }
      }
    }
  }

  /** Each hole of a template is the name of a placeholder, all capitals except `BLOB_TABLE`. */
  lemma HoleNames(t: Template, a: string)
    requires HoleIn(Flatten(t), a)
    ensures IsName(a)
    ensures IsUpper(a) || (a == NameStr(BLOB_TABLE) && Occurs(t, BLOB_TABLE))
  {
    FlattenFacts(t);
    var n :| a == NameStr(n) && Occurs(t, n);
    NameChars(n);
  }

  /** The one-entry substitution a preparation starts from. */
  lemma FirstSlot(n: Name, rep: string)
    requires Plain(rep)
    ensures IsName(NameStr(n))
    ensures PlainSub(map[NameStr(n) := rep])
    ensures Extend(map[], NameStr(n), rep) == map[NameStr(n) := rep]
  {
    NameChars(n);
  }

  /** The two names the storage class fills in by their literal placeholders. */
  lemma TablePlaceholders()
    ensures Ph(NameStr(TABLE)) == "{{TABLE}}"
    ensures Ph(NameStr(BLOB_TABLE)) == "{{BLOB_TABLE}}"
  {
  }

  /**
   * Once a template's first name is filled in and the rest decorated, no
   * all-capital placeholder is left, and no `{` at all when the only name
   * the decoration cannot reach, `BLOB_TABLE`, is either absent or the one
   * filled in first.
   */
  lemma PrepFacts(t: Template, n: Name, rep: string)
    requires Plain(rep)
    ensures FindAll(FillIn(Flatten(t), Completion(Flatten(t), map[NameStr(n) := rep]))) == []
    ensures n == BLOB_TABLE || !Occurs(t, BLOB_TABLE) ==>
      Plain(FillIn(Flatten(t), Completion(Flatten(t), map[NameStr(n) := rep])))
  {
    var f := Flatten(t);
    var sub0 := map[NameStr(n) := rep];
    FlattenFacts(t);
    FirstSlot(n, rep);
    CompletionFacts(f, sub0);
    if n == BLOB_TABLE || !Occurs(t, BLOB_TABLE) {
      forall a | HoleIn(f, a)
        ensures a in sub0 || IsUpper(a)
      {
        HoleNames(t, a);
      }
    }
  }

  /**
   * `_prepQuery`: `{{TABLE}}` becomes the table name, then every other
   * all-capital placeholder `{{NAME}}` becomes the variable token `:name`;
   * `{{BLOB_TABLE}}`, which the pattern does not match, is left alone.
   */
  method PrepQuery(t: Template) returns (q: string)
    ensures q == FillIn(Flatten(t), Completion(Flatten(t), map[NameStr(TABLE) := TableName]))
    ensures FindAll(q) == []
    ensures !Occurs(t, BLOB_TABLE) ==> Plain(q)
  {
    ghost var f := Flatten(t);
    FlattenFacts(t);
    FirstSlot(TABLE, TableName);
    TablePlaceholders();
    var query := Render(t);
    ReplaceFill(f, map[], NameStr(TABLE), TableName);
    query := ReplaceAll(query, "{{TABLE}}", TableName);
    q := Decorate(query, f, map[NameStr(TABLE) := TableName]);
    PrepFacts(t, TABLE, TableName);
  }

  /**
   * `_prepBlobQuery`: `{{BLOB_TABLE}}` becomes the blob table's name, then
   * every all-capital placeholder, `{{TABLE}}` included, becomes its
   * variable token; no `{` is left.
   */
  method PrepBlobQuery(t: Template) returns (q: string)
    ensures q == FillIn(Flatten(t), Completion(Flatten(t), map[NameStr(BLOB_TABLE) := BlobTable]))
    ensures FindAll(q) == []
    ensures Plain(q)
  {
    ghost var f := Flatten(t);
    FlattenFacts(t);
    FirstSlot(BLOB_TABLE, BlobTable);
    TablePlaceholders();
    var query := Render(t);
    ReplaceFill(f, map[], NameStr(BLOB_TABLE), BlobTable);
    query := ReplaceAll(query, "{{BLOB_TABLE}}", BlobTable);
    q := Decorate(query, f, map[NameStr(BLOB_TABLE) := BlobTable]);
    PrepFacts(t, BLOB_TABLE, BlobTable);
  }

  /** The table name, `_getTableName`. */
  const TableName: string := "syncortex"

  /** The blob table's name: the table name with `_blob` appended. */
  const BlobTable: string := TableName + "_blob"

  // ------------------------------------------------------------------
  // The property queries of `qbuild`

  /** `t` compares column `col` by `op` with the placeholder `arg`, with or without blanks. */
  predicate Compares(t: Template, col: Column, op: Op, arg: Name)
  {
    Cmp(col, op, false, arg) in t || Cmp(col, op, true, arg) in t
  }

  predicate HasStash(t: Template, n: Name)
  {
    Stash(n) in t
  }

  /** The statement a property query begins with, up to its first condition. */
  datatype Head = SelectRows | CountRows | DeleteRows | SelectJoin | DeleteJoin

  /**
   * A query of the `qbuild` families: its head, then `prop={{PROP}}`, then
   * optionally a comparison of `{{VALU}}` with a value column, a lower and
   * an upper time bound (each with or without blanks around its operator)
   * and `LIMIT {{LIMIT}}`; a join ends with the parenthesis of its
   * sub-select, which a few of them write with a blank before it.
   */
  datatype PropQuery = PropQuery(head: Head, valu: Option<Column>, wmin: Option<bool>, wmax: Option<bool>,
                                 limit: bool, blankClose: bool)

  predicate IsJoin(h: Head) { h.SelectJoin? || h.DeleteJoin? }

  function HeadPieces(h: Head): Template
  {
    match h
    case SelectRows => [Text(SelectAllFrom), Stash(TABLE), Text(Where)]
    case CountRows => [Text(SelectCountFrom), Stash(TABLE), Text(Where)]
    case DeleteRows => [Text(DeleteFrom), Stash(TABLE), Text(Where)]
    case SelectJoin => [Text(SelectAllFrom), Stash(TABLE), Text(WhereIdenIn), Stash(TABLE), Text(Where)]
    case DeleteJoin => [Text(DeleteFrom), Stash(TABLE), Text(WhereIdenIn), Stash(TABLE), Text(Where)]
  }

  /** ` AND col op {{arg}}` when the clause is present. */
  function Clause(present: bool, col: Column, op: Op, spaced: bool, arg: Name): Template
  {
    if present then [Text(And), Cmp(col, op, spaced, arg)] else []
  }

  function LimitPieces(limit: bool): Template
  {
    if limit then [Text(Limit), Stash(LIMIT)] else []
  }

  function ClosePieces(h: Head, blank: bool): Template
  {
    if IsJoin(h) then [Text(if blank then SpaceClose else Close)] else []
  }

  /** The query as a template. */
  function Pieces(q: PropQuery): Template
  {
    HeadPieces(q.head) + [Cmp(Prop, Eq, false, PROP)]
    + Clause(q.valu.Some?, if q.valu.Some? then q.valu.value else Intval, Eq, false, VALU)
    + Clause(q.wmin.Some?, Tstamp, Ge, q.wmin == Some(true), MINTIME)
    + Clause(q.wmax.Some?, Tstamp, Lt, q.wmax == Some(true), MAXTIME)
    + LimitPieces(q.limit)
    + ClosePieces(q.head, q.blankClose)
  }

  /**
   * `t` selects on the property, on `intval` exactly for an int value, on
   * `strval` exactly for a str value, and on the time bounds exactly when
   * they are given as ints.
   */
  predicate Selects(t: Template, v: TypeTag, m: TypeTag, x: TypeTag)
  {
    && Compares(t, Prop, Eq, PROP)
    && (Compares(t, Intval, Eq, VALU) <==> v == IntT)
    && (Compares(t, Strval, Eq, VALU) <==> v == StrT)
    && (Compares(t, Tstamp, Ge, MINTIME) <==> m == IntT)
    && (Compares(t, Tstamp, Lt, MAXTIME) <==> x == IntT)
  }

  /** Where a piece can sit in a query's template. */
  lemma PiecesIn(q: PropQuery, x: Piece)
    ensures x in Pieces(q) <==>
      || x in HeadPieces(q.head)
      || x == Cmp(Prop, Eq, false, PROP)
      || x in Clause(q.valu.Some?, if q.valu.Some? then q.valu.value else Intval, Eq, false, VALU)
      || x in Clause(q.wmin.Some?, Tstamp, Ge, q.wmin == Some(true), MINTIME)
      || x in Clause(q.wmax.Some?, Tstamp, Lt, q.wmax == Some(true), MAXTIME)
      || x in LimitPieces(q.limit)
      || x in ClosePieces(q.head, q.blankClose)
  {
  }

  lemma SegmentsIn(h: Head, limit: bool, blank: bool, x: Piece)
    ensures x in HeadPieces(h) ==> !x.Cmp? && x != Stash(LIMIT)
    ensures x in LimitPieces(limit) ==> !x.Cmp? && (x.Stash? ==> x == Stash(LIMIT))
    ensures Stash(LIMIT) in LimitPieces(limit) <==> limit
    ensures x in ClosePieces(h, blank) ==> x.Text?
  {
  }

  lemma ClauseIn(present: bool, col: Column, op: Op, spaced: bool, arg: Name, x: Piece)
    ensures x in Clause(present, col, op, spaced, arg) <==> present && (x == Text(And) || x == Cmp(col, op, spaced, arg))
  {
  }

  /** Where a comparison can sit in a query's template. */
  lemma CmpIn(q: PropQuery, col: Column, op: Op, sp: bool, arg: Name)
    ensures Cmp(col, op, sp, arg) in Pieces(q) <==>
      || (col, op, sp, arg) == (Prop, Eq, false, PROP)
      || (q.valu.Some? && (col, op, sp, arg) == (q.valu.value, Eq, false, VALU))
      || (q.wmin.Some? && (col, op, sp, arg) == (Tstamp, Ge, q.wmin == Some(true), MINTIME))
      || (q.wmax.Some? && (col, op, sp, arg) == (Tstamp, Lt, q.wmax == Some(true), MAXTIME))
  {
    var x := Cmp(col, op, sp, arg);
    PiecesIn(q, x);
    SegmentsIn(q.head, q.limit, q.blankClose, x);
    ClauseIn(q.valu.Some?, if q.valu.Some? then q.valu.value else Intval, Eq, false, VALU, x);
    ClauseIn(q.wmin.Some?, Tstamp, Ge, q.wmin == Some(true), MINTIME, x);
    ClauseIn(q.wmax.Some?, Tstamp, Lt, q.wmax == Some(true), MAXTIME, x);
  }

  /** The comparisons a query makes, whichever way it writes their blanks. */
  lemma CompareIn(q: PropQuery, col: Column, op: Op, arg: Name)
    ensures Compares(Pieces(q), col, op, arg) <==>
      || (col, op, arg) == (Prop, Eq, PROP)
      || (q.valu.Some? && (col, op, arg) == (q.valu.value, Eq, VALU))
      || (q.wmin.Some? && (col, op, arg) == (Tstamp, Ge, MINTIME))
      || (q.wmax.Some? && (col, op, arg) == (Tstamp, Lt, MAXTIME))
  {
    CmpIn(q, col, op, false, arg);
    CmpIn(q, col, op, true, arg);
  }

  lemma LimitIn(q: PropQuery)
    ensures HasStash(Pieces(q), LIMIT) <==> q.limit
  {
    PiecesIn(q, Stash(LIMIT));
    SegmentsIn(q.head, q.limit, q.blankClose, Stash(LIMIT));
    ClauseIn(q.valu.Some?, if q.valu.Some? then q.valu.value else Intval, Eq, false, VALU, Stash(LIMIT));
    ClauseIn(q.wmin.Some?, Tstamp, Ge, q.wmin == Some(true), MINTIME, Stash(LIMIT));
    ClauseIn(q.wmax.Some?, Tstamp, Lt, q.wmax == Some(true), MAXTIME, Stash(LIMIT));
  }

  lemma PropQuerySelects(q: PropQuery)
    ensures Compares(Pieces(q), Prop, Eq, PROP)
    ensures Compares(Pieces(q), Intval, Eq, VALU) <==> q.valu == Some(Intval)
    ensures Compares(Pieces(q), Strval, Eq, VALU) <==> q.valu == Some(Strval)
    ensures Compares(Pieces(q), Tstamp, Ge, MINTIME) <==> q.wmin.Some?
    ensures Compares(Pieces(q), Tstamp, Lt, MAXTIME) <==> q.wmax.Some?
    ensures HasStash(Pieces(q), LIMIT) <==> q.limit
  {
    CompareIn(q, Prop, Eq, PROP);
    CompareIn(q, Intval, Eq, VALU);
    CompareIn(q, Strval, Eq, VALU);
    CompareIn(q, Tstamp, Ge, MINTIME);
    CompareIn(q, Tstamp, Lt, MAXTIME);
    LimitIn(q);
  }


  // ------------------------------------------------------------------
  // The literal SQL fragments the templates are made of

  datatype Frag =
    | SelectAllFrom
    | SelectCountFrom
    | SelectMaxIdenFrom
    | SelectValFrom
    | SelectKeyFrom
    | DeleteFrom
    | InsertInto
    | InsertOrReplaceInto
    | CreateUniqueIndex
    | IndexOn
    | Where
    | WhereIdenIn
    | WhereKey
    | And
    | LowerAnd
    | Limit
    | RowColumns
    | BlobColumns
    | KeyColumn
    | Comma
    | CommaSpace
    | Close
    | SpaceClose

  function FragStr(f: Frag): string
  {
    match f
    case SelectAllFrom => "SELECT * FROM "
    case SelectCountFrom => "SELECT COUNT(*) FROM "
    case SelectMaxIdenFrom => "SELECT MAX(iden) FROM "
    case SelectValFrom => "SELECT v FROM "
    case SelectKeyFrom => "SELECT k FROM "
    case DeleteFrom => "DELETE FROM "
    case InsertInto => "INSERT INTO "
    case InsertOrReplaceInto => "INSERT OR REPLACE INTO "
    case CreateUniqueIndex => "CREATE UNIQUE INDEX "
    case IndexOn => "_indx ON "
    case Where => " WHERE "
    case WhereIdenIn => " WHERE iden IN (SELECT iden FROM "
    case WhereKey => " WHERE k="
    case And => " AND "
    case LowerAnd => " and "
    case Limit => " LIMIT "
    case RowColumns => " (iden,prop,strval,intval,tstamp) VALUES ("
    case BlobColumns => " (k, v) VALUES ("
    case KeyColumn => " (k)"
    case Comma => ","
    case CommaSpace => ", "
    case Close => ")"
    case SpaceClose => " )"
  }

  lemma FragPlain0(f: Frag)
    requires f.SelectAllFrom? || f.SelectCountFrom? || f.SelectMaxIdenFrom? || f.SelectValFrom?
    ensures Plain(FragStr(f))
  {
  }

  lemma FragPlain1(f: Frag)
    requires f.SelectKeyFrom? || f.DeleteFrom? || f.InsertInto? || f.InsertOrReplaceInto?
    ensures Plain(FragStr(f))
  {
  }

  lemma FragPlain2(f: Frag)
    requires f.CreateUniqueIndex? || f.IndexOn? || f.Where? || f.WhereIdenIn?
    ensures Plain(FragStr(f))
  {
  }

  lemma FragPlain3(f: Frag)
    requires f.WhereKey? || f.And? || f.LowerAnd? || f.Limit?
    ensures Plain(FragStr(f))
  {
  }

  lemma FragPlain4(f: Frag)
    requires f.RowColumns? || f.BlobColumns? || f.KeyColumn? || f.Comma?
    ensures Plain(FragStr(f))
  {
  }

  lemma FragPlain5(f: Frag)
    requires f.CommaSpace? || f.Close? || f.SpaceClose?
    ensures Plain(FragStr(f))
  {
  }

  /** No fragment contains a `{`. */
  lemma FragPlain(f: Frag)
    ensures Plain(FragStr(f))
  {
    if f.SelectAllFrom? || f.SelectCountFrom? || f.SelectMaxIdenFrom? || f.SelectValFrom? {
      FragPlain0(f);
    } else if f.SelectKeyFrom? || f.DeleteFrom? || f.InsertInto? || f.InsertOrReplaceInto? {
      FragPlain1(f);
    } else if f.CreateUniqueIndex? || f.IndexOn? || f.Where? || f.WhereIdenIn? {
      FragPlain2(f);
    } else if f.WhereKey? || f.And? || f.LowerAnd? || f.Limit? {
      FragPlain3(f);
    } else if f.RowColumns? || f.BlobColumns? || f.KeyColumn? || f.Comma? {
      FragPlain4(f);
    } else {
      FragPlain5(f);
    }
  }

  // ------------------------------------------------------------------
  // The templates, one constant per `_t_` attribute of the storage class

  /** `_t_init_blobtable_idx`, line 134 */
  const InitBlobtableIdx: Template := [Text(CreateUniqueIndex), Stash(BLOB_TABLE), Text(IndexOn), Stash(BLOB_TABLE), Text(KeyColumn)]

  /** `_t_addrows`, line 136 */
  const Addrows: Template := [Text(InsertInto), Stash(TABLE), Text(RowColumns), Stash(IDEN), Text(Comma), Stash(PROP), Text(Comma), Stash(STRVAL), Text(Comma), Stash(INTVAL), Text(Comma), Stash(TSTAMP), Text(Close)]

  /** `_t_getrows_by_iden`, line 137 */
  const GetrowsByIden: Template := [Text(SelectAllFrom), Stash(TABLE), Text(Where), Cmp(Iden, Eq, false, IDEN)]

  /** `_t_getrows_by_iden_range`, line 145 */
  const GetrowsByIdenRange: Template := [Text(SelectAllFrom), Stash(TABLE), Text(Where), Cmp(Iden, Ge, true, LOWERBOUND), Text(LowerAnd), Cmp(Iden, Lt, true, UPPERBOUND)]

  /** `_t_getiden_max`, line 146 */
  const GetidenMax: Template := [Text(SelectMaxIdenFrom), Stash(TABLE)]

  /** `_t_blob_set`, line 150 */
  const BlobSet: Template := [Text(InsertOrReplaceInto), Stash(BLOB_TABLE), Text(BlobColumns), Stash(KEY), Text(CommaSpace), Stash(VALU), Text(Close)]

  /** `_t_blob_get`, line 151 */
  const BlobGet: Template := [Text(SelectValFrom), Stash(BLOB_TABLE), Text(WhereKey), Stash(KEY)]

  /** `_t_blob_del`, line 152 */
  const BlobDel: Template := [Text(DeleteFrom), Stash(BLOB_TABLE), Text(WhereKey), Stash(KEY)]

  /** `_t_blob_get_keys`, line 153 */
  const BlobGetKeys: Template := [Text(SelectKeyFrom), Stash(BLOB_TABLE)]

  /** The prepared row and blob queries of `_initCorQueries`, one per template above. */
  datatype CorQueries = CorQueries(
    initBlobtableIdx: string, addrows: string, getrowsByIden: string, getrowsByIdenRange: string,
    getidenMax: string, blobSet: string, blobGet: string, blobDel: string, blobGetKeys: string)

  /** Every query of `qs` is plain SQL: no placeholder and no `{` left. */
  predicate AllPlain(qs: CorQueries)
  {
    && Plain(qs.initBlobtableIdx) && Plain(qs.addrows) && Plain(qs.getrowsByIden)
    && Plain(qs.getrowsByIdenRange) && Plain(qs.getidenMax) && Plain(qs.blobSet)
    && Plain(qs.blobGet) && Plain(qs.blobDel) && Plain(qs.blobGetKeys)
  }

  /**
   * `_initCorQueries` for the templates above: the blob queries go through
   * `_prepBlobQuery`, the row queries through `_prepQuery`, and none of
   * them keeps a placeholder.
   */
  method InitCorQueries() returns (qs: CorQueries)
    ensures qs.addrows == FillIn(Flatten(Addrows), Completion(Flatten(Addrows), map[NameStr(TABLE) := TableName]))
    ensures qs.blobGet == FillIn(Flatten(BlobGet), Completion(Flatten(BlobGet), map[NameStr(BLOB_TABLE) := BlobTable]))
    ensures AllPlain(qs)
  {
    assert !Occurs(Addrows, BLOB_TABLE);
    assert !Occurs(GetrowsByIden, BLOB_TABLE);
    assert !Occurs(GetrowsByIdenRange, BLOB_TABLE);
    assert !Occurs(GetidenMax, BLOB_TABLE);
    var initBlobtableIdx := PrepBlobQuery(InitBlobtableIdx);
    var addrows := PrepQuery(Addrows);
    var getrowsByIden := PrepQuery(GetrowsByIden);
    var getrowsByIdenRange := PrepQuery(GetrowsByIdenRange);
    var getidenMax := PrepQuery(GetidenMax);
    var blobGet := PrepBlobQuery(BlobGet);
    var blobSet := PrepBlobQuery(BlobSet);
    var blobDel := PrepBlobQuery(BlobDel);
    var blobGetKeys := PrepBlobQuery(BlobGetKeys);
    qs := CorQueries(initBlobtableIdx, addrows, getrowsByIden, getrowsByIdenRange, getidenMax,
                     blobSet, blobGet, blobDel, blobGetKeys);
  }

  /** `_t_getrows_by_prop`, line 156 */
  const GetrowsByProp: PropQuery := PropQuery(SelectRows, None, None, None, true, false)

  /** `_t_getrows_by_prop_int`, line 157 */
  const GetrowsByPropInt: PropQuery := PropQuery(SelectRows, Some(Intval), None, None, true, false)

  /** `_t_getrows_by_prop_str`, line 158 */
  const GetrowsByPropStr: PropQuery := PropQuery(SelectRows, Some(Strval), None, None, true, false)

  /** `_t_getrows_by_prop_wmin`, line 160 */
  const GetrowsByPropWmin: PropQuery := PropQuery(SelectRows, None, Some(true), None, true, false)

  /** `_t_getrows_by_prop_int_wmin`, line 161 */
  const GetrowsByPropIntWmin: PropQuery := PropQuery(SelectRows, Some(Intval), Some(true), None, true, false)

  /** `_t_getrows_by_prop_str_wmin`, line 162 */
  const GetrowsByPropStrWmin: PropQuery := PropQuery(SelectRows, Some(Strval), Some(true), None, true, false)

  /** `_t_getrows_by_prop_wmax`, line 164 */
  const GetrowsByPropWmax: PropQuery := PropQuery(SelectRows, None, None, Some(false), true, false)

  /** `_t_getrows_by_prop_int_wmax`, line 165 */
  const GetrowsByPropIntWmax: PropQuery := PropQuery(SelectRows, Some(Intval), None, Some(false), true, false)

  /** `_t_getrows_by_prop_str_wmax`, line 166 */
  const GetrowsByPropStrWmax: PropQuery := PropQuery(SelectRows, Some(Strval), None, Some(false), true, false)

  /** `_t_getrows_by_prop_wminmax`, line 168 */
  const GetrowsByPropWminmax: PropQuery := PropQuery(SelectRows, None, Some(false), Some(false), true, false)

  /** `_t_getrows_by_prop_int_wminmax`, line 169 */
  const GetrowsByPropIntWminmax: PropQuery := PropQuery(SelectRows, Some(Intval), Some(true), Some(false), true, false)

  /** `_t_getrows_by_prop_str_wminmax`, line 170 */
  const GetrowsByPropStrWminmax: PropQuery := PropQuery(SelectRows, Some(Strval), Some(true), Some(false), true, false)

  /** `_t_getsize_by_prop`, line 172 */
  const GetsizeByProp: PropQuery := PropQuery(CountRows, None, None, None, true, false)

  /** `_t_getsize_by_prop_int`, line 173 */
  const GetsizeByPropInt: PropQuery := PropQuery(CountRows, Some(Intval), None, None, true, false)

  /** `_t_getsize_by_prop_str`, line 174 */
  const GetsizeByPropStr: PropQuery := PropQuery(CountRows, Some(Strval), None, None, true, false)

  /** `_t_getsize_by_prop_wmin`, line 176 */
  const GetsizeByPropWmin: PropQuery := PropQuery(CountRows, None, Some(false), None, true, false)

  /** `_t_getsize_by_prop_int_wmin`, line 177 */
  const GetsizeByPropIntWmin: PropQuery := PropQuery(CountRows, Some(Intval), Some(false), None, true, false)

  /** `_t_getsize_by_prop_str_wmin`, line 178 */
  const GetsizeByPropStrWmin: PropQuery := PropQuery(CountRows, Some(Strval), Some(false), None, true, false)

  /** `_t_getsize_by_prop_wmax`, line 180 */
  const GetsizeByPropWmax: PropQuery := PropQuery(CountRows, None, None, Some(false), true, false)

  /** `_t_getsize_by_prop_int_wmax`, line 181 */
  const GetsizeByPropIntWmax: PropQuery := PropQuery(CountRows, Some(Intval), None, Some(false), true, false)

  /** `_t_getsize_by_prop_str_wmax`, line 182 */
  const GetsizeByPropStrWmax: PropQuery := PropQuery(CountRows, Some(Strval), None, Some(false), true, false)

  /** `_t_getsize_by_prop_wminmax`, line 184 */
  const GetsizeByPropWminmax: PropQuery := PropQuery(CountRows, None, Some(false), Some(false), true, false)

  /** `_t_getsize_by_prop_int_wminmax`, line 185 */
  const GetsizeByPropIntWminmax: PropQuery := PropQuery(CountRows, Some(Intval), Some(false), Some(false), true, false)

  /** `_t_getsize_by_prop_str_wminmax`, line 186 */
  const GetsizeByPropStrWminmax: PropQuery := PropQuery(CountRows, Some(Strval), Some(false), Some(false), true, false)

  /** `_t_delrows_by_prop`, line 199 */
  const DelrowsByProp: PropQuery := PropQuery(DeleteRows, None, None, None, false, false)

  /** `_t_delrows_by_prop_int`, line 200 */
  const DelrowsByPropInt: PropQuery := PropQuery(DeleteRows, Some(Intval), None, None, false, false)

  /** `_t_delrows_by_prop_str`, line 201 */
  const DelrowsByPropStr: PropQuery := PropQuery(DeleteRows, Some(Strval), None, None, false, false)

  /** `_t_delrows_by_prop_wmin`, line 203 */
  const DelrowsByPropWmin: PropQuery := PropQuery(DeleteRows, None, Some(false), None, false, false)

  /** `_t_delrows_by_prop_int_wmin`, line 204 */
  const DelrowsByPropIntWmin: PropQuery := PropQuery(DeleteRows, Some(Intval), Some(false), None, false, false)

  /** `_t_delrows_by_prop_str_wmin`, line 205 */
  const DelrowsByPropStrWmin: PropQuery := PropQuery(DeleteRows, Some(Strval), Some(false), None, false, false)

  /** `_t_delrows_by_prop_wmax`, line 207 */
  const DelrowsByPropWmax: PropQuery := PropQuery(DeleteRows, None, None, Some(false), false, false)

  /** `_t_delrows_by_prop_int_wmax`, line 208 */
  const DelrowsByPropIntWmax: PropQuery := PropQuery(DeleteRows, Some(Intval), None, Some(false), false, false)

  /** `_t_delrows_by_prop_str_wmax`, line 209 */
  const DelrowsByPropStrWmax: PropQuery := PropQuery(DeleteRows, Some(Strval), None, Some(false), false, false)

  /** `_t_delrows_by_prop_wminmax`, line 211 */
  const DelrowsByPropWminmax: PropQuery := PropQuery(DeleteRows, None, Some(false), Some(false), false, false)

  /** `_t_delrows_by_prop_int_wminmax`, line 212 */
  const DelrowsByPropIntWminmax: PropQuery := PropQuery(DeleteRows, Some(Intval), Some(false), Some(false), false, false)

  /** `_t_delrows_by_prop_str_wminmax`, line 213 */
  const DelrowsByPropStrWminmax: PropQuery := PropQuery(DeleteRows, Some(Strval), Some(false), Some(false), false, false)

  /** `_t_getjoin_by_prop`, line 216 */
  const GetjoinByProp: PropQuery := PropQuery(SelectJoin, None, None, None, true, false)

  /** `_t_getjoin_by_prop_int`, line 217 */
  const GetjoinByPropInt: PropQuery := PropQuery(SelectJoin, Some(Intval), None, None, true, false)

  /** `_t_getjoin_by_prop_str`, line 218 */
  const GetjoinByPropStr: PropQuery := PropQuery(SelectJoin, Some(Strval), None, None, true, false)

  /** `_t_getjoin_by_prop_wmin`, line 220 */
  const GetjoinByPropWmin: PropQuery := PropQuery(SelectJoin, None, Some(false), None, true, false)

  /** `_t_getjoin_by_prop_int_wmin`, line 221 */
  const GetjoinByPropIntWmin: PropQuery := PropQuery(SelectJoin, Some(Intval), Some(false), None, true, false)

  /** `_t_getjoin_by_prop_str_wmin`, line 222 */
  const GetjoinByPropStrWmin: PropQuery := PropQuery(SelectJoin, Some(Strval), Some(false), None, true, false)

  /** `_t_getjoin_by_prop_wmax`, line 224 */
  const GetjoinByPropWmax: PropQuery := PropQuery(SelectJoin, None, None, Some(false), true, false)

  /** `_t_getjoin_by_prop_int_wmax`, line 225 */
  const GetjoinByPropIntWmax: PropQuery := PropQuery(SelectJoin, Some(Intval), None, Some(false), true, false)

  /** `_t_getjoin_by_prop_str_wmax`, line 226 */
  const GetjoinByPropStrWmax: PropQuery := PropQuery(SelectJoin, Some(Strval), None, Some(false), true, false)

  /** `_t_getjoin_by_prop_wminmax`, line 228 */
  const GetjoinByPropWminmax: PropQuery := PropQuery(SelectJoin, None, Some(false), Some(false), true, false)

  /** `_t_getjoin_by_prop_int_wminmax`, line 229 */
  const GetjoinByPropIntWminmax: PropQuery := PropQuery(SelectJoin, Some(Intval), Some(false), Some(false), true, false)

  /** `_t_getjoin_by_prop_str_wminmax`, line 230 */
  const GetjoinByPropStrWminmax: PropQuery := PropQuery(SelectJoin, Some(Strval), Some(false), Some(false), true, false)

  /** `_t_deljoin_by_prop`, line 239 */
  const DeljoinByProp: PropQuery := PropQuery(DeleteJoin, None, None, None, false, false)

  /** `_t_deljoin_by_prop_int`, line 240 */
  const DeljoinByPropInt: PropQuery := PropQuery(DeleteJoin, Some(Intval), None, None, false, false)

  /** `_t_deljoin_by_prop_str`, line 241 */
  const DeljoinByPropStr: PropQuery := PropQuery(DeleteJoin, Some(Strval), None, None, false, false)

  /** `_t_deljoin_by_prop_wmin`, line 243 */
  const DeljoinByPropWmin: PropQuery := PropQuery(DeleteJoin, None, Some(false), None, false, true)

  /** `_t_deljoin_by_prop_int_wmin`, line 244 */
  const DeljoinByPropIntWmin: PropQuery := PropQuery(DeleteJoin, Some(Intval), Some(false), None, false, true)

  /** `_t_deljoin_by_prop_str_wmin`, line 245 */
  const DeljoinByPropStrWmin: PropQuery := PropQuery(DeleteJoin, Some(Strval), Some(false), None, false, true)

  /** `_t_deljoin_by_prop_wmax`, line 247 */
  const DeljoinByPropWmax: PropQuery := PropQuery(DeleteJoin, None, None, Some(false), false, true)

  /** `_t_deljoin_by_prop_int_wmax`, line 248 */
  const DeljoinByPropIntWmax: PropQuery := PropQuery(DeleteJoin, Some(Intval), None, Some(false), false, true)

  /** `_t_deljoin_by_prop_str_wmax`, line 249 */
  const DeljoinByPropStrWmax: PropQuery := PropQuery(DeleteJoin, Some(Strval), None, Some(false), false, true)

  /** `_t_deljoin_by_prop_wminmax`, line 251 */
  const DeljoinByPropWminmax: PropQuery := PropQuery(DeleteJoin, None, Some(false), Some(true), false, false)

  /** `_t_deljoin_by_prop_int_wminmax`, line 252 */
  const DeljoinByPropIntWminmax: PropQuery := PropQuery(DeleteJoin, Some(Intval), Some(false), Some(false), false, false)

  /** `_t_deljoin_by_prop_str_wminmax`, line 253 */
  const DeljoinByPropStrWminmax: PropQuery := PropQuery(DeleteJoin, Some(Strval), Some(false), Some(false), false, false)


  // ------------------------------------------------------------------
  // qbuild: the query chosen by the types of the arguments

  /** The five families of property queries in `qbuild`. */
  datatype QueryKind = RowsByProp | JoinByProp | SizeByProp | DelRowsByProp | DelJoinByProp

  /** `type(x)` of an argument: None, int, str, or anything else. */
  datatype TypeTag = NoneT | IntT | StrT | OtherT

  /** `qbuild[kind][(type(valu), type(mintime), type(maxtime))]`; None is the KeyError. */
  function QBuild(kind: QueryKind, key: (TypeTag, TypeTag, TypeTag)): Option<PropQuery>
  {
    match kind
    case RowsByProp =>
      (match key
      case (NoneT, NoneT, NoneT) => Some(GetrowsByProp)
      case (NoneT, IntT, NoneT) => Some(GetrowsByPropWmin)
      case (NoneT, NoneT, IntT) => Some(GetrowsByPropWmax)
      case (NoneT, IntT, IntT) => Some(GetrowsByPropWminmax)
      case (IntT, NoneT, NoneT) => Some(GetrowsByPropInt)
      case (IntT, IntT, NoneT) => Some(GetrowsByPropIntWmin)
      case (IntT, NoneT, IntT) => Some(GetrowsByPropIntWmax)
      case (IntT, IntT, IntT) => Some(GetrowsByPropIntWminmax)
      case (StrT, NoneT, NoneT) => Some(GetrowsByPropStr)
      case (StrT, IntT, NoneT) => Some(GetrowsByPropStrWmin)
      case (StrT, NoneT, IntT) => Some(GetrowsByPropStrWmax)
      case (StrT, IntT, IntT) => Some(GetrowsByPropStrWminmax)
      case _ => None)
    case JoinByProp =>
      (match key
      case (NoneT, NoneT, NoneT) => Some(GetjoinByProp)
      case (NoneT, IntT, NoneT) => Some(GetjoinByPropWmin)
      case (NoneT, NoneT, IntT) => Some(GetjoinByPropWmax)
      case (NoneT, IntT, IntT) => Some(GetjoinByPropWminmax)
      case (IntT, NoneT, NoneT) => Some(GetjoinByPropInt)
      case (IntT, IntT, NoneT) => Some(GetjoinByPropIntWmin)
      case (IntT, NoneT, IntT) => Some(GetjoinByPropIntWmax)
      case (IntT, IntT, IntT) => Some(GetjoinByPropIntWminmax)
      case (StrT, NoneT, NoneT) => Some(GetjoinByPropStr)
      case (StrT, IntT, NoneT) => Some(GetjoinByPropStrWmin)
      case (StrT, NoneT, IntT) => Some(GetjoinByPropStrWmax)
      case (StrT, IntT, IntT) => Some(GetjoinByPropStrWminmax)
      case _ => None)
    case SizeByProp =>
      (match key
      case (NoneT, NoneT, NoneT) => Some(GetsizeByProp)
      case (NoneT, IntT, NoneT) => Some(GetsizeByPropWmin)
      case (NoneT, NoneT, IntT) => Some(GetsizeByPropWmax)
      case (NoneT, IntT, IntT) => Some(GetsizeByPropWminmax)
      case (IntT, NoneT, NoneT) => Some(GetsizeByPropInt)
      case (IntT, IntT, NoneT) => Some(GetsizeByPropIntWmin)
      case (IntT, NoneT, IntT) => Some(GetsizeByPropIntWmax)
      case (IntT, IntT, IntT) => Some(GetsizeByPropIntWminmax)
      case (StrT, NoneT, NoneT) => Some(GetsizeByPropStr)
      case (StrT, IntT, NoneT) => Some(GetsizeByPropStrWmin)
      case (StrT, NoneT, IntT) => Some(GetsizeByPropStrWmax)
      case (StrT, IntT, IntT) => Some(GetsizeByPropStrWminmax)
      case _ => None)
    case DelRowsByProp =>
      (match key
      case (NoneT, NoneT, NoneT) => Some(DelrowsByProp)
      case (NoneT, IntT, NoneT) => Some(DelrowsByPropWmin)
      case (NoneT, NoneT, IntT) => Some(DelrowsByPropWmax)
      case (NoneT, IntT, IntT) => Some(DelrowsByPropWminmax)
      case (IntT, NoneT, NoneT) => Some(DelrowsByPropInt)
      case (IntT, IntT, NoneT) => Some(DelrowsByPropIntWmin)
      case (IntT, NoneT, IntT) => Some(DelrowsByPropIntWmax)
      case (IntT, IntT, IntT) => Some(DelrowsByPropIntWminmax)
      case (StrT, NoneT, NoneT) => Some(DelrowsByPropStr)
      case (StrT, IntT, NoneT) => Some(DelrowsByPropStrWmin)
      case (StrT, NoneT, IntT) => Some(DelrowsByPropStrWmax)
      case (StrT, IntT, IntT) => Some(DelrowsByPropStrWminmax)
      case _ => None)
    case DelJoinByProp =>
      (match key
      case (NoneT, NoneT, NoneT) => Some(DeljoinByProp)
      case (NoneT, IntT, NoneT) => Some(DeljoinByPropWmin)
      case (NoneT, NoneT, IntT) => Some(DeljoinByPropWmax)
      case (NoneT, IntT, IntT) => Some(DeljoinByPropWminmax)
      case (IntT, NoneT, NoneT) => Some(DeljoinByPropInt)
      case (IntT, IntT, NoneT) => Some(DeljoinByPropIntWmin)
      case (IntT, NoneT, IntT) => Some(DeljoinByPropIntWmax)
      case (IntT, IntT, IntT) => Some(DeljoinByPropIntWminmax)
      case (StrT, NoneT, NoneT) => Some(DeljoinByPropStr)
      case (StrT, IntT, NoneT) => Some(DeljoinByPropStrWmin)
      case (StrT, NoneT, IntT) => Some(DeljoinByPropStrWmax)
      case (StrT, IntT, IntT) => Some(DeljoinByPropStrWminmax)
      case _ => None)
  }

  /** The statement each family begins with. */
  function HeadOf(kind: QueryKind): Head
  {
    match kind
    case RowsByProp => SelectRows
    case JoinByProp => SelectJoin
    case SizeByProp => CountRows
    case DelRowsByProp => DeleteRows
    case DelJoinByProp => DeleteJoin
  }

  /**
   * `_runPropQuery` finds a query exactly for a value of type None, int or
   * str and time bounds of type None or int.  The query it finds belongs
   * to the family asked for, compares the value with `intval` for an int
   * and with `strval` for a str, has a lower and an upper time bound
   * exactly when those are ints, and carries a LIMIT unless it deletes.
   */
  lemma QBuildFields(kind: QueryKind, v: TypeTag, m: TypeTag, x: TypeTag)
    ensures QBuild(kind, (v, m, x)).Some? <==> v != OtherT && m in {NoneT, IntT} && x in {NoneT, IntT}
    ensures QBuild(kind, (v, m, x)).Some? ==>
      var q := QBuild(kind, (v, m, x)).value;
      && q.head == HeadOf(kind)
      && (q.valu == Some(Intval) <==> v == IntT)
      && (q.valu == Some(Strval) <==> v == StrT)
      && (q.valu.Some? ==> q.valu.value in {Intval, Strval})
      && (q.wmin.Some? <==> m == IntT)
      && (q.wmax.Some? <==> x == IntT)
      && (q.limit <==> !kind.DelRowsByProp? && !kind.DelJoinByProp?)
  {
  }

  /** So the SQL of the query `_runPropQuery` finds filters on exactly the arguments given. */
  lemma QBuildSelects(kind: QueryKind, v: TypeTag, m: TypeTag, x: TypeTag)
    requires QBuild(kind, (v, m, x)).Some?
    ensures Selects(Pieces(QBuild(kind, (v, m, x)).value), v, m, x)
    ensures HasStash(Pieces(QBuild(kind, (v, m, x)).value), LIMIT) <==> !kind.DelRowsByProp? && !kind.DelJoinByProp?
  {
    QBuildFields(kind, v, m, x);
    PropQuerySelects(QBuild(kind, (v, m, x)).value);
  }
}
