// A model of the CryoTank append-only item log and the CryoCell tank registry.
//
// The LMDB store of a tank is modelled as a sequence of key/value entries in
// cursor (key) order; keys are 8-byte big-endian encodings of the entry index.
// The msgpack encoding of items is opaque: items arrive already encoded as
// byte strings, and decoding is a function parameter.
module Cryo {
  import opened Wrappers

  type byte = x: int | 0 <= x < 256
  type Bytes = seq<byte>

  /** Width in bytes of an index key ('>Q'). */
  const KeyWidth: nat := 8

  /** Number of distinct 8-byte keys: indices must stay below this. */
  const MaxKeys: nat := 0x1_0000_0000_0000_0000

  /** 256 to the power k. */
  function Pow256(k: nat): (r: nat)
    ensures r > 0
  {
    if k == 0 then 1 else 256 * Pow256(k - 1)
  }

  lemma MaxKeysIsPow()
    ensures Pow256(KeyWidth) == MaxKeys
  {
  }

  // ---------------------------------------------------------------------
  // Big-endian unsigned encoding

  /** The unsigned number a big-endian byte string denotes. */
  function UnpackBE(b: Bytes): nat
  {
    if |b| == 0 then 0 else 256 * UnpackBE(b[..|b| - 1]) + b[|b| - 1]
  }

  lemma {:induction false} UnpackBound(b: Bytes)
    ensures UnpackBE(b) < Pow256(|b|)
  {
    if |b| > 0 {
      UnpackBound(b[..|b| - 1]);
    }
  }

  /** The w-byte big-endian encoding of n. */
  function PackBE(n: nat, w: nat): (r: Bytes)
    requires n < Pow256(w)
    ensures |r| == w
  {
    if w == 0 then [] else PackBE(n / 256, w - 1) + [n % 256]
  }

  lemma {:induction false} UnpackPackBE(n: nat, w: nat)
    requires n < Pow256(w)
    ensures UnpackBE(PackBE(n, w)) == n
  {
    if w > 0 {
      var b := PackBE(n, w);
      assert b[..w - 1] == PackBE(n / 256, w - 1);
      UnpackPackBE(n / 256, w - 1);
    }
  }

  lemma {:induction false} PackUnpackBE(b: Bytes)
    ensures UnpackBE(b) < Pow256(|b|) && PackBE(UnpackBE(b), |b|) == b
  {
    UnpackBound(b);
    if |b| > 0 {
      var init := b[..|b| - 1];
      UnpackBound(init);
      assert UnpackBE(b) / 256 == UnpackBE(init);
      PackUnpackBE(init);
      assert b == init + [b[|b| - 1]];
    }
  }

  /** Lexicographic byte-string order, as LMDB compares keys. */
  predicate LexLess(a: Bytes, b: Bytes)
  {
    if |a| == 0 then |b| > 0
    else if |b| == 0 then false
    else if a[0] != b[0] then a[0] < b[0]
    else LexLess(a[1..], b[1..])
  }

  /** Extending two strings of one length by a byte each. */
  lemma {:induction false} LexLessSnoc(a: Bytes, b: Bytes, x: byte, y: byte)
    requires |a| == |b|
    ensures LexLess(a + [x], b + [y]) <==> LexLess(a, b) || (a == b && x < y)
  {
    if |a| > 0 && a[0] == b[0] {
      assert (a + [x])[1..] == a[1..] + [x];
      assert (b + [y])[1..] == b[1..] + [y];
      LexLessSnoc(a[1..], b[1..], x, y);
      assert a == [a[0]] + a[1..] && b == [b[0]] + b[1..];
    }
  }

  /** On strings of one length, byte order is numeric order. */
  lemma {:induction false} LexLessIsNumeric(a: Bytes, b: Bytes)
    requires |a| == |b|
    ensures LexLess(a, b) <==> UnpackBE(a) < UnpackBE(b)
  {
    if |a| > 0 {
      var a', b' := a[..|a| - 1], b[..|b| - 1];
      assert a == a' + [a[|a| - 1]] && b == b' + [b[|b| - 1]];
      LexLessSnoc(a', b', a[|a| - 1], b[|b| - 1]);
      LexLessIsNumeric(a', b');
      if a' == b' {
        assert UnpackBE(a') == UnpackBE(b');
      }
      if UnpackBE(a') == UnpackBE(b') {
        PackUnpackBE(a');
        PackUnpackBE(b');
      }
    }
  }

  /** struct.pack('>Q', n) */
  function PackQ(n: nat): (r: Bytes)
    requires n < MaxKeys
    ensures |r| == KeyWidth
  {
    MaxKeysIsPow();
    PackBE(n, KeyWidth)
  }

  /** struct.unpack('>Q', b)[0] */
  function UnpackQ(b: Bytes): nat
    requires |b| == KeyWidth
  {
    UnpackBE(b)
  }

  lemma UnpackPackQ(n: nat)
    requires n < MaxKeys
    ensures UnpackQ(PackQ(n)) == n
  {
    MaxKeysIsPow();
    UnpackPackBE(n, KeyWidth);
  }

  lemma PackUnpackQ(b: Bytes)
    requires |b| == KeyWidth
    ensures UnpackQ(b) < MaxKeys && PackQ(UnpackQ(b)) == b
  {
    MaxKeysIsPow();
    UnpackBound(b);
    PackUnpackBE(b);
  }

  /** Cursor order over packed keys is index order. */
  lemma PackQOrder(i: nat, j: nat)
    requires i < MaxKeys && j < MaxKeys
    ensures LexLess(PackQ(i), PackQ(j)) <==> i < j
  {
    LexLessIsNumeric(PackQ(i), PackQ(j));
    UnpackPackQ(i);
    UnpackPackQ(j);
  }

  // ---------------------------------------------------------------------
  // The ordered store

  datatype Entry<V> = Entry(key: Bytes, val: V)

  /** A database whose i-th entry in key order has the key PackQ(i). */
  ghost predicate Keyed<V>(db: seq<Entry<V>>)
  {
    |db| <= MaxKeys && forall i :: 0 <= i < |db| ==> db[i].key == PackQ(i)
  }

  /** The entries a batch of values gets when stored from index start on. */
  function Stamped<V>(start: nat, vals: seq<V>): (r: seq<Entry<V>>)
    requires start + |vals| <= MaxKeys
    ensures |r| == |vals|
  {
    seq(|vals|, j requires 0 <= j < |vals| => Entry(PackQ(start + j), vals[j]))
  }

  /** Appending a stamped batch at the current count keeps the store keyed. */
  lemma StampedKeyed<V>(db: seq<Entry<V>>, vals: seq<V>)
    requires Keyed(db) && |db| + |vals| <= MaxKeys
    ensures Keyed(db + Stamped(|db|, vals))
  {
  }

  /** A batch and its metrics record, appended at the current counts, keep both stores keyed. */
  lemma PutsKeyed<V, M>(db: seq<Entry<V>>, mdb: seq<Entry<M>>, vals: seq<V>, info: M)
    requires Keyed(db) && Keyed(mdb) && |db| + |vals| <= MaxKeys && |mdb| < MaxKeys
    ensures Keyed(db + Stamped(|db|, vals))
    ensures Keyed(mdb + [Entry(PackQ(|mdb|), info)])
  {
    StampedKeyed(db, vals);
    StampedKeyed(mdb, [info]);
    assert Stamped(|mdb|, [info]) == [Entry(PackQ(|mdb|), info)];
  }

  /** The values of a store in key order, decoded by un. */
  function Decoded<V, W>(db: seq<Entry<V>>, un: V -> W): (r: seq<W>)
    ensures |r| == |db|
  {
    seq(|db|, i requires 0 <= i < |db| => un(db[i].val))
  }

  /**
   * Cursor set_range: the position of the first entry whose key is not
   * below mink, or None when every key is below it.
   */
  function SetRange<V>(db: seq<Entry<V>>, mink: Bytes): (r: Option<nat>)
    ensures r.Some? ==> r.value < |db| && !LexLess(db[r.value].key, mink)
    ensures forall i :: 0 <= i < |db| && (r.None? || i < r.value) ==> LexLess(db[i].key, mink)
  {
    if |db| == 0 then None
    else if !LexLess(db[0].key, mink) then Some(0)
    else match SetRange(db[1..], mink)
      case None => None
      case Some(p) => Some(p + 1)
  }

  /** In a keyed store, set_range on PackQ(offs) lands on index offs. */
  lemma SetRangeKeyed<V>(db: seq<Entry<V>>, offs: nat)
    requires Keyed(db) && offs < MaxKeys
    ensures SetRange(db, PackQ(offs)) == if offs < |db| then Some(offs) else None
  {
    KeyedBelow(db, offs);
    if offs < |db| {
      assert db[offs].key == PackQ(offs);
    }
  }

  /** In a keyed store, the keys below PackQ(offs) are those of the indices below offs. */
  lemma KeyedBelow<V>(db: seq<Entry<V>>, offs: nat)
    requires Keyed(db) && offs < MaxKeys
    ensures forall i :: 0 <= i < |db| ==> (LexLess(db[i].key, PackQ(offs)) <==> i < offs)
  {
    forall i | 0 <= i < |db|
      ensures LexLess(db[i].key, PackQ(offs)) <==> i < offs
    {
      PackQOrder(i, offs);
    }
  }

  /** The half-open index window [offs, offs + size) of vals, with indices. */
  function Window<V>(vals: seq<V>, offs: nat, size: int): (w: seq<(nat, V)>)
  {
    var n := WindowLen(|vals|, offs, size);
    seq(n, j requires 0 <= j < n => (offs + j, vals[offs + j]))
  }

  /** How many of len entries fall in [offs, offs + size). */
  function WindowLen(len: nat, offs: nat, size: int): (n: nat)
    ensures offs + n <= len || n == 0
  {
    var hi := if offs + size < len then offs + size else len;
    if hi < offs then 0 else hi - offs
  }

  /** A sequence that pairs the right indices with the right values is the window. */
  lemma IsWindow<V>(vals: seq<V>, offs: nat, size: int, out: seq<(nat, V)>)
    requires |out| == WindowLen(|vals|, offs, size)
    requires forall j :: 0 <= j < |out| ==> out[j] == (offs + j, vals[offs + j])
    ensures out == Window(vals, offs, size)
  {
  }

  /** The window holds exactly the entries with offs <= index < offs + size, ascending. */
  lemma WindowExact<V>(vals: seq<V>, offs: nat, size: int)
    ensures forall i: nat, v :: (i, v) in Window(vals, offs, size) <==>
      offs <= i < offs + size && i < |vals| && v == vals[i]
    ensures forall j, k :: 0 <= j < k < |Window(vals, offs, size)| ==>
      Window(vals, offs, size)[j].0 < Window(vals, offs, size)[k].0
  {
    var w := Window(vals, offs, size);
    forall i: nat, v | offs <= i < offs + size && i < |vals| && v == vals[i]
      ensures (i, v) in w
    {
      assert w[i - offs] == (i, v);
    }
  }

  /** One step of the cursor loop: the entry at pos carries index pos and extends the window. */
  lemma ScanStep<V, W>(db: seq<Entry<V>>, un: V -> W, offs: nat, pos: nat, out: seq<(nat, W)>)
    requires Keyed(db) && offs <= pos < |db| && |out| == pos - offs
    requires forall j :: 0 <= j < |out| ==> out[j] == (offs + j, Decoded(db, un)[offs + j])
    ensures UnpackQ(db[pos].key) == pos
    ensures forall j :: 0 <= j < |out| + 1 ==>
      (out + [(pos, un(db[pos].val))])[j] == (offs + j, Decoded(db, un)[offs + j])
  {
    UnpackPackQ(pos);
  }

  /**
   * The cursor loop shared by slice, rows and metrics: pack offs, set_range,
   * then yield entries until one has an index at or past offs + size.
   * struct.pack raises for an offset outside the 8-byte range.
   */
  method ScanWindow<V, W>(db: seq<Entry<V>>, offs: int, size: int, un: V -> W)
    returns (r: Result<seq<(nat, W)>>)
    requires Keyed(db)
    ensures 0 <= offs < MaxKeys ==> r == Ok(Window(Decoded(db, un), offs, size))
    ensures !(0 <= offs < MaxKeys) ==> r.Err?
  {
    if !(0 <= offs < MaxKeys) {
      return Err("struct.error: argument out of range");
    }
    var imax := offs + size;
    var mink := PackQ(offs);
    var start := SetRange(db, mink);
    SetRangeKeyed(db, offs);
    ghost var vals := Decoded(db, un);
    if start.None? {
      IsWindow(vals, offs, size, []);
      return Ok([]);
    }
    var out: seq<(nat, W)> := [];
    var pos := start.value;
    while pos < |db|
      invariant offs <= pos <= |db|
      invariant pos == offs || pos <= imax
      invariant |out| == pos - offs
      invariant forall j :: 0 <= j < |out| ==> out[j] == (offs + j, vals[offs + j])
    {
      ScanStep(db, un, offs, pos, out);
      var indx := UnpackQ(db[pos].key);
      if indx >= imax {
        break;
      }
      out := out + [(indx, un(db[pos].val))];
      pos := pos + 1;
    }
    IsWindow(vals, offs, size, out);
    return Ok(out);
  }

  /** Total length of a batch of encoded items. */
  function SumLen(bs: seq<Bytes>): nat
  {
    if |bs| == 0 then 0 else |bs[0]| + SumLen(bs[1..])
  }

  lemma {:induction false} SumLenAppend(a: seq<Bytes>, b: seq<Bytes>)
    ensures SumLen(a + b) == SumLen(a) + SumLen(b)
  {
    if |a| > 0 {
      assert (a + b)[0] == a[0] && (a + b)[1..] == a[1..] + b;
      SumLenAppend(a[1..], b);
    } else {
      assert a + b == b;
    }
  }

  /** A metrics record; the wall-clock 'time' and 'took' fields are not modelled. */
  datatype Metric = Metric(count: nat, size: nat)

  datatype TankInfo = TankInfo(indx: int, metrics: int)

  class CryoTank {
    var items: seq<Entry<Bytes>>
    var metrics: seq<Entry<Metric>>
    var itemsIndx: int
    var metricsIndx: int

    /** Both stores are keyed by index and the counters equal their entry counts. */
    ghost predicate Valid()
      reads this
    {
      Keyed(items) && Keyed(metrics) && itemsIndx == |items| && metricsIndx == |metrics|
    }

    /** Open a tank whose stores already hold the given entries. */
    constructor Open(stored: seq<Bytes>, measured: seq<Metric>)
      requires |stored| <= MaxKeys && |measured| <= MaxKeys
      ensures items == Stamped(0, stored) && metrics == Stamped(0, measured)
      ensures itemsIndx == |stored| && metricsIndx == |measured|
      ensures Valid()
    {
      StampedKeyed([], stored);
      StampedKeyed([], measured);
      items := Stamped(0, stored);
      metrics := Stamped(0, measured);
      itemsIndx := |stored|;
      metricsIndx := |measured|;
    }

    /** The item with the greatest index, decoded, or None for an empty tank. */
    function Last<V>(un: Bytes -> V): (r: Option<(nat, V)>)
      reads this
      requires Valid()
      ensures r.None? <==> |items| == 0
      ensures r.Some? ==> r.value == (|items| - 1, un(items[|items| - 1].val))
    {
      if |items| == 0 then None
      else
        UnpackPackQ(|items| - 1);
        Some((UnpackQ(items[|items| - 1].key), un(items[|items| - 1].val)))
    }

    /**
     * Append a batch of encoded items under consecutive indices starting at
     * the current item counter, and one metrics record for the batch.
     */
    method Puts(itembyts: seq<Bytes>) returns (retn: nat)
      requires Valid()
      requires |items| + |itembyts| <= MaxKeys && |metrics| < MaxKeys
      modifies this`items, this`itemsIndx, this`metrics, this`metricsIndx
      ensures retn == old(itemsIndx)
      ensures items == old(items) + Stamped(retn, itembyts)
      ensures itemsIndx == old(itemsIndx) + |itembyts|
      ensures metrics == old(metrics) + [Entry(PackQ(old(metricsIndx)), Metric(|itembyts|, SumLen(itembyts)))]
      ensures metricsIndx == old(metricsIndx) + 1
      ensures Valid()
    {
      var bytesize := SumLen(itembyts);
      retn := itemsIndx;
      var todo: seq<Entry<Bytes>> := [];
      for k := 0 to |itembyts|
        invariant itemsIndx == retn + k
        invariant |todo| == k
        invariant forall j :: 0 <= j < k ==> todo[j] == Entry(PackQ(retn + j), itembyts[j])
        modifies this`itemsIndx
      {
        todo := todo + [Entry(PackQ(itemsIndx), itembyts[k])];
        itemsIndx := itemsIndx + 1;
      }
      assert todo == Stamped(retn, itembyts);
      var lkey := PackQ(metricsIndx);
      var info := Metric(|itembyts|, bytesize);
      PutsKeyed(items, metrics, itembyts, info);
      SetStores(items + todo, metrics + [Entry(lkey, info)], itemsIndx, metricsIndx + 1);
    }

    /** Commit both stores and both counters at once. */
    method SetStores(its: seq<Entry<Bytes>>, mets: seq<Entry<Metric>>, ii: int, mi: int)
      requires Keyed(its) && Keyed(mets) && ii == |its| && mi == |mets|
      modifies this`items, this`itemsIndx, this`metrics, this`metricsIndx
      ensures items == its && metrics == mets && itemsIndx == ii && metricsIndx == mi
      ensures Valid()
    {
      items, metrics, itemsIndx, metricsIndx := its, mets, ii, mi;
    }

    /** Decoded items with offs <= index < offs + size, in index order. */
    method Slice<V>(offs: int, size: int, un: Bytes -> V) returns (r: Result<seq<(nat, V)>>)
      requires Valid()
      ensures 0 <= offs < MaxKeys ==> r == Ok(Window(Decoded(items, un), offs, size))
      ensures !(0 <= offs < MaxKeys) ==> r.Err?
    {
      r := ScanWindow(items, offs, size, un);
    }

    /** Raw encoded items with offs <= index < offs + size, in index order. */
    method Rows(offs: int, size: int) returns (r: Result<seq<(nat, Bytes)>>)
      requires Valid()
      ensures 0 <= offs < MaxKeys ==> r == Ok(Window(Decoded(items, (b: Bytes) => b), offs, size))
      ensures !(0 <= offs < MaxKeys) ==> r.Err?
    {
      r := ScanWindow(items, offs, size, (b: Bytes) => b);
    }

    /** Metrics records with offs <= index < offs + size, in index order. */
    method Metrics(offs: int, size: int) returns (r: Result<seq<(nat, Metric)>>)
      requires Valid()
      ensures 0 <= offs < MaxKeys ==> r == Ok(Window(Decoded(metrics, (m: Metric) => m), offs, size))
      ensures !(0 <= offs < MaxKeys) ==> r.Err?
    {
      r := ScanWindow(metrics, offs, size, (m: Metric) => m);
    }

    /** The item and metrics counters, which equal the entry counts. */
    function Info(): (r: TankInfo)
      reads this
      requires Valid()
      ensures r == TankInfo(|items|, |metrics|)
    {
      TankInfo(itemsIndx, metricsIndx)
    }
  }

  type Iden = string
  type Conf = map<string, int>

  class CryoCell {
    var tanks: map<string, CryoTank>
    var names: map<string, Iden>
    var confs: map<string, Option<Conf>>

    /** Every registered name has a tank, and every tank is valid. */
    ghost predicate Valid()
      reads this, tanks.Values
    {
      tanks.Keys == names.Keys && forall n :: n in tanks ==> tanks[n].Valid()
    }

    /**
     * Get the tank for name, or create and register an empty one under the
     * fresh iden. openFails stands for the tank constructor raising, in which
     * case nothing is registered.
     */
    method GenCryoTank(name: string, conf: Option<Conf>, iden: Iden, openFails: bool)
      returns (r: Option<CryoTank>)
      requires Valid()
      modifies this`tanks, this`names, this`confs
      ensures name in old(tanks) ==> r == Some(old(tanks)[name]) && unchanged(this)
      ensures name !in old(tanks) && openFails ==> r == None && unchanged(this)
      ensures name !in old(tanks) && !openFails ==>
        r.Some? && fresh(r.value) && r.value.items == [] && r.value.metrics == [] &&
        tanks == old(tanks)[name := r.value] && names == old(names)[name := iden] &&
        confs == old(confs)[name := conf]
      ensures Valid()
    {
      if name in tanks {
        return Some(tanks[name]);
      }
      if openFails {
        return None;
      }
      var tank := new CryoTank.Open([], []);
      names := names[name := iden];
      confs := confs[name := conf];
      tanks := tanks[name := tank];
      return Some(tank);
    }

    /** cryo:init: False for an existing name, else whether creation succeeded. */
    method OnCryoInit(name: string, conf: Option<Conf>, iden: Iden, openFails: bool) returns (ok: bool)
      requires Valid()
      modifies this`tanks, this`names, this`confs
      ensures name in old(tanks) ==> !ok && unchanged(this)
      ensures name !in old(tanks) ==> (ok <==> !openFails)
      ensures ok ==> name in tanks && names == old(names)[name := iden] && confs == old(confs)[name := conf]
      ensures !ok ==> unchanged(this)
      ensures Valid()
    {
      if name in tanks {
        return false;
      }
      var tank := GenCryoTank(name, conf, iden, openFails);
      return tank.Some?;
    }

    /** cryo:dele: False for an unknown name; else drop it from tanks and names, keeping its conf. */
    method OnCryoDele(name: string) returns (ok: bool)
      requires Valid()
      modifies this`tanks, this`names
      ensures ok <==> name in old(tanks)
      ensures tanks == old(tanks) - {name} && names == old(names) - {name}
      ensures confs == old(confs)
      ensures Valid()
    {
      if name !in tanks {
        return false;
      }
      tanks := tanks - {name};
      names := names - {name};
      return true;
    }

    /** cryo:last: None for an unknown name, else the tank's last item. */
    function OnCryoLast<V>(name: string, un: Bytes -> V): (r: Option<(nat, V)>)
      reads this, tanks.Values
      requires Valid()
      ensures r.None? <==> name !in tanks || |tanks[name].items| == 0
      ensures r.Some? ==> (name in tanks &&
        r.value == (|tanks[name].items| - 1, un(tanks[name].items[|tanks[name].items| - 1].val)))
    {
      if name in tanks then tanks[name].Last(un) else None
    }
  }
}
