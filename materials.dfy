/**
 * The bill of materials (`computeMaterials`) and the `materialsSummary` getter: counting
 * nodes per colour, per type and per (type, colour), pricing the type counts against the
 * catalog, and ordering every list by quantity, largest first. A JavaScript `Map` keeps
 * keys in first-insertion order; here it is a list of `Tally` entries in that order.
 */
module Materials {
  import opened Common
  import opened Scene
  import opened Catalog
  import opened Sorting

  /** One `Map` entry key → count. */
  datatype Tally = Tally(key: string, qty: nat)

  /** One entry of the per-type colour map: a type id and its colour counts. */
  datatype TypeColors = TypeColors(typeId: string, colors: seq<Tally>)

  /** A `byType` row of the bill. */
  datatype TypeLine = TypeLine(typeId: string, qty: nat, typeName: string, unitCost: real, subtotal: real)

  /** A `byTypeColor` row of the bill. */
  datatype TypeColorLine = TypeColorLine(typeId: string, typeName: string, qty: nat, unitCost: real, subtotal: real, colors: seq<Tally>)

  /** The object `computeMaterials` returns. */
  datatype Bill = Bill(
    includeHidden: bool,
    includeLocked: bool,
    total: nat,
    byColor: seq<Tally>,
    byType: seq<TypeLine>,
    byTypeColor: seq<TypeColorLine>,
    hasCosts: bool,
    estimatedCost: real)

  /** A `byTypeColor` row of the summary. */
  datatype TypeColorTotal = TypeColorTotal(typeId: string, total: nat, colors: seq<Tally>)

  /** The object the `materialsSummary` getter returns. */
  datatype Summary = Summary(total: nat, byColor: seq<Tally>, byType: seq<Tally>, byTypeColor: seq<TypeColorTotal>)

  // ----- counting -----

  /** How often `k` occurs in `keys`. */
  function Count(keys: seq<string>, k: string): nat
  {
    if |keys| == 0 then 0
    else Count(keys[..|keys| - 1], k) + (if keys[|keys| - 1] == k then 1 else 0)
  }

  function Keys(ts: seq<Tally>): (r: seq<string>)
    ensures |r| == |ts| && forall i :: 0 <= i < |ts| ==> r[i] == ts[i].key
  {
    if |ts| == 0 then [] else [ts[0].key] + Keys(ts[1..])
  }

  /** `map.get(k) || 0` */
  function QtyOf(ts: seq<Tally>, k: string): nat
  {
    if |ts| == 0 then 0 else if ts[0].key == k then ts[0].qty else QtyOf(ts[1..], k)
  }

  function SumQty(ts: seq<Tally>): nat
  {
    if |ts| == 0 then 0 else ts[0].qty + SumQty(ts[1..])
  }

  /** `map.set(k, (map.get(k) || 0) + 1)`: a known key counts one more, a new key is appended with 1. */
  function Bump(ts: seq<Tally>, k: string): (r: seq<Tally>)
    ensures k in Keys(ts) ==> Keys(r) == Keys(ts)
    ensures k !in Keys(ts) ==> Keys(r) == Keys(ts) + [k]
    ensures forall k' :: QtyOf(r, k') == QtyOf(ts, k') + (if k' == k then 1 else 0)
    ensures SumQty(r) == SumQty(ts) + 1
    ensures Distinct(Keys(ts)) ==> Distinct(Keys(r))
  {
    if |ts| == 0 then [Tally(k, 1)]
    else if ts[0].key == k then [Tally(k, ts[0].qty + 1)] + ts[1..]
    else
      var rest := Bump(ts[1..], k);
      assert ([ts[0]] + rest)[1..] == rest;
      assert k !in Keys(ts[1..]) ==> ([ts[0].key] + Keys(ts[1..])) + [k] == [ts[0].key] + (Keys(ts[1..]) + [k]);
      [ts[0]] + rest
  }

  /**
   * The counting loop over `keys`: one entry per distinct key, in first-occurrence order,
   * holding the number of occurrences; the counts add up to the number of keys.
   */
  function Tallied(keys: seq<string>): (r: seq<Tally>)
    ensures forall k :: QtyOf(r, k) == Count(keys, k)
    ensures forall k :: k in Keys(r) <==> k in keys
    ensures Distinct(Keys(r))
    ensures SumQty(r) == |keys|
  {
    if |keys| == 0 then []
    else
      var init := keys[..|keys| - 1];
      assert keys == init + [keys[|keys| - 1]];
      Bump(Tallied(init), keys[|keys| - 1])
  }

  // ----- pricing -----

  /** `typeMap.get(id)`: `new Map(types.map(t => [t.id, t]))` keeps the last entry with a given id. */
  function LastType(types: seq<BalloonType>, id: string): (r: Option<BalloonType>)
    ensures r.Some? ==> r.value in types && r.value.id == id
    ensures r.None? ==> forall t :: t in types ==> t.id != id
    ensures r.Some? ==> exists k :: 0 <= k < |types| && types[k] == r.value &&
                          forall j :: k < j < |types| ==> types[j].id != id
  {
    if |types| == 0 then None
    else if types[|types| - 1].id == id then Some(types[|types| - 1])
    else
      var r := LastType(types[..|types| - 1], id);
      assert types == types[..|types| - 1] + [types[|types| - 1]];
      r
  }

  /** `Number(t?.cost || 0)` */
  function UnitCost(types: seq<BalloonType>, id: string): real
  {
    match LastType(types, id)
    case None => 0.0
    case Some(t) => t.cost
  }

  /** `t?.name || 'Tipo: ' + typeId` */
  function TypeName(types: seq<BalloonType>, id: string): string
  {
    match LastType(types, id)
    case Some(t) => if t.name != "" then t.name else "Tipo: " + id
    case None => "Tipo: " + id
  }

  /** The cost a single balloon of type `id` adds: its unit cost when positive, nothing otherwise. */
  function PositiveCost(types: seq<BalloonType>, id: string): real
  {
    if UnitCost(types, id) > 0.0 then UnitCost(types, id) else 0.0
  }

  /** `q * c` for a count `q`, as repeated addition. */
  function Times(q: nat, c: real): real
  {
    if q == 0 then 0.0 else Times(q - 1, c) + c
  }

  lemma {:induction false} TimesIsProduct(q: nat, c: real)
    ensures Times(q, c) == q as real * c
  {
    if q > 0 {
      TimesIsProduct(q - 1, c);
      assert (q - 1) as real * c + c == q as real * c;
    }
  }

  /** One `byType` row: `subtotal = cost > 0 ? qty * cost : 0`. */
  function LineFor(types: seq<BalloonType>, t: Tally): (r: TypeLine)
    ensures r.typeId == t.key && r.qty == t.qty && r.unitCost == UnitCost(types, t.key)
    ensures r.subtotal == Times(t.qty, PositiveCost(types, t.key))
    ensures r.typeName == TypeName(types, t.key)
  {
    var cost := UnitCost(types, t.key);
    TimesIsProduct(t.qty, PositiveCost(types, t.key));
    TypeLine(t.key, t.qty, TypeName(types, t.key), cost, if cost > 0.0 then t.qty as real * cost else 0.0)
  }

  function SumSubtotal(lines: seq<TypeLine>): real
  {
    if |lines| == 0 then 0.0 else lines[0].subtotal + SumSubtotal(lines[1..])
  }

  /** `byType.some(x => x.unitCost > 0)` */
  function AnyPriced(lines: seq<TypeLine>): (r: bool)
    ensures r <==> exists l :: l in lines && l.unitCost > 0.0
  {
    if |lines| == 0 then false
    else
      assert forall l :: l in lines <==> l == lines[0] || l in lines[1..] by {
        assert lines == [lines[0]] + lines[1..];
      }
      lines[0].unitCost > 0.0 || AnyPriced(lines[1..])
  }

  /** The sum, over a list of keys, of the cost each key adds. */
  function CostOver(types: seq<BalloonType>, keys: seq<string>): real
  {
    if |keys| == 0 then 0.0 else CostOver(types, keys[..|keys| - 1]) + PositiveCost(types, keys[|keys| - 1])
  }

  /** Sum of `qty * PositiveCost(key)` over a tally. */
  function CostOfTally(types: seq<BalloonType>, ts: seq<Tally>): real
  {
    if |ts| == 0 then 0.0 else Times(ts[0].qty, PositiveCost(types, ts[0].key)) + CostOfTally(types, ts[1..])
  }

  lemma {:induction false} BumpAddsCost(types: seq<BalloonType>, ts: seq<Tally>, k: string)
    ensures CostOfTally(types, Bump(ts, k)) == CostOfTally(types, ts) + PositiveCost(types, k)
    decreases |ts|
  {
    var r := Bump(ts, k);
    if |ts| == 0 {
      assert r[1..] == [];
      assert Times(1, PositiveCost(types, k)) == Times(0, PositiveCost(types, k)) + PositiveCost(types, k);
    } else if ts[0].key == k {
      assert r[1..] == ts[1..];
    } else {
      BumpAddsCost(types, ts[1..], k);
      assert r[1..] == Bump(ts[1..], k);
    }
  }

  /** Pricing the counts is pricing each key once per occurrence. */
  lemma {:induction false} TalliedCost(types: seq<BalloonType>, keys: seq<string>)
    ensures CostOfTally(types, Tallied(keys)) == CostOver(types, keys)
    decreases |keys|
  {
    if |keys| > 0 {
      var init := keys[..|keys| - 1];
      TalliedCost(types, init);
      BumpAddsCost(types, Tallied(init), keys[|keys| - 1]);
    }
  }

  /** The priced rows of a type tally, in the tally's order. */
  function Lines(types: seq<BalloonType>, ts: seq<Tally>): (r: seq<TypeLine>)
    ensures |r| == |ts| && forall i :: 0 <= i < |ts| ==> r[i] == LineFor(types, ts[i])
    ensures SumSubtotal(r) == CostOfTally(types, ts)
    ensures SumOf(r, LineQty) == SumQty(ts)
  {
    if |ts| == 0 then [] else [LineFor(types, ts[0])] + Lines(types, ts[1..])
  }

  /** A row is only priced when its type has a positive unit cost. */
  lemma {:induction false} UnpricedLinesCostNothing(lines: seq<TypeLine>, types: seq<BalloonType>, ts: seq<Tally>)
    requires lines == Lines(types, ts)
    requires !AnyPriced(lines)
    ensures SumSubtotal(lines) == 0.0
    decreases |ts|
  {
    if |ts| > 0 {
      assert lines[0] in lines;
      UnpricedLinesCostNothing(lines[1..], types, ts[1..]);
    }
  }

  // ----- the per-type colour map -----

  function TypeIds(m: seq<TypeColors>): (r: seq<string>)
    ensures |r| == |m| && forall i :: 0 <= i < |m| ==> r[i] == m[i].typeId
  {
    if |m| == 0 then [] else [m[0].typeId] + TypeIds(m[1..])
  }

  /** `byTypeColorMap.get(typeId)`, or no colours. */
  function ColorsFor(m: seq<TypeColors>, t: string): seq<Tally>
  {
    if |m| == 0 then [] else if m[0].typeId == t then m[0].colors else ColorsFor(m[1..], t)
  }

  /** Creating the type's colour map on first sight, then counting the colour in it. */
  function NestedBump(m: seq<TypeColors>, t: string, c: string): (r: seq<TypeColors>)
    ensures t in TypeIds(m) ==> TypeIds(r) == TypeIds(m)
    ensures t !in TypeIds(m) ==> TypeIds(r) == TypeIds(m) + [t]
    ensures forall t' :: ColorsFor(r, t') == if t' == t then Bump(ColorsFor(m, t), c) else ColorsFor(m, t')
  {
    if |m| == 0 then [TypeColors(t, Bump([], c))]
    else if m[0].typeId == t then [m[0].(colors := Bump(m[0].colors, c))] + m[1..]
    else
      var rest := NestedBump(m[1..], t, c);
      assert ([m[0]] + rest)[1..] == rest;
      assert t !in TypeIds(m[1..]) ==> ([m[0].typeId] + TypeIds(m[1..])) + [t] == [m[0].typeId] + (TypeIds(m[1..]) + [t]);
      [m[0]] + rest
  }

  /** The colours of the pairs whose type is `t`, in order. */
  function ColorsOfType(pairs: seq<(string, string)>, t: string): seq<string>
  {
    if |pairs| == 0 then []
    else ColorsOfType(pairs[..|pairs| - 1], t) + (if pairs[|pairs| - 1].0 == t then [pairs[|pairs| - 1].1] else [])
  }

  /** One more pair counts its colour in its own type's tally only. */
  lemma {:induction false} ColorsOfTypeStep(pairs: seq<(string, string)>, t: string)
    requires |pairs| > 0
    ensures var init := pairs[..|pairs| - 1];
            var p := pairs[|pairs| - 1];
            Tallied(ColorsOfType(pairs, t)) ==
              if p.0 == t then Bump(Tallied(ColorsOfType(init, t)), p.1) else Tallied(ColorsOfType(init, t))
  {
    var init := pairs[..|pairs| - 1];
    var p := pairs[|pairs| - 1];
    var cs := ColorsOfType(init, t);
    if p.0 == t {
      assert ColorsOfType(pairs, t) == cs + [p.1];
      assert (cs + [p.1])[..|cs|] == cs;
    } else {
      assert ColorsOfType(pairs, t) == cs;
    }
  }

  function Firsts(pairs: seq<(string, string)>): (r: seq<string>)
    ensures |r| == |pairs| && forall i :: 0 <= i < |pairs| ==> r[i] == pairs[i].0
  {
    seq(|pairs|, i requires 0 <= i < |pairs| => pairs[i].0)
  }

  /**
   * The nested counting loop over (type, colour) pairs: a colour map per type, created on
   * the type's first pair.
   */
  function NestedTallied(pairs: seq<(string, string)>): seq<TypeColors>
  {
    if |pairs| == 0 then []
    else NestedBump(NestedTallied(pairs[..|pairs| - 1]), pairs[|pairs| - 1].0, pairs[|pairs| - 1].1)
  }

  /** The types of the nested map appear in the same first-occurrence order as in the type tally. */
  lemma {:induction false} NestedTypesFollowTypeTally(pairs: seq<(string, string)>)
    ensures TypeIds(NestedTallied(pairs)) == Keys(Tallied(Firsts(pairs)))
  {
    if |pairs| > 0 {
      var init := pairs[..|pairs| - 1];
      var t := pairs[|pairs| - 1].0;
      NestedTypesFollowTypeTally(init);
      var m := NestedTallied(init);
      var ts := Tallied(Firsts(init));
      assert Firsts(pairs)[..|pairs| - 1] == Firsts(init);
      assert Tallied(Firsts(pairs)) == Bump(ts, t);
      assert NestedTallied(pairs) == NestedBump(m, t, pairs[|pairs| - 1].1);
    }
  }

  /** Each type's colour map in the nested map is exactly the colour tally of that type's pairs. */
  lemma {:induction false} NestedColorsAreTallies(pairs: seq<(string, string)>, t: string)
    ensures ColorsFor(NestedTallied(pairs), t) == Tallied(ColorsOfType(pairs, t))
  {
    if |pairs| > 0 {
      NestedColorsAreTallies(pairs[..|pairs| - 1], t);
      ColorsOfTypeStep(pairs, t);
    }
  }

  // ----- ordering -----

  /** `sort((a, b) => b.qty - a.qty)` on count entries. */
  function ByQtyDesc(t: Tally): real { -(t.qty as real) }
  function LineByQtyDesc(l: TypeLine): real { -(l.qty as real) }
  function ColorLineByQtyDesc(l: TypeColorLine): real { -(l.qty as real) }
  function TotalByDesc(l: TypeColorTotal): real { -(l.total as real) }

  /** The sum of `f` over a list. */
  function SumOf<T>(s: seq<T>, f: T -> nat): nat
  {
    if |s| == 0 then 0 else f(s[0]) + SumOf(s[1..], f)
  }

  function TallyQty(t: Tally): nat { t.qty }
  function LineQty(l: TypeLine): nat { l.qty }

  lemma {:induction false} SumOfAppend<T>(a: seq<T>, b: seq<T>, f: T -> nat)
    ensures SumOf(a + b, f) == SumOf(a, f) + SumOf(b, f)
    decreases |a|
  {
    if |a| > 0 {
      assert (a + b)[1..] == a[1..] + b;
      SumOfAppend(a[1..], b, f);
    } else {
      assert a + b == b;
    }
  }

  /** Taking entry k out of a list takes its value out of the sum. */
  lemma {:induction false} RemoveAt<T>(b: seq<T>, k: nat, f: T -> nat)
    requires k < |b|
    ensures SumOf(b, f) == f(b[k]) + SumOf(b[..k] + b[k + 1..], f)
    ensures multiset(b[..k] + b[k + 1..]) == multiset(b) - multiset{b[k]}
  {
    var front, x, back := b[..k], b[k], b[k + 1..];
    assert b[k..] == [x] + back;
    assert b == front + b[k..];
    assert b == front + [x] + back;
    SumOfAppend(front + [x], back, f);
    SumOfAppend(front, [x], f);
    SumOfAppend(front, back, f);
    assert SumOf([x], f) == f(x) + SumOf([], f);
    assert multiset(b) == multiset(front) + multiset{x} + multiset(back);
  }

  /** Reordering a list does not change its sum. */
  lemma {:induction false} SumOfPermutation<T>(a: seq<T>, b: seq<T>, f: T -> nat)
    requires multiset(a) == multiset(b)
    ensures SumOf(a, f) == SumOf(b, f)
    decreases |a|
  {
    if |a| == 0 {
      assert |b| == |multiset(b)| == 0;
    } else {
      var x := a[0];
      assert x in multiset(b);
      var k :| 0 <= k < |b| && b[k] == x;
      RemoveAt(b, k, f);
      assert a == [x] + a[1..];
      assert multiset(a[1..]) == multiset(a) - multiset{x};
      SumOfPermutation(a[1..], b[..k] + b[k + 1..], f);
    }
  }

  lemma {:induction false} SumQtyIsSumOf(ts: seq<Tally>)
    ensures SumQty(ts) == SumOf(ts, TallyQty)
  {
    if |ts| > 0 {
      SumQtyIsSumOf(ts[1..]);
    }
  }

  /** Reordering entries does not change their total. */
  lemma {:induction false} SumQtyPermutation(a: seq<Tally>, b: seq<Tally>)
    requires multiset(a) == multiset(b)
    ensures SumQty(a) == SumQty(b)
  {
    SumQtyIsSumOf(a);
    SumQtyIsSumOf(b);
    SumOfPermutation(a, b, TallyQty);
  }

  /** A colour map as the bill shows it: sorted, with its total. */
  function ColorLine(types: seq<BalloonType>, e: TypeColors): (r: TypeColorLine)
    ensures r.typeId == e.typeId && r.qty == SumQty(e.colors) && multiset(r.colors) == multiset(e.colors)
  {
    var colors := StableSort(e.colors, ByQtyDesc);
    SumQtyPermutation(colors, e.colors);
    var qty := SumQty(colors);
    var cost := UnitCost(types, e.typeId);
    TypeColorLine(e.typeId, TypeName(types, e.typeId), qty, cost, if cost > 0.0 then qty as real * cost else 0.0, colors)
  }

  function ColorLines(types: seq<BalloonType>, m: seq<TypeColors>): (r: seq<TypeColorLine>)
    ensures |r| == |m| && forall i :: 0 <= i < |m| ==> r[i] == ColorLine(types, m[i])
  {
    if |m| == 0 then [] else [ColorLine(types, m[0])] + ColorLines(types, m[1..])
  }

  // ----- the bill -----

  /** The node filter of `computeMaterials`: hidden nodes only with `includeHidden`, locked ones only with `includeLocked`. */
  function Counted(nodes: seq<Node>, includeHidden: bool, includeLocked: bool): (r: seq<Node>)
    ensures forall n :: n in r <==> n in nodes && (includeHidden || n.visible) && (includeLocked || !n.locked)
  {
    if |nodes| == 0 then []
    else
      var n := nodes[0];
      assert forall m :: m in nodes <==> m == n || m in nodes[1..] by {
        assert nodes == [n] + nodes[1..];
      }
      (if (includeHidden || n.visible) && (includeLocked || !n.locked) then [n] else []) + Counted(nodes[1..], includeHidden, includeLocked)
  }

  /** `color.toLowerCase()` */
  function ColorKey(n: Node): string { ToLower(n.color) }

  /** `String(n.typeId || 'round-11')` */
  function TypeKey(n: Node): string { if n.typeId == "" then DefaultTypeId else n.typeId }

  function ColorKeys(nodes: seq<Node>): (r: seq<string>)
    ensures |r| == |nodes| && forall i :: 0 <= i < |nodes| ==> r[i] == ColorKey(nodes[i])
  {
    seq(|nodes|, i requires 0 <= i < |nodes| => ColorKey(nodes[i]))
  }

  function TypeKeys(nodes: seq<Node>): (r: seq<string>)
    ensures |r| == |nodes| && forall i :: 0 <= i < |nodes| ==> r[i] == TypeKey(nodes[i])
  {
    seq(|nodes|, i requires 0 <= i < |nodes| => TypeKey(nodes[i]))
  }

  function TypeColorPairs(nodes: seq<Node>): (r: seq<(string, string)>)
    ensures |r| == |nodes| && forall i :: 0 <= i < |nodes| ==> r[i] == (TypeKey(nodes[i]), ColorKey(nodes[i]))
  {
    seq(|nodes|, i requires 0 <= i < |nodes| => (TypeKey(nodes[i]), ColorKey(nodes[i])))
  }

  /** The three counting maps the loop over the counted nodes fills. */
  datatype Counts = Counts(byColor: seq<Tally>, byType: seq<Tally>, byTypeColor: seq<TypeColors>)

  function CountsOf(nodes: seq<Node>): Counts
  {
    Counts(Tallied(ColorKeys(nodes)), Tallied(TypeKeys(nodes)), NestedTallied(TypeColorPairs(nodes)))
  }

  /** The bill `computeMaterials` returns for the store's nodes and the given catalog. */
  function BillOf(nodes: seq<Node>, includeHidden: bool, includeLocked: bool, types: seq<BalloonType>): Bill
  {
    var counted := Counted(nodes, includeHidden, includeLocked);
    var counts := CountsOf(counted);
    var lines := Lines(types, counts.byType);
    var hasCosts := AnyPriced(lines);
    Bill(
      includeHidden, includeLocked, |counted|,
      StableSort(counts.byColor, ByQtyDesc),
      StableSort(lines, LineByQtyDesc),
      StableSort(ColorLines(types, counts.byTypeColor), ColorLineByQtyDesc),
      hasCosts,
      if hasCosts then SumSubtotal(lines) else 0.0)
  }

  /**
   * The colour counts of the bill: one entry per distinct lower-cased colour of the counted
   * nodes, each holding that colour's number of nodes, largest first, adding up to the total.
   */
  lemma {:induction false} BillColorCounts(nodes: seq<Node>, includeHidden: bool, includeLocked: bool, types: seq<BalloonType>)
    ensures var b := BillOf(nodes, includeHidden, includeLocked, types);
            var counted := Counted(nodes, includeHidden, includeLocked);
            && b.total == |counted|
            && SumQty(b.byColor) == b.total
            && SortedBy(b.byColor, ByQtyDesc)
            && (forall t :: t in b.byColor ==> t.key in ColorKeys(counted))
            && (forall n :: n in counted ==> exists t :: t in b.byColor && t.key == ColorKey(n))
            && multiset(b.byColor) == multiset(Tallied(ColorKeys(counted)))
  {
    var counted := Counted(nodes, includeHidden, includeLocked);
    var tally := Tallied(ColorKeys(counted));
    var sorted := StableSort(tally, ByQtyDesc);
    SumQtyPermutation(sorted, tally);
    forall t | t in sorted ensures t.key in ColorKeys(counted) {
      assert t in multiset(tally);
      KeyOfEntry(tally, t);
    }
    forall n | n in counted ensures exists t :: t in sorted && t.key == ColorKey(n) {
      var i :| 0 <= i < |counted| && counted[i] == n;
      assert ColorKeys(counted)[i] == ColorKey(n);
      var t := EntryOfKey(tally, ColorKey(n));
      assert t in multiset(sorted);
    }
  }

  lemma {:induction false} KeyOfEntry(ts: seq<Tally>, t: Tally)
    requires t in ts
    ensures t.key in Keys(ts)
    decreases |ts|
  {
    if ts[0] != t {
      KeyOfEntry(ts[1..], t);
    }
  }

  lemma {:induction false} EntryOfKey(ts: seq<Tally>, k: string) returns (t: Tally)
    requires k in Keys(ts)
    ensures t in ts && t.key == k && t.qty == QtyOf(ts, k)
    decreases |ts|
  {
    if ts[0].key == k {
      t := ts[0];
    } else {
      t := EntryOfKey(ts[1..], k);
    }
  }

  /**
   * The type rows of the bill are the priced type counts, reordered: their quantities add up
   * to the total, and the estimated cost is the sum over the counted nodes of their type's
   * unit cost when positive (`hasCosts ? estimatedCost : 0` never discards anything).
   */
  lemma {:induction false} BillCosts(nodes: seq<Node>, includeHidden: bool, includeLocked: bool, types: seq<BalloonType>)
    ensures var b := BillOf(nodes, includeHidden, includeLocked, types);
            var counted := Counted(nodes, includeHidden, includeLocked);
            && SortedBy(b.byType, LineByQtyDesc)
            && multiset(b.byType) == multiset(Lines(types, Tallied(TypeKeys(counted))))
            && SumOf(b.byType, LineQty) == b.total
            && b.estimatedCost == CostOver(types, TypeKeys(counted))
            && (b.hasCosts <==> exists l :: l in b.byType && l.unitCost > 0.0)
  {
    var counted := Counted(nodes, includeHidden, includeLocked);
    var tally := Tallied(TypeKeys(counted));
    var lines := Lines(types, tally);
    TalliedCost(types, TypeKeys(counted));
    if !AnyPriced(lines) {
      UnpricedLinesCostNothing(lines, types, tally);
    }
    var sorted := StableSort(lines, LineByQtyDesc);
    SumOfPermutation(sorted, lines, LineQty);
    forall l | l in sorted ensures l in lines { assert l in multiset(lines); }
    forall l | l in lines ensures l in sorted { assert l in multiset(sorted); }
  }

  /**
   * Each type row of the bill holds one counted type: its number of nodes, its catalog name
   * and unit cost, and as subtotal `qty` times the unit cost when that is positive (0
   * otherwise); every counted type has a row.
   */
  lemma {:induction false} BillTypeRows(nodes: seq<Node>, includeHidden: bool, includeLocked: bool, types: seq<BalloonType>)
    ensures var b := BillOf(nodes, includeHidden, includeLocked, types);
            var keys := TypeKeys(Counted(nodes, includeHidden, includeLocked));
            forall l :: l in b.byType ==>
              && l.typeId in keys
              && l.qty == Count(keys, l.typeId)
              && l.typeName == TypeName(types, l.typeId)
              && l.unitCost == UnitCost(types, l.typeId)
              && l.subtotal == Times(l.qty, PositiveCost(types, l.typeId))
    ensures var b := BillOf(nodes, includeHidden, includeLocked, types);
            var keys := TypeKeys(Counted(nodes, includeHidden, includeLocked));
            forall t :: t in keys ==> exists l :: l in b.byType && l.typeId == t
  {
    var keys := TypeKeys(Counted(nodes, includeHidden, includeLocked));
    var sorted := StableSort(Lines(types, Tallied(keys)), LineByQtyDesc);
    forall l | l in sorted
      ensures && l.typeId in keys
              && l.qty == Count(keys, l.typeId)
              && l.typeName == TypeName(types, l.typeId)
              && l.unitCost == UnitCost(types, l.typeId)
              && l.subtotal == Times(l.qty, PositiveCost(types, l.typeId))
    {
      TypeRowOfKeys(types, keys, l);
    }
    forall t | t in keys
      ensures exists l :: l in sorted && l.typeId == t
    {
      var tally := Tallied(keys);
      var e := EntryOfKey(tally, t);
      var i :| 0 <= i < |tally| && tally[i] == e;
      assert Lines(types, tally)[i] in multiset(sorted);
    }
  }

  /** A priced row of a key tally describes its key: count, name, unit cost and subtotal. */
  lemma {:induction false} TypeRowOfKeys(types: seq<BalloonType>, keys: seq<string>, l: TypeLine)
    requires l in StableSort(Lines(types, Tallied(keys)), LineByQtyDesc)
    ensures && l.typeId in keys
            && l.qty == Count(keys, l.typeId)
            && l.typeName == TypeName(types, l.typeId)
            && l.unitCost == UnitCost(types, l.typeId)
            && l.subtotal == Times(l.qty, PositiveCost(types, l.typeId))
  {
    var tally := Tallied(keys);
    var lines := Lines(types, tally);
    assert l in multiset(lines);
    var i :| 0 <= i < |lines| && lines[i] == l;
    var e := tally[i];
    assert l == LineFor(types, e);
    assert Keys(tally)[i] == e.key;
    EntryQty(tally, i);
    assert e.qty == Count(keys, e.key);
  }

  /** In a map with distinct keys, looking up an entry's key finds that entry's count. */
  lemma {:induction false} EntryQty(ts: seq<Tally>, i: nat)
    requires i < |ts| && Distinct(Keys(ts))
    ensures QtyOf(ts, ts[i].key) == ts[i].qty
    decreases i
  {
    if i > 0 {
      assert Keys(ts)[0] != Keys(ts)[i];
      assert Distinct(Keys(ts[1..])) by {
        assert forall a :: 0 <= a < |ts| - 1 ==> Keys(ts[1..])[a] == Keys(ts)[a + 1];
      }
      EntryQty(ts[1..], i - 1);
    }
  }

  /**
   * The per-type colour rows: a row for every counted type and for no other type, each
   * row's colours are exactly the colour counts of that type's nodes, and its quantity is
   * that type's number of nodes.
   */
  lemma {:induction false} BillTypeColorRows(nodes: seq<Node>, includeHidden: bool, includeLocked: bool, types: seq<BalloonType>)
    ensures var b := BillOf(nodes, includeHidden, includeLocked, types);
            var counted := Counted(nodes, includeHidden, includeLocked);
            var pairs := TypeColorPairs(counted);
            forall l :: l in b.byTypeColor ==>
              && l.typeId in TypeKeys(counted)
              && multiset(l.colors) == multiset(Tallied(ColorsOfType(pairs, l.typeId)))
              && l.qty == Count(TypeKeys(counted), l.typeId)
    ensures var b := BillOf(nodes, includeHidden, includeLocked, types);
            var counted := Counted(nodes, includeHidden, includeLocked);
            forall t :: t in TypeKeys(counted) ==> exists l :: l in b.byTypeColor && l.typeId == t
  {
    var counted := Counted(nodes, includeHidden, includeLocked);
    var rows := ColorLines(types, NestedTallied(TypeColorPairs(counted)));
    TypeRowsCover(types, counted);
    forall l | l in StableSort(rows, ColorLineByQtyDesc)
      ensures l in rows
    {
      assert l in multiset(rows);
    }
    forall l | l in rows
      ensures && l.typeId in TypeKeys(counted)
              && multiset(l.colors) == multiset(Tallied(ColorsOfType(TypeColorPairs(counted), l.typeId)))
              && l.qty == Count(TypeKeys(counted), l.typeId)
    {
      var i :| 0 <= i < |rows| && rows[i] == l;
      ColorRowCounts(types, counted, i);
    }
  }

  /** Every counted type has a row among the sorted per-type colour rows. */
  lemma {:induction false} TypeRowsCover(types: seq<BalloonType>, counted: seq<Node>)
    ensures var sorted := StableSort(ColorLines(types, NestedTallied(TypeColorPairs(counted))), ColorLineByQtyDesc);
            forall t :: t in TypeKeys(counted) ==> exists l :: l in sorted && l.typeId == t
  {
    var rows := ColorLines(types, NestedTallied(TypeColorPairs(counted)));
    var sorted := StableSort(rows, ColorLineByQtyDesc);
    forall t | t in TypeKeys(counted)
      ensures exists l :: l in sorted && l.typeId == t
    {
      var i := NestedIndexOfType(counted, t);
      assert rows[i].typeId == t;
      assert rows[i] in multiset(sorted);
    }
  }

  /** The position of a counted type in the per-type colour map. */
  lemma {:induction false} NestedIndexOfType(counted: seq<Node>, t: string) returns (i: nat)
    requires t in TypeKeys(counted)
    ensures i < |NestedTallied(TypeColorPairs(counted))|
    ensures NestedTallied(TypeColorPairs(counted))[i].typeId == t
  {
    var pairs := TypeColorPairs(counted);
    var m := NestedTallied(pairs);
    assert Firsts(pairs) == TypeKeys(counted);
    NestedTypesFollowTypeTally(pairs);
    assert t in TypeIds(m);
    i :| 0 <= i < |m| && TypeIds(m)[i] == t;
  }

  /** Row i of the per-type colour rows, before sorting, counts the nodes of its type. */
  lemma {:induction false} ColorRowCounts(types: seq<BalloonType>, counted: seq<Node>, i: nat)
    requires i < |NestedTallied(TypeColorPairs(counted))|
    ensures var pairs := TypeColorPairs(counted);
            var l := ColorLines(types, NestedTallied(pairs))[i];
            && l.typeId in TypeKeys(counted)
            && multiset(l.colors) == multiset(Tallied(ColorsOfType(pairs, l.typeId)))
            && l.qty == Count(TypeKeys(counted), l.typeId)
  {
    var pairs := TypeColorPairs(counted);
    var m := NestedTallied(pairs);
    assert Firsts(pairs) == TypeKeys(counted);
    NestedTypesFollowTypeTally(pairs);
    EntryTypeColors(m, i);
    NestedColorsAreTallies(pairs, m[i].typeId);
    assert m[i].typeId in Keys(Tallied(TypeKeys(counted)));
    NestedCountIsTypeCount(pairs, m[i].typeId);
  }

  /** An entry of the nested map holds the colours `ColorsFor` finds for its type, when types are distinct. */
  lemma {:induction false} EntryTypeColors(m: seq<TypeColors>, i: nat)
    requires i < |m| && Distinct(TypeIds(m))
    ensures m[i].typeId in TypeIds(m) && ColorsFor(m, m[i].typeId) == m[i].colors
    decreases i
  {
    assert TypeIds(m)[i] == m[i].typeId;
    if i > 0 {
      assert TypeIds(m)[0] != TypeIds(m)[i];
      assert Distinct(TypeIds(m[1..])) by {
        assert forall a :: 0 <= a < |m| - 1 ==> TypeIds(m[1..])[a] == TypeIds(m)[a + 1];
      }
      EntryTypeColors(m[1..], i - 1);
    }
  }

  /** A type's colour tally counts as many nodes as the type tally does. */
  lemma {:induction false} NestedCountIsTypeCount(pairs: seq<(string, string)>, t: string)
    ensures |ColorsOfType(pairs, t)| == Count(Firsts(pairs), t)
  {
    if |pairs| > 0 {
      NestedCountIsTypeCount(pairs[..|pairs| - 1], t);
      assert Firsts(pairs)[..|pairs| - 1] == Firsts(pairs[..|pairs| - 1]);
    }
  }

  /** The `materialsSummary` getter: the same counts over the visible nodes, without prices. */
  function SummaryOf(nodes: seq<Node>): Summary
  {
    var visible := VisibleNodes(nodes);
    var counts := CountsOf(visible);
    Summary(
      |visible|,
      StableSort(counts.byColor, ByQtyDesc),
      StableSort(counts.byType, ByQtyDesc),
      StableSort(TotalLines(counts.byTypeColor), TotalByDesc))
  }

  function TotalLines(m: seq<TypeColors>): (r: seq<TypeColorTotal>)
    ensures |r| == |m|
    ensures forall i :: 0 <= i < |m| ==> r[i].typeId == m[i].typeId && r[i].total == SumQty(m[i].colors)
    ensures forall i :: 0 <= i < |m| ==> multiset(r[i].colors) == multiset(m[i].colors) && SortedBy(r[i].colors, ByQtyDesc)
  {
    if |m| == 0 then []
    else
      var colors := StableSort(m[0].colors, ByQtyDesc);
      SumQtyPermutation(colors, m[0].colors);
      [TypeColorTotal(m[0].typeId, SumQty(colors), colors)] + TotalLines(m[1..])
  }

  /**
   * The summary counts the visible nodes: its colour and type lists are the colour and type
   * counts, largest first, and each adds up to the total.
   */
  lemma {:induction false} SummaryTotals(nodes: seq<Node>)
    ensures var s := SummaryOf(nodes);
            var visible := VisibleNodes(nodes);
            && s.total == |visible|
            && multiset(s.byColor) == multiset(Tallied(ColorKeys(visible)))
            && multiset(s.byType) == multiset(Tallied(TypeKeys(visible)))
            && SumQty(s.byColor) == s.total && SumQty(s.byType) == s.total
            && SortedBy(s.byColor, ByQtyDesc) && SortedBy(s.byType, ByQtyDesc)
  {
    var counts := CountsOf(VisibleNodes(nodes));
    SumQtyPermutation(StableSort(counts.byColor, ByQtyDesc), counts.byColor);
    SumQtyPermutation(StableSort(counts.byType, ByQtyDesc), counts.byType);
  }

  /**
   * The per-type colour rows of the summary: a row for every visible type and for no other
   * type, each holding that type's colour counts, largest first, and its number of nodes.
   */
  lemma {:induction false} SummaryTypeColorRows(nodes: seq<Node>)
    ensures var s := SummaryOf(nodes);
            var visible := VisibleNodes(nodes);
            forall l :: l in s.byTypeColor ==>
              && l.typeId in TypeKeys(visible)
              && multiset(l.colors) == multiset(Tallied(ColorsOfType(TypeColorPairs(visible), l.typeId)))
              && SortedBy(l.colors, ByQtyDesc)
              && l.total == Count(TypeKeys(visible), l.typeId)
    ensures var s := SummaryOf(nodes);
            forall t :: t in TypeKeys(VisibleNodes(nodes)) ==> exists l :: l in s.byTypeColor && l.typeId == t
    ensures SortedBy(SummaryOf(nodes).byTypeColor, TotalByDesc)
  {
    var visible := VisibleNodes(nodes);
    var rows := TotalLines(NestedTallied(TypeColorPairs(visible)));
    var sorted := StableSort(rows, TotalByDesc);
    forall l | l in sorted
      ensures && l.typeId in TypeKeys(visible)
              && multiset(l.colors) == multiset(Tallied(ColorsOfType(TypeColorPairs(visible), l.typeId)))
              && SortedBy(l.colors, ByQtyDesc)
              && l.total == Count(TypeKeys(visible), l.typeId)
    {
      assert l in multiset(rows);
      var i :| 0 <= i < |rows| && rows[i] == l;
      TotalRowCounts(visible, i);
    }
    forall t | t in TypeKeys(visible)
      ensures exists l :: l in sorted && l.typeId == t
    {
      var i := NestedIndexOfType(visible, t);
      assert rows[i].typeId == t;
      assert rows[i] in multiset(sorted);
    }
  }

  /** Row i of the summary's per-type colour rows, before sorting, counts the nodes of its type. */
  lemma {:induction false} TotalRowCounts(visible: seq<Node>, i: nat)
    requires i < |NestedTallied(TypeColorPairs(visible))|
    ensures var pairs := TypeColorPairs(visible);
            var l := TotalLines(NestedTallied(pairs))[i];
            && l.typeId in TypeKeys(visible)
            && multiset(l.colors) == multiset(Tallied(ColorsOfType(pairs, l.typeId)))
            && SortedBy(l.colors, ByQtyDesc)
            && l.total == Count(TypeKeys(visible), l.typeId)
  {
    var pairs := TypeColorPairs(visible);
    var m := NestedTallied(pairs);
    assert Firsts(pairs) == TypeKeys(visible);
    NestedTypesFollowTypeTally(pairs);
    EntryTypeColors(m, i);
    NestedColorsAreTallies(pairs, m[i].typeId);
    assert m[i].typeId in Keys(Tallied(TypeKeys(visible)));
    NestedCountIsTypeCount(pairs, m[i].typeId);
    SumQtyPermutation(m[i].colors, Tallied(ColorsOfType(pairs, m[i].typeId)));
  }

  /** The counting loop shared by `computeMaterials` and `materialsSummary`. */
  method CountNodes(nodes: seq<Node>) returns (counts: Counts)
    ensures counts == CountsOf(nodes)
  {
    counts := Counts([], [], []);
    var i := 0;
    while i < |nodes|
      invariant 0 <= i <= |nodes|
      invariant counts == CountsOf(nodes[..i])
    {
      var n := nodes[i];
      CountsStep(nodes, i);
      counts := Counts(
        Bump(counts.byColor, ColorKey(n)),
        Bump(counts.byType, TypeKey(n)),
        NestedBump(counts.byTypeColor, TypeKey(n), ColorKey(n)));
      i := i + 1;
    }
    assert nodes[..i] == nodes;
  }

  /** Counting one more node bumps each of the three maps once. */
  lemma {:induction false} CountsStep(nodes: seq<Node>, i: nat)
    requires i < |nodes|
    ensures var c := CountsOf(nodes[..i]);
            var n := nodes[i];
            CountsOf(nodes[..i + 1]) ==
              Counts(Bump(c.byColor, ColorKey(n)), Bump(c.byType, TypeKey(n)), NestedBump(c.byTypeColor, TypeKey(n), ColorKey(n)))
  {
    var n := nodes[i];
    var pre := nodes[..i];
    var next := nodes[..i + 1];
    assert ColorKeys(next) == ColorKeys(pre) + [ColorKey(n)];
    assert ColorKeys(next)[..i] == ColorKeys(pre);
    assert TypeKeys(next) == TypeKeys(pre) + [TypeKey(n)];
    assert TypeKeys(next)[..i] == TypeKeys(pre);
    assert TypeColorPairs(next) == TypeColorPairs(pre) + [(TypeKey(n), ColorKey(n))];
    assert TypeColorPairs(next)[..i] == TypeColorPairs(pre);
  }

  /** The pricing pass: each type count becomes a row, and the positive subtotals are summed on the way. */
  method PriceTypes(types: seq<BalloonType>, byType: seq<Tally>) returns (lines: seq<TypeLine>, estimated: real)
    ensures lines == Lines(types, byType)
    ensures estimated == SumSubtotal(lines) && estimated == CostOfTally(types, byType)
  {
    lines := [];
    estimated := 0.0;
    var i := 0;
    while i < |byType|
      invariant 0 <= i <= |byType|
      invariant lines == Lines(types, byType[..i])
      invariant estimated == SumSubtotal(lines)
    {
      var line := LineFor(types, byType[i]);
      SubtotalAppend(lines, line);
      LinesAppend(types, byType[..i], byType[i]);
      assert byType[..i + 1] == byType[..i] + [byType[i]];
      lines := lines + [line];
      estimated := estimated + line.subtotal;
      i := i + 1;
    }
    assert byType[..i] == byType;
  }

  lemma {:induction false} SubtotalAppend(lines: seq<TypeLine>, l: TypeLine)
    ensures SumSubtotal(lines + [l]) == SumSubtotal(lines) + l.subtotal
    decreases |lines|
  {
    if |lines| == 0 {
      assert [l][1..] == [];
    } else {
      assert (lines + [l])[1..] == lines[1..] + [l];
      SubtotalAppend(lines[1..], l);
    }
  }

  lemma {:induction false} LinesAppend(types: seq<BalloonType>, ts: seq<Tally>, t: Tally)
    ensures Lines(types, ts + [t]) == Lines(types, ts) + [LineFor(types, t)]
    decreases |ts|
  {
    if |ts| == 0 {
      assert [t][1..] == [];
    } else {
      assert (ts + [t])[1..] == ts[1..] + [t];
      LinesAppend(types, ts[1..], t);
    }
  }

  /**
   * `computeMaterials({ includeHidden, includeLocked, catalogTypes })` over the store's nodes:
   * filter, count in one pass, price the type counts in a second, then sort each list by
   * quantity, largest first. The estimate is reported only when some type has a price.
   */
  method ComputeMaterials(nodes: seq<Node>, includeHidden: bool, includeLocked: bool, types: seq<BalloonType>)
    returns (b: Bill)
    ensures b == BillOf(nodes, includeHidden, includeLocked, types)
  {
    var counted := Counted(nodes, includeHidden, includeLocked);
    var counts := CountNodes(counted);
    var lines, estimated := PriceTypes(types, counts.byType);
    var hasCosts := AnyPriced(lines);
    b := Bill(
      includeHidden, includeLocked, |counted|,
      StableSort(counts.byColor, ByQtyDesc),
      StableSort(lines, LineByQtyDesc),
      StableSort(ColorLines(types, counts.byTypeColor), ColorLineByQtyDesc),
      hasCosts,
      if hasCosts then estimated else 0.0);
  }

  /** The `materialsSummary` getter over the store's nodes: the visible ones, counted in one pass. */
  method MaterialsSummary(nodes: seq<Node>) returns (r: Summary)
    ensures r == SummaryOf(nodes)
  {
    var visible := VisibleNodes(nodes);
    var counts := CountNodes(visible);
    r := Summary(
      |visible|,
      StableSort(counts.byColor, ByQtyDesc),
      StableSort(counts.byType, ByQtyDesc),
      StableSort(TotalLines(counts.byTypeColor), TotalByDesc));
  }
}
