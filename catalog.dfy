/**
 * The balloon-type catalog store: a table of balloon types loaded from storage with a
 * fallback to the built-in defaults, a validated cost update and a reset. Storage is the
 * `storage` field: what `localStorage.getItem` would return and how `JSON.parse` would
 * read it.
 */
module Catalog {
  import opened Common

  /** The `default` shape parameters of a type. */
  datatype TypeDefault = TypeDefault(radiusX: real, radiusY: real, knot: bool, shape: Option<string>)

  /** One catalog entry `{ id, name, family, sizeIn, cost, default }`. */
  datatype BalloonType = BalloonType(
    id: string,
    name: string,
    family: string,
    sizeIn: Option<nat>,
    cost: real,
    defaults: TypeDefault)

  /** `defaultTypes` */
  function DefaultTypes(): seq<BalloonType>
  {
    [ BalloonType("round-5", "R5 Redondo", "Redondo", Some(5), 3.0, TypeDefault(26.0, 32.0, true, None)),
      BalloonType("round-9", "R9 Redondo", "Redondo", Some(9), 5.0, TypeDefault(40.0, 52.0, true, None)),
      BalloonType("round-11", "R11 Redondo", "Redondo", Some(11), 7.0, TypeDefault(46.0, 60.0, true, None)),
      BalloonType("round-16", "R16 Redondo", "Redondo", Some(16), 12.0, TypeDefault(62.0, 82.0, true, None)),
      BalloonType("260", "260 (modelado)", "Modelado", None, 6.0, TypeDefault(18.0, 90.0, false, None)),
      BalloonType("160", "160 (modelado)", "Modelado", None, 5.0, TypeDefault(14.0, 70.0, false, None)),
      BalloonType("link-12", "Link 12\"", "Link", Some(12), 9.0, TypeDefault(46.0, 60.0, true, None)),
      BalloonType("heart-11", "Corazón 11\"", "Figura", Some(11), 10.0, TypeDefault(52.0, 52.0, true, Some("heart")))
    ]
  }

  /** How `JSON.parse` reads the stored text: it throws, or yields a non-array, or an array of types. */
  datatype Parsed = Malformed | NonArray | ArrayOf(types: seq<BalloonType>)

  /** The stored value: nothing (`null`), the empty string, or some text. */
  datatype Stored = Absent | EmptyText | Text(parsed: Parsed)

  /** `persist`: the table written as JSON, which parses back to the same array. */
  function Serialized(types: seq<BalloonType>): Stored
  {
    Text(ArrayOf(types))
  }

  /** The table `init` ends with: a stored array when the text parses to one, the defaults in every other case. */
  function Loaded(s: Stored): (r: seq<BalloonType>)
    ensures s.Text? && s.parsed.ArrayOf? ==> r == s.parsed.types
    ensures !(s.Text? && s.parsed.ArrayOf?) ==> r == DefaultTypes()
  {
    match s
    case Text(ArrayOf(types)) => types
    case _ => DefaultTypes()
  }

  /** `init` writes the defaults back only when nothing usable was stored (`!raw`). */
  predicate WritesBackOnInit(s: Stored)
  {
    s.Absent? || s.EmptyText?
  }

  /** What `persist` followed by `init` reads is what was persisted. */
  lemma {:induction false} PersistedTableReloads(types: seq<BalloonType>)
    ensures Loaded(Serialized(types)) == types && !WritesBackOnInit(Serialized(types))
  {
  }

  /** `Number.isFinite(cost) && cost >= 0 ? cost : 0` */
  function ValidCost(c: JsNumber): (r: real)
    ensures r >= 0.0
    ensures c.Finite? && c.value >= 0.0 ==> r == c.value
    ensures !(c.Finite? && c.value >= 0.0) ==> r == 0.0
  {
    if c.Finite? && c.value >= 0.0 then c.value else 0.0
  }

  /** `types.find(x => x.id === typeId)`, as a position. */
  function FindType(types: seq<BalloonType>, typeId: string): (r: Option<nat>)
    ensures r.Some? ==> r.value < |types| && types[r.value].id == typeId
    ensures r.Some? ==> forall j :: 0 <= j < r.value ==> types[j].id != typeId
    ensures r.None? ==> forall j :: 0 <= j < |types| ==> types[j].id != typeId
  {
    if |types| == 0 then None
    else if types[0].id == typeId then Some(0)
    else
      var r := FindType(types[1..], typeId);
      if r.None? then None else Some(r.value + 1)
  }

  /**
   * `updateTypeCost(typeId, newCost)` on the table: an unknown id changes nothing; otherwise
   * the first entry with that id gets the validated cost, and nothing else changes.
   */
  function CostUpdated(types: seq<BalloonType>, typeId: string, newCost: JsNumber): (r: seq<BalloonType>)
    ensures (forall j :: 0 <= j < |types| ==> types[j].id != typeId) ==> r == types
    ensures |r| == |types|
    ensures forall j :: 0 <= j < |types| ==> r[j] == types[j].(cost := r[j].cost)
    ensures forall j :: 0 <= j < |types| && r[j].cost != types[j].cost ==> types[j].id == typeId
    ensures FindType(types, typeId).Some? ==> r[FindType(types, typeId).value].cost == ValidCost(newCost)
  {
    match FindType(types, typeId)
    case None => types
    case Some(k) => types[k := types[k].(cost := ValidCost(newCost))]
  }

  /** Finding by id depends only on the ids. */
  lemma {:induction false} FindTypeByIds(a: seq<BalloonType>, b: seq<BalloonType>, typeId: string)
    requires |a| == |b| && forall j :: 0 <= j < |a| ==> a[j].id == b[j].id
    ensures FindType(a, typeId) == FindType(b, typeId)
    decreases |a|
  {
    if |a| > 0 && a[0].id != typeId {
      FindTypeByIds(a[1..], b[1..], typeId);
    }
  }

  /** Setting the same cost twice is the same as setting it once. */
  lemma {:induction false} CostUpdateIdempotent(types: seq<BalloonType>, typeId: string, newCost: JsNumber)
    ensures CostUpdated(CostUpdated(types, typeId, newCost), typeId, newCost) == CostUpdated(types, typeId, newCost)
  {
    var once := CostUpdated(types, typeId, newCost);
    FindTypeByIds(types, once, typeId);
  }

  /** The built-in table has distinct ids and non-negative costs. */
  lemma {:induction false} DefaultTypesWellFormed()
    ensures var d := DefaultTypes();
            (forall i, j :: 0 <= i < j < |d| ==> d[i].id != d[j].id) && forall t :: t in d ==> t.cost >= 0.0
  {
  }

  class CatalogStore {
    var types: seq<BalloonType>
    var storage: Stored

    /** The store starts with an empty table; `storage` is whatever is stored under the catalog key. */
    constructor(stored: Stored)
      ensures types == [] && storage == stored
    {
      types := [];
      storage := stored;
    }

    /** `persist` */
    method Persist()
      modifies this`storage
      ensures storage == Serialized(types)
    {
      storage := Serialized(types);
    }

    /** `init`: load the stored array, or fall back to the defaults (and write them back when nothing was stored). */
    method Init()
      modifies this
      ensures types == Loaded(old(storage))
      ensures storage == if WritesBackOnInit(old(storage)) then Serialized(DefaultTypes()) else old(storage)
    {
      match storage
      case Absent =>
        types := DefaultTypes();
        Persist();
      case EmptyText =>
        types := DefaultTypes();
        Persist();
      case Text(parsed) =>
        if parsed.ArrayOf? {
          types := parsed.types;
        } else {
          types := DefaultTypes();
        }
    }

    /** `updateTypeCost`: the first matching entry gets the validated cost and the table is persisted; an unknown id does nothing. */
    method UpdateTypeCost(typeId: string, newCost: JsNumber)
      modifies this
      ensures types == CostUpdated(old(types), typeId, newCost)
      ensures storage == if FindType(old(types), typeId).Some? then Serialized(types) else old(storage)
    {
      var k := FindType(types, typeId);
      if k.None? {
        return;
      }
      var t := types[k.value];
      types := types[k.value := t.(cost := ValidCost(newCost))];
      Persist();
    }

    /** `resetToDefaults` */
    method ResetToDefaults()
      modifies this
      ensures types == DefaultTypes() && storage == Serialized(DefaultTypes())
    {
      types := DefaultTypes();
      Persist();
    }
  }
}
