/** An already-parsed JSON document, and the way the typed records bind
    their members: a missing member leaves the property at its default
    (null, or 0 for a number), JSON null gives null to a reference or
    nullable property, and a value of the wrong kind makes the whole
    deserialisation throw. Member names are matched exactly. */
module JsonValues {
  import opened Wrappers
  import opened Numeric

  datatype Json =
    | JNull
    | JBool(b: bool)
    | JNumber(n: real)
    | JString(s: string)
    | JArray(items: seq<Json>)
    | JObject(members: map<string, Json>)

  type Members = map<string, Json>

  /** The member is present and not JSON null. */
  predicate HasValue(m: Members, key: string) {
    key in m && !m[key].JNull?
  }

  /** A number that a 32-bit int property accepts: whole and in range. */
  predicate IsInt32Number(x: real) {
    x.Floor as real == x && InInt32Range(x.Floor)
  }

  /** v is what a `string` property holds after binding member key: null
      when the member is missing or null, otherwise the member's text. */
  predicate StringBinds(m: Members, key: string, v: Nullable<string>) {
    && (v.NonNull? <==> HasValue(m, key))
    && (v.NonNull? ==> m[key] == JString(v.value))
  }

  /** v is what an `int` property holds after binding member key: 0 when
      the member is missing, otherwise the member's number. */
  predicate IntBinds(m: Members, key: string, v: int32) {
    if key in m then m[key] == JNumber(v as real) else v == 0
  }

  /** v is what a `double` property holds after binding member key: 0 when
      the member is missing, otherwise the member's number. */
  predicate DoubleBinds(m: Members, key: string, v: real) {
    if key in m then m[key] == JNumber(v) else v == 0.0
  }

  /** The document a typed record is read from: deserialising the JSON
      literal null yields a null record, whose first use throws; any other
      non-object is refused by the deserialiser. */
  function AsObject(j: Json): (r: Result<Members>)
    ensures r.Success? <==> j.JObject?
    ensures r.Success? ==> r.value == j.members
    ensures j.JNull? ==> r == Failure(NullReference)
  {
    match j
    case JObject(m) => Success(m)
    case JNull => Failure(NullReference)
    case _ => Failure(NotAnObject)
  }

  /** A `string` property. */
  function ReadString(m: Members, key: string): (r: Result<Nullable<string>>)
    ensures r.Success? <==> !HasValue(m, key) || m[key].JString?
    ensures r.Success? ==> (r.value.NonNull? <==> HasValue(m, key))
    ensures r.Success? && r.value.NonNull? ==> m[key] == JString(r.value.value)
    ensures r.Success? ==> StringBinds(m, key, r.value)
    ensures r.Failure? ==> r.error == SchemaMismatch(key)
  {
    if !HasValue(m, key) then Success(Null)
    else if m[key].JString? then Success(NonNull(m[key].s))
    else Failure(SchemaMismatch(key))
  }

  /** An `int` property: 0 when missing; JSON null does not fit an int. */
  function ReadInt32(m: Members, key: string): (r: Result<int32>)
    ensures r.Success? <==> key !in m || (m[key].JNumber? && IsInt32Number(m[key].n))
    ensures r.Success? && key !in m ==> r.value == 0
    ensures r.Success? && key in m ==> r.value as real == m[key].n
    ensures r.Success? ==> IntBinds(m, key, r.value)
    ensures r.Failure? ==> r.error == SchemaMismatch(key)
  {
    if key !in m then Success(0)
    else if m[key].JNumber? && IsInt32Number(m[key].n) then Success(m[key].n.Floor as int32)
    else Failure(SchemaMismatch(key))
  }

  /** A `double` property: 0 when missing. */
  function ReadDouble(m: Members, key: string): (r: Result<real>)
    ensures r.Success? <==> key !in m || m[key].JNumber?
    ensures r.Success? ==> r.value == if key in m then m[key].n else 0.0
    ensures r.Success? ==> DoubleBinds(m, key, r.value)
    ensures r.Failure? ==> r.error == SchemaMismatch(key)
  {
    if key !in m then Success(0.0)
    else if m[key].JNumber? then Success(m[key].n)
    else Failure(SchemaMismatch(key))
  }

  /** One element of a `List<int>`. */
  function Int32Item(key: string): Json -> Result<int32> {
    (j: Json) =>
      if j.JNumber? && IsInt32Number(j.n) then Success(j.n.Floor as int32)
      else Failure(SchemaMismatch(key))
  }

  /** A `List<int>` property: null when missing or null. */
  function ReadInt32List(m: Members, key: string): (r: Result<Nullable<seq<int32>>>)
    ensures r.Success? <==>
      !HasValue(m, key) ||
      (m[key].JArray? && forall i :: 0 <= i < |m[key].items| ==> Int32Item(key)(m[key].items[i]).Success?)
    ensures r.Success? ==> (r.value.NonNull? <==> HasValue(m, key))
    ensures r.Success? && r.value.NonNull? ==>
      && |r.value.value| == |m[key].items|
      && forall i :: 0 <= i < |m[key].items| ==> r.value.value[i] as real == m[key].items[i].n
  {
    if !HasValue(m, key) then Success(Null)
    else if m[key].JArray? then
      var xs :- MapAll(m[key].items, Int32Item(key));
      Success(NonNull(xs))
    else Failure(SchemaMismatch(key))
  }

  /** One element of a `List<double?>`. */
  function NumberCell(key: string): Json -> Result<Nullable<real>> {
    (j: Json) =>
      match j
      case JNull => Success(Null)
      case JNumber(x) => Success(NonNull(x))
      case _ => Failure(SchemaMismatch(key))
  }

  /** One element of a `List<List<double?>>`. */
  function NumberRow(key: string): Json -> Result<Nullable<seq<Nullable<real>>>> {
    (j: Json) =>
      match j
      case JNull => Success(Null)
      case JArray(cells) =>
        (var r := MapAll(cells, NumberCell(key));
         if r.Success? then Success(NonNull(r.value)) else Failure(r.error))
      case _ => Failure(SchemaMismatch(key))
  }

  /** A `List<List<double?>>` property: null when missing or null. */
  function ReadNumberRows(m: Members, key: string): (r: Result<Nullable<seq<Nullable<seq<Nullable<real>>>>>>)
    ensures r.Success? <==>
      !HasValue(m, key) ||
      (m[key].JArray? && forall i :: 0 <= i < |m[key].items| ==> NumberRow(key)(m[key].items[i]).Success?)
    ensures r.Success? ==> (r.value.NonNull? <==> HasValue(m, key))
    ensures r.Success? && r.value.NonNull? ==>
      && |r.value.value| == |m[key].items|
      && forall i :: 0 <= i < |m[key].items| ==> r.value.value[i] == NumberRow(key)(m[key].items[i]).value
  {
    if !HasValue(m, key) then Success(Null)
    else if m[key].JArray? then
      var rows :- MapAll(m[key].items, NumberRow(key));
      Success(NonNull(rows))
    else Failure(SchemaMismatch(key))
  }

  /** A row of the feed, JSON numbers and nulls, binds to exactly those
      nullable numbers. */
  lemma NumberRowOfCells(key: string, cells: seq<Json>)
    requires forall i :: 0 <= i < |cells| ==> cells[i].JNull? || cells[i].JNumber?
    ensures NumberRow(key)(JArray(cells)).Success?
    ensures var row := NumberRow(key)(JArray(cells)).value;
      && row.NonNull? && |row.value| == |cells|
      && forall i :: 0 <= i < |cells| ==>
           row.value[i] == (if cells[i].JNull? then Null else NonNull(cells[i].n))
  {
  }
}
