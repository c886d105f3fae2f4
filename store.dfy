/**
 * An in-memory snapshot of the design tool's variable store: the ordered
 * local collections and the variable-by-id lookup that both audit scripts
 * read. A variable holds the value of its first mode only.
 */
module Store {

  type Id = string

  datatype Option<T> = None | Some(value: T)

  /** The first mode's value: a literal, or an alias naming another variable. */
  datatype Value = Literal | Alias(target: Id)

  datatype Variable = Variable(id: Id, name: string, collectionId: Id, value: Value)

  datatype Collection = Collection(id: Id, name: string, variableIds: seq<Id>)

  datatype Snapshot = Snapshot(collections: seq<Collection>, variables: map<Id, Variable>)

  /** `getVariableById`: the variable stored under `id`, if any. */
  function GetVariableById(s: Snapshot, id: Id): (r: Option<Variable>)
    ensures r.Some? <==> id in s.variables
    ensures r.Some? ==> r.value in s.variables.Values
    ensures r.Some? ==> r.value == s.variables[id]
  {
    if id in s.variables then Some(s.variables[id]) else None
  }

  /** The ids carried by the stored variables: the only ids a walk can visit. */
  function AllIds(s: Snapshot): set<Id> {
    set v | v in s.variables.Values :: v.id
  }

  /** The name under which `collectionById[cid]` is found; the table is filled
      in collection order, so the last collection with that id wins, and an
      id with no collection reads as "Unknown". */
  function CollectionName(cols: seq<Collection>, cid: Id): (r: string)
    ensures (forall i :: 0 <= i < |cols| ==> cols[i].id != cid) ==> r == "Unknown"
    ensures forall i :: 0 <= i < |cols| && cols[i].id == cid && IdAbsentAfter(cols, cid, i) ==> r == cols[i].name
  {
    if cols == [] then "Unknown"
    else if cols[|cols| - 1].id == cid then cols[|cols| - 1].name
    else
      var init := cols[..|cols| - 1];
      assert forall i :: 0 <= i < |init| ==> init[i] == cols[i];
      assert forall i :: 0 <= i < |init| && IdAbsentAfter(cols, cid, i) ==> IdAbsentAfter(init, cid, i);
      CollectionName(init, cid)
  }

  /** No collection after position `i` has id `cid`. */
  predicate IdAbsentAfter(cols: seq<Collection>, cid: Id, i: int) {
    forall j :: 0 <= j < |cols| && i < j ==> cols[j].id != cid
  }

  /** `${collection.name}/${variable.name}`. */
  function FullPath(s: Snapshot, v: Variable): (r: string)
    ensures '/' in r
  {
    var r := CollectionName(s.collections, v.collectionId) + "/" + v.name;
    assert r[|CollectionName(s.collections, v.collectionId)|] == '/';
    r
  }
}
