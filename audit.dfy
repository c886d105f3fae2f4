/**
 * The dependency audit: scan every non-primitive collection, resolve and
 * classify the chain of each of its variables, push the chains longer than
 * one element into their buckets, sort every bucket, and render the report
 * with its total. The scan, the sort and the rendering are loops over local
 * state, proved against specification functions over the snapshot.
 */
module Audit {
  import opened Strings
  import opened Store
  import opened Layers
  import opened Chain
  import opened Patterns

  const Arrow: string := " \U{2192} "
  const Header: string := "=== Variable Dependency Audit (primitive first) ===\n\n"

  /** The keys of `groups`. */
  const BucketSet: set<Bucket> := {Group(1), Group(2), Group(3), Group(4), Group(5), Group(6), Group(7), Group(8), Other}

  /** A key of the `groups` table. */
  predicate IsBucket(b: Bucket) {
    b in BucketSet
  }

  /** One bucketed chain: its bucket and its line. */
  datatype Entry = Entry(bucket: Bucket, line: string)

  /** What the scan pushes for one variable id: nothing when the variable is
      absent or its chain has a single element, which happens exactly unless
      it is an alias whose target is in the store. */
  function EntryFor(s: Snapshot, id: Id): (r: seq<Entry>)
    ensures |r| <= 1
    ensures r != [] <==> id in s.variables && s.variables[id].value.Alias?
                         && s.variables[id].value.target in s.variables
    ensures r != [] ==> IsBucket(r[0].bucket) && r[0].bucket != Group(5)
  {
    match GetVariableById(s, id)
    case None => []
    case Some(v) =>
      var chain := ResolveChain(s, Some(v), {});
      ChainLongIffAliasFound(s, v, {});
      if |chain| > 1 then [Entry(Classify(chain), Join(chain, Arrow))] else []
  }

  /** The entries of the first `n` variable ids of a list, in list order. */
  function IdEntries(s: Snapshot, ids: seq<Id>, n: nat): seq<Entry>
    requires n <= |ids|
  {
    if n == 0 then [] else IdEntries(s, ids, n - 1) + EntryFor(s, ids[n - 1])
  }

  /** A primitive collection is never a starting point. */
  function CollectionEntries(s: Snapshot, c: Collection): seq<Entry> {
    if GetLayer(c.name) == 1 then [] else IdEntries(s, c.variableIds, |c.variableIds|)
  }

  /** The entries of the first `n` collections, in collection order. */
  function Entries(s: Snapshot, cols: seq<Collection>, n: nat): seq<Entry>
    requires n <= |cols|
  {
    if n == 0 then [] else Entries(s, cols, n - 1) + CollectionEntries(s, cols[n - 1])
  }

  /** Every entry of the scan, in scan order. */
  function AllEntries(s: Snapshot): seq<Entry> {
    Entries(s, s.collections, |s.collections|)
  }

  /** The lines of the entries in bucket `b`, in scan order. */
  function BucketLines(es: seq<Entry>, b: Bucket): seq<string>
    decreases |es|
  {
    if es == [] then []
    else BucketLines(es[..|es| - 1], b) + (if es[|es| - 1].bucket == b then [es[|es| - 1].line] else [])
  }

  lemma BucketLinesAppend(es: seq<Entry>, more: seq<Entry>, b: Bucket)
    requires |more| <= 1
    ensures BucketLines(es + more, b) ==
              BucketLines(es, b) + (if more != [] && more[0].bucket == b then [more[0].line] else [])
  {
    if more != [] {
      assert (es + more)[..|es + more| - 1] == es;
    } else {
      assert es + more == es;
    }
  }

  /** The table the scan builds from the entries `es`: each bucket holding
      its lines in scan order. */
  function Table(es: seq<Entry>): (t: map<Bucket, seq<string>>)
    ensures forall b :: b in t <==> IsBucket(b)
  {
    map b | b in BucketSet :: BucketLines(es, b)
  }

  /** The table before the scan: every bucket present and empty. */
  lemma EmptyTable()
    ensures Table([]) == map[Group(1) := [], Group(2) := [], Group(3) := [], Group(4) := [], Group(5) := [],
                             Group(6) := [], Group(7) := [], Group(8) := [], Other := []]
  {
  }

  /** `groups[bucket].push(line)` for the entry in `more`, if any. */
  function Pushed(groups: map<Bucket, seq<string>>, more: seq<Entry>): map<Bucket, seq<string>>
    requires more != [] ==> more[0].bucket in groups
  {
    if more == [] then groups
    else groups[more[0].bucket := groups[more[0].bucket] + [more[0].line]]
  }

  /** Pushing the next entry keeps the table in step with the scan. */
  lemma TablePushed(es: seq<Entry>, more: seq<Entry>)
    requires |more| <= 1
    requires more != [] ==> IsBucket(more[0].bucket)
    ensures Table(es + more) == Pushed(Table(es), more)
  {
    forall b | IsBucket(b)
      ensures Table(es + more)[b] == Pushed(Table(es), more)[b]
    {
      BucketLinesAppend(es, more, b);
    }
  }

  /** The body of the inner loop, lines 80-88: look the variable up, skip
      it when absent, resolve its chain from an empty visited set, and push
      the joined chain into its bucket when it has more than one element. */
  method ScanVariable(s: Snapshot, id: Id, groups: map<Bucket, seq<string>>)
    returns (out: map<Bucket, seq<string>>)
    requires forall b :: IsBucket(b) ==> b in groups
    ensures out == Pushed(groups, EntryFor(s, id))
  {
    out := groups;
    var v := GetVariableById(s, id);
    if v.Some? {
      var chain := ResolveChain(s, v, {});
      if |chain| > 1 {
        var line := Join(chain, Arrow);
        var bucket := Classify(chain);
        out := out[bucket := out[bucket] + [line]];
      }
    }
  }

  /** Scanning the id at position `j` pushes its entry onto the table of the
      ids before it. */
  lemma IdTableStep(s: Snapshot, ids: seq<Id>, j: nat, done: seq<Entry>)
    requires j < |ids|
    ensures Table(done + IdEntries(s, ids, j + 1)) == Pushed(Table(done + IdEntries(s, ids, j)), EntryFor(s, ids[j]))
  {
    var more := EntryFor(s, ids[j]);
    assert IdEntries(s, ids, j + 1) == IdEntries(s, ids, j) + more;
    assert (done + IdEntries(s, ids, j)) + more == done + (IdEntries(s, ids, j) + more);
    TablePushed(done + IdEntries(s, ids, j), more);
  }

  /** The inner loop of lines 79-89 over one collection's variable ids:
      each chain longer than one element goes into its bucket, in id order. */
  method ScanCollection(s: Snapshot, coll: Collection, groups: map<Bucket, seq<string>>, ghost done: seq<Entry>)
    returns (out: map<Bucket, seq<string>>)
    requires groups == Table(done)
    ensures out == Table(done + IdEntries(s, coll.variableIds, |coll.variableIds|))
  {
    out := groups;
    var ids := coll.variableIds;
    assert done + IdEntries(s, ids, 0) == done;
    var j := 0;
    while j < |ids|
      invariant 0 <= j <= |ids|
      invariant out == Table(done + IdEntries(s, ids, j))
    {
      IdTableStep(s, ids, j, done);
      out := ScanVariable(s, ids[j], out);
      j := j + 1;
    }
  }

  /** One pass of the outer loop, lines 77-89: a primitive collection is
      skipped, any other has its variables scanned. */
  method ScanIfNotPrimitive(s: Snapshot, coll: Collection, groups: map<Bucket, seq<string>>, ghost done: seq<Entry>)
    returns (out: map<Bucket, seq<string>>)
    requires groups == Table(done)
    ensures out == Table(done + CollectionEntries(s, coll))
  {
    if GetLayer(coll.name) == 1 {
      out := groups;
      assert done + [] == done;
    } else {
      out := ScanCollection(s, coll, groups, done);
    }
  }

  /** The loop of lines 76-90: every chain longer than one element of a
      variable in a non-primitive collection, pushed into its bucket. */
  method CollectChains(s: Snapshot) returns (groups: map<Bucket, seq<string>>)
    ensures groups == Table(AllEntries(s))
  {
    groups := map[Group(1) := [], Group(2) := [], Group(3) := [], Group(4) := [], Group(5) := [],
                  Group(6) := [], Group(7) := [], Group(8) := [], Other := []];
    EmptyTable();
    var cols := s.collections;
    var ci := 0;
    assert Entries(s, cols, 0) == [];
    while ci < |cols|
      invariant 0 <= ci <= |cols|
      invariant groups == Table(Entries(s, cols, ci))
    {
      assert Entries(s, cols, ci + 1) == Entries(s, cols, ci) + CollectionEntries(s, cols[ci]);
      groups := ScanIfNotPrimitive(s, cols[ci], groups, Entries(s, cols, ci));
      ci := ci + 1;
    }
  }
}
