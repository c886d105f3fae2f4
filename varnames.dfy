/**
 * The name listing: every variable a local collection lists, in collection
 * order and then in the collection's own id order, as
 * `<collection name>/<variable name>`, joined one per line, with the number
 * of lines as its total.
 */
module VarNames {
  import opened Strings
  import opened Store

  /** `prefix + variable.name` where `prefix` is the listing collection's
      name followed by "/". */
  function NameLine(c: Collection, v: Variable): string {
    c.name + "/" + v.name
  }

  /** The lines of the first `n` ids of collection `c`; an id with no
      variable in the store gives no line. */
  function IdNameLines(s: Snapshot, c: Collection, n: nat): seq<string>
    requires n <= |c.variableIds|
  {
    if n == 0 then []
    else
      var id := c.variableIds[n - 1];
      IdNameLines(s, c, n - 1) + (if id in s.variables then [NameLine(c, s.variables[id])] else [])
  }

  /** The lines of the first `n` collections. */
  function NameLines(s: Snapshot, cols: seq<Collection>, n: nat): seq<string>
    requires n <= |cols|
  {
    if n == 0 then [] else NameLines(s, cols, n - 1) + IdNameLines(s, cols[n - 1], |cols[n - 1].variableIds|)
  }

  /** Every line of the listing. */
  function AllNameLines(s: Snapshot): seq<string> {
    NameLines(s, s.collections, |s.collections|)
  }

  /** The outcome of a run: the early exit when the file has no local
      collection, or the joined listing and the total printed under it. */
  datatype Listing = NoCollections | Printed(output: string, total: nat)

  /** Lines 11-40: collects the lines collection by collection and id by id,
      then joins them with newlines; the total is the number of lines. */
  method ListVariableNames(s: Snapshot) returns (r: Listing)
    ensures s.collections == [] <==> r == NoCollections
    ensures r.Printed? ==> r.output == Join(AllNameLines(s), "\n") && r.total == |AllNameLines(s)|
  {
    if |s.collections| == 0 {
      return NoCollections;
    }
    var resultLines: seq<string> := [];
    var cols := s.collections;
    var ci := 0;
    while ci < |cols|
      invariant 0 <= ci <= |cols|
      invariant resultLines == NameLines(s, cols, ci)
    {
      resultLines := ListCollection(s, cols[ci], resultLines);
      ci := ci + 1;
    }
    var output := Join(resultLines, "\n");
    return Printed(output, |resultLines|);
  }

  /** Lines 22-33 for one collection: appends one line per listed id that
      names a variable of the store, in id order. */
  method ListCollection(s: Snapshot, collection: Collection, lines: seq<string>) returns (out: seq<string>)
    ensures out == lines + IdNameLines(s, collection, |collection.variableIds|)
  {
    out := lines;
    var prefix := collection.name + "/";
    var ids := collection.variableIds;
    var j := 0;
    while j < |ids|
      invariant 0 <= j <= |ids|
      invariant out == lines + IdNameLines(s, collection, j)
    {
      var variable := GetVariableById(s, ids[j]);
      if variable.Some? {
        out := out + [prefix + variable.value.name];
        assert IdNameLines(s, collection, j + 1) == IdNameLines(s, collection, j) + [prefix + variable.value.name];
      } else {
        assert IdNameLines(s, collection, j + 1) == IdNameLines(s, collection, j) + [];
      }
      j := j + 1;
    }
  }

  /** How many of the first `n` ids of `c` name a variable of the store. */
  function PresentCount(s: Snapshot, c: Collection, n: nat): nat
    requires n <= |c.variableIds|
  {
    if n == 0 then 0 else PresentCount(s, c, n - 1) + (if c.variableIds[n - 1] in s.variables then 1 else 0)
  }

  /** How many ids the first `n` collections list, counted once per listing. */
  function ListedCount(cols: seq<Collection>, n: nat): nat
    requires n <= |cols|
  {
    if n == 0 then 0 else ListedCount(cols, n - 1) + |cols[n - 1].variableIds|
  }

  /** How many of those listings name a variable of the store. */
  function PresentInCollections(s: Snapshot, cols: seq<Collection>, n: nat): nat
    requires n <= |cols|
  {
    if n == 0 then 0
    else PresentInCollections(s, cols, n - 1) + PresentCount(s, cols[n - 1], |cols[n - 1].variableIds|)
  }

  lemma {:induction false} IdNameLinesCount(s: Snapshot, c: Collection, n: nat)
    requires n <= |c.variableIds|
    ensures |IdNameLines(s, c, n)| == PresentCount(s, c, n) <= n
  {
    if n > 0 {
      IdNameLinesCount(s, c, n - 1);
    }
  }

  lemma {:induction false} NameLinesCount(s: Snapshot, cols: seq<Collection>, n: nat)
    requires n <= |cols|
    ensures |NameLines(s, cols, n)| == PresentInCollections(s, cols, n) <= ListedCount(cols, n)
  {
    if n > 0 {
      NameLinesCount(s, cols, n - 1);
      IdNameLinesCount(s, cols[n - 1], |cols[n - 1].variableIds|);
    }
  }

  /** The printed total is the number of listed ids that name a variable of
      the store, and never more than the number of listed ids. */
  lemma TotalCountsPresentVariables(s: Snapshot)
    ensures |AllNameLines(s)| == PresentInCollections(s, s.collections, |s.collections|)
    ensures |AllNameLines(s)| <= ListedCount(s.collections, |s.collections|)
  {
    NameLinesCount(s, s.collections, |s.collections|);
  }

  /** `line` is the line of a variable of the store listed by a collection
      of the snapshot. */
  ghost predicate Listed(s: Snapshot, line: string) {
    exists c, id :: c in s.collections && id in c.variableIds && id in s.variables &&
                    line == NameLine(c, s.variables[id])
  }

  lemma {:induction false} IdNameLinesListed(s: Snapshot, c: Collection, n: nat)
    requires c in s.collections && n <= |c.variableIds|
    ensures forall k :: 0 <= k < |IdNameLines(s, c, n)| ==> Listed(s, IdNameLines(s, c, n)[k])
  {
    if n > 0 {
      IdNameLinesListed(s, c, n - 1);
      var id := c.variableIds[n - 1];
      if id in s.variables {
        assert Listed(s, NameLine(c, s.variables[id]));
      }
    }
  }

  lemma {:induction false} NameLinesListed(s: Snapshot, n: nat)
    requires n <= |s.collections|
    ensures forall k :: 0 <= k < |NameLines(s, s.collections, n)| ==> Listed(s, NameLines(s, s.collections, n)[k])
  {
    if n > 0 {
      NameLinesListed(s, n - 1);
      IdNameLinesListed(s, s.collections[n - 1], |s.collections[n - 1].variableIds|);
    }
  }

  /** Every line of the listing names a variable of the store under a
      collection that lists it. */
  lemma EveryLineIsListed(s: Snapshot)
    ensures forall k :: 0 <= k < |AllNameLines(s)| ==> Listed(s, AllNameLines(s)[k])
  {
    NameLinesListed(s, |s.collections|);
  }

  /** No collection name and no variable name holds a line break. */
  predicate NoLineBreaks(s: Snapshot) {
    (forall c :: c in s.collections ==> '\n' !in c.name) &&
    (forall v :: v in s.variables.Values ==> '\n' !in v.name)
  }

  lemma {:induction false} IdNameLinesUnbroken(s: Snapshot, c: Collection, n: nat)
    requires NoLineBreaks(s) && c in s.collections && n <= |c.variableIds|
    ensures forall k :: 0 <= k < |IdNameLines(s, c, n)| ==> '\n' !in IdNameLines(s, c, n)[k]
  {
    if n > 0 {
      IdNameLinesUnbroken(s, c, n - 1);
      var id := c.variableIds[n - 1];
      if id in s.variables {
        var v := s.variables[id];
        assert v in s.variables.Values;
        assert NameLine(c, v) == c.name + ("/" + v.name);
      }
    }
  }

  lemma {:induction false} NameLinesUnbroken(s: Snapshot, n: nat)
    requires NoLineBreaks(s) && n <= |s.collections|
    ensures forall k :: 0 <= k < |NameLines(s, s.collections, n)| ==> '\n' !in NameLines(s, s.collections, n)[k]
  {
    if n > 0 {
      NameLinesUnbroken(s, n - 1);
      IdNameLinesUnbroken(s, s.collections[n - 1], |s.collections[n - 1].variableIds|);
    }
  }

  /** When no name holds a line break, splitting the copied listing at line
      breaks gives back exactly its lines, and their number is the total. */
  lemma ListingSplitsBack(s: Snapshot)
    requires NoLineBreaks(s) && AllNameLines(s) != []
    ensures Split(Join(AllNameLines(s), "\n"), '\n') == AllNameLines(s)
    ensures |Split(Join(AllNameLines(s), "\n"), '\n')| == |AllNameLines(s)|
  {
    NameLinesUnbroken(s, |s.collections|);
    SplitJoin(AllNameLines(s), '\n');
  }

  /** For a variable whose collection is the last one carrying its
      collection id, its line in the listing is its full path. */
  lemma NameLineIsFullPath(s: Snapshot, i: nat, v: Variable)
    requires i < |s.collections| && s.collections[i].id == v.collectionId
    requires IdAbsentAfter(s.collections, v.collectionId, i)
    ensures NameLine(s.collections[i], v) == FullPath(s, v)
  {
  }
}
