/**
 * The second half of the dependency audit: sort every bucket, render the
 * report with its running total, and the whole run from the collection
 * check to the rendered report.
 */
module Report {
  import opened Strings
  import opened LexOrder
  import opened Store
  import opened Layers
  import opened Patterns
  import opened Audit

  /** `Object.keys(groups).forEach(k => groups[k].sort())` on a value: every
      bucket ascending and a permutation of what it held. */
  function SortTable(groups: map<Bucket, seq<string>>): (t: map<Bucket, seq<string>>)
    ensures t.Keys == groups.Keys
    ensures forall b :: b in t ==> |t[b]| == |groups[b]|
    ensures forall b :: b in t ==> Sorted(t[b]) && multiset(t[b]) == multiset(groups[b])
  {
    SortEach(groups, SortLines)
  }

  /** Every bucket put through `sort`, under the same keys. */
  function SortEach(groups: map<Bucket, seq<string>>, sort: seq<string> -> seq<string>): map<Bucket, seq<string>> {
    map b | b in groups :: sort(groups[b])
  }

  /** The table after applying `sort` to path groups 1 to `i - 1`, one key
      after the other, with the other buckets as they were. */
  ghost function SortedBelow(groups: map<Bucket, seq<string>>, i: nat, sort: seq<string> -> seq<string>): map<Bucket, seq<string>> {
    if i <= 1 then groups
    else
      var t := SortedBelow(groups, i - 1, sort);
      if Group(i - 1) in t then t[Group(i - 1) := sort(t[Group(i - 1)])] else t
  }

  /** Sorting in place keeps the keys. */
  lemma {:induction false} SortedBelowKeys(groups: map<Bucket, seq<string>>, i: nat, sort: seq<string> -> seq<string>)
    ensures SortedBelow(groups, i, sort).Keys == groups.Keys
  {
    if i > 1 {
      SortedBelowKeys(groups, i - 1, sort);
    }
  }

  /** What the partly sorted table holds under each key. */
  lemma {:induction false} SortedBelowAt(groups: map<Bucket, seq<string>>, i: nat, sort: seq<string> -> seq<string>, b: Bucket)
    requires b in groups
    ensures b in SortedBelow(groups, i, sort)
    ensures SortedBelow(groups, i, sort)[b] ==
            if b.Group? && 1 <= b.n < i then sort(groups[b]) else groups[b]
  {
    if i > 1 {
      SortedBelowAt(groups, i - 1, sort, b);
      SortedBelowKeys(groups, i - 1, sort);
    }
  }

  /** Once every path group is sorted, sorting "Other" completes the table. */
  lemma SortedBelowDone(groups: map<Bucket, seq<string>>, sort: seq<string> -> seq<string>)
    requires forall b :: b in groups <==> IsBucket(b)
    ensures Other in SortedBelow(groups, 9, sort)
    ensures SortedBelow(groups, 9, sort)[Other := sort(SortedBelow(groups, 9, sort)[Other])] == SortEach(groups, sort)
  {
    assert IsBucket(Other);
    SortedBelowKeys(groups, 9, sort);
    forall b | b in groups
      ensures SortedBelow(groups, 9, sort)[Other := sort(SortedBelow(groups, 9, sort)[Other])][b] == sort(groups[b])
    {
      assert IsBucket(b);
      SortedBelowAt(groups, 9, sort, b);
    }
  }

  /** Line 93: sorts the buckets one key after the other, in key order:
      path groups 1 to 8, then "Other". `sort` stands for the host's
      built-in `Array.prototype.sort()`; the run passes `SortLines`. */
  method SortBuckets(groups: map<Bucket, seq<string>>, sort: seq<string> -> seq<string>) returns (sorted: map<Bucket, seq<string>>)
    requires forall b :: b in groups <==> IsBucket(b)
    ensures sorted == SortEach(groups, sort)
  {
    sorted := groups;
    var i := 1;
    while i <= 8
      invariant 1 <= i <= 9
      invariant sorted == SortedBelow(groups, i, sort)
      invariant sorted.Keys == groups.Keys
    {
      assert IsBucket(Group(i));
      sorted := sorted[Group(i) := sort(sorted[Group(i)])];
      i := i + 1;
    }
    SortedBelowDone(groups, sort);
    sorted := sorted[Other := sort(sorted[Other])];
  }

  /** The title of a path group's section. */
  function GroupTitle(i: nat, n: nat): string {
    "Path Group " + NatToString(i) + " (" + NatToString(n) + " variables):\n"
  }

  /** The title of the "Other" section. */
  function OtherTitle(n: nat): string {
    "Other / Unexpected paths (" + NatToString(n) + " \U{2013} please review):\n"
  }

  /** A section: nothing for an empty bucket, else its title, its lines one
      per row, and a blank line. */
  function Section(title: string, lines: seq<string>): (r: string)
    ensures lines == [] <==> r == ""
  {
    if |lines| == 0 then "" else title + Join(lines, "\n") + "\n\n"
  }

  /** The sections of path groups 1 to `i`, in number order. */
  function GroupSections(groups: map<Bucket, seq<string>>, i: nat): string
    requires i <= 8
    requires forall b :: IsBucket(b) ==> b in groups
  {
    if i == 0 then ""
    else GroupSections(groups, i - 1) + Section(GroupTitle(i, |groups[Group(i)]|), groups[Group(i)])
  }

  /** The number of lines in path groups 1 to `i`. */
  function GroupTotal(groups: map<Bucket, seq<string>>, i: nat): nat
    requires i <= 8
    requires forall b :: IsBucket(b) ==> b in groups
  {
    if i == 0 then 0 else GroupTotal(groups, i - 1) + |groups[Group(i)]|
  }

  /** The report text of a table. */
  function ReportText(groups: map<Bucket, seq<string>>): string
    requires forall b :: IsBucket(b) ==> b in groups
  {
    Header + GroupSections(groups, 8) + Section(OtherTitle(|groups[Other]|), groups[Other])
  }

  /** The total the report counts: the lines of every path group and "Other". */
  function ReportTotal(groups: map<Bucket, seq<string>>): nat
    requires forall b :: IsBucket(b) ==> b in groups
  {
    GroupTotal(groups, 8) + |groups[Other]|
  }


  /** Lines 96-111: appends the sections of the non-empty path groups in
      number order, then the "Other" section, counting their lines. */
  method Render(groups: map<Bucket, seq<string>>) returns (output: string, total: nat)
    requires forall b :: IsBucket(b) ==> b in groups
    ensures output == ReportText(groups)
    ensures total == ReportTotal(groups)
  {
    var body;
    body, total := RenderGroups(groups);
    output := Header + body;
    var other := groups[Other];
    output := AppendSection(output, OtherTitle(|other|), other);
    total := total + |other|;
  }

  /** Lines 99-105: the sections of path groups 1 to 8, in that order, and
      the number of lines they hold. */
  method RenderGroups(groups: map<Bucket, seq<string>>) returns (body: string, total: nat)
    requires forall b :: IsBucket(b) ==> b in groups
    ensures body == GroupSections(groups, 8)
    ensures total == GroupTotal(groups, 8)
  {
    body := "";
    total := 0;
    var i := 1;
    while i <= 8
      invariant 1 <= i <= 9
      invariant body == GroupSections(groups, i - 1)
      invariant total == GroupTotal(groups, i - 1)
    {
      var lines := groups[Group(i)];
      body := AppendSection(body, GroupTitle(i, |lines|), lines);
      total := total + |lines|;
      i := i + 1;
    }
  }

  /** A bucket with lines adds its title and lines to the report; an empty
      bucket adds nothing. */
  method AppendSection(output: string, title: string, lines: seq<string>) returns (out: string)
    ensures out == output + Section(title, lines)
    ensures |out| == |output| <==> lines == []
  {
    out := output;
    if |lines| > 0 {
      out := out + Section(title, lines);
    }
  }

  /** The outcome of a run: the early exit when the file has no local
      collection, or the report with the total printed under it. */
  datatype AuditResult = NoCollections | Printed(output: string, total: nat)

  /** The whole run: an empty collection list stops it; otherwise the scan,
      the sort and the rendering, and the total is the number of chains. */
  method AuditPaths(s: Snapshot) returns (r: AuditResult)
    ensures s.collections == [] <==> r == NoCollections
    ensures r.Printed? ==> r.output == ReportText(SortTable(Table(AllEntries(s))))
    ensures r.Printed? ==> r.total == |AllEntries(s)|
  {
    if |s.collections| == 0 {
      return NoCollections;
    }
    var groups := CollectChains(s);
    var sorted := SortBuckets(groups, SortLines);
    var output, total := Render(sorted);
    TotalCountsEveryChain(s);
    return Printed(output, total);
  }

  /** The total of a sorted table is the number of chains the scan found. */
  lemma TotalCountsEveryChain(s: Snapshot)
    ensures ReportTotal(SortTable(Table(AllEntries(s)))) == |AllEntries(s)|
  {
    AllEntriesValid(s);
    SortKeepsTotal(Table(AllEntries(s)));
    TableTotal(AllEntries(s));
  }

  /** Every entry lands in a key of the table, and never in path group 5. */
  predicate ValidEntries(es: seq<Entry>) {
    forall i :: 0 <= i < |es| ==> IsBucket(es[i].bucket) && es[i].bucket != Group(5)
  }

  lemma {:induction false} IdEntriesValid(s: Snapshot, ids: seq<Id>, n: nat)
    requires n <= |ids|
    ensures ValidEntries(IdEntries(s, ids, n))
  {
    if n > 0 {
      IdEntriesValid(s, ids, n - 1);
    }
  }

  lemma {:induction false} EntriesValid(s: Snapshot, cols: seq<Collection>, n: nat)
    requires n <= |cols|
    ensures ValidEntries(Entries(s, cols, n))
  {
    if n > 0 {
      EntriesValid(s, cols, n - 1);
      IdEntriesValid(s, cols[n - 1].variableIds, |cols[n - 1].variableIds|);
    }
  }

  lemma AllEntriesValid(s: Snapshot)
    ensures ValidEntries(AllEntries(s))
  {
    EntriesValid(s, s.collections, |s.collections|);
  }

  /** Pushing a line into a bucket adds one to the path group total exactly
      when that bucket is one of groups 1 to `i`. */
  lemma {:induction false} GroupTotalPushed(groups: map<Bucket, seq<string>>, b: Bucket, line: string, i: nat)
    requires i <= 8
    requires forall c :: IsBucket(c) ==> c in groups
    requires IsBucket(b)
    ensures GroupTotal(groups[b := groups[b] + [line]], i) ==
              GroupTotal(groups, i) + (if b.Group? && b.n <= i then 1 else 0)
  {
    if i > 0 {
      GroupTotalPushed(groups, b, line, i - 1);
    }
  }

  /** Path groups that are all empty count nothing. */
  lemma {:induction false} EmptyGroupTotal(groups: map<Bucket, seq<string>>, i: nat)
    requires i <= 8
    requires forall b :: IsBucket(b) ==> b in groups && groups[b] == []
    ensures GroupTotal(groups, i) == 0
  {
    if i > 0 {
      EmptyGroupTotal(groups, i - 1);
    }
  }

  /** The table of a scan counts each of its entries once. */
  lemma {:induction false} TableTotal(es: seq<Entry>)
    requires ValidEntries(es)
    ensures ReportTotal(Table(es)) == |es|
  {
    if es == [] {
      EmptyGroupTotal(Table(es), 8);
    } else {
      var init := es[..|es| - 1];
      var last := es[|es| - 1];
      assert es == init + [last];
      assert ValidEntries(init) by {
        forall i | 0 <= i < |init| ensures IsBucket(init[i].bucket) && init[i].bucket != Group(5) {
          assert init[i] == es[i];
        }
      }
      TableTotal(init);
      TablePushed(init, [last]);
      GroupTotalPushed(Table(init), last.bucket, last.line, 8);
    }
  }

  /** Tables whose path groups hold as many lines count the same. */
  lemma {:induction false} GroupTotalSameLengths(g1: map<Bucket, seq<string>>, g2: map<Bucket, seq<string>>, i: nat)
    requires i <= 8
    requires forall b :: IsBucket(b) ==> b in g1 && b in g2 && |g1[b]| == |g2[b]|
    ensures GroupTotal(g1, i) == GroupTotal(g2, i)
  {
    if i > 0 {
      GroupTotalSameLengths(g1, g2, i - 1);
    }
  }

  /** Sorting keeps the number of lines in every bucket. */
  lemma SortKeepsTotal(groups: map<Bucket, seq<string>>)
    requires forall b :: IsBucket(b) ==> b in groups
    ensures ReportTotal(SortTable(groups)) == ReportTotal(groups)
  {
    GroupTotalSameLengths(SortTable(groups), groups, 8);
  }

  /** No entry of a valid scan lands in path group 5. */
  lemma {:induction false} NoGroupFiveLines(es: seq<Entry>)
    requires ValidEntries(es)
    ensures BucketLines(es, Group(5)) == []
  {
    if es != [] {
      var init := es[..|es| - 1];
      assert ValidEntries(init) by {
        forall i | 0 <= i < |init| ensures IsBucket(init[i].bucket) && init[i].bucket != Group(5) {
          assert init[i] == es[i];
        }
      }
      NoGroupFiveLines(init);
    }
  }

  /** Path group 5's condition compares a number with an array and never
      holds, so its bucket stays empty and its section is never printed. */
  lemma GroupFiveAlwaysEmpty(s: Snapshot)
    ensures SortTable(Table(AllEntries(s)))[Group(5)] == []
  {
    AllEntriesValid(s);
    NoGroupFiveLines(AllEntries(s));
    var g := SortTable(Table(AllEntries(s)))[Group(5)];
    assert multiset(g) == multiset{};
  }


  /** Line 114: the fallback text shown in place of an empty output. */
  function Displayed(output: string): string {
    if output == "" then "No aliased variables found" else output
  }

  /** The report always begins with its header, so the fallback text is
      never what gets shown. */
  lemma ReportStartsWithHeader(groups: map<Bucket, seq<string>>)
    requires forall b :: IsBucket(b) ==> b in groups
    ensures StartsWith(ReportText(groups), Header)
    ensures Displayed(ReportText(groups)) == ReportText(groups)
  {
  }

  /** The path group sections are empty exactly when the path groups are. */
  lemma {:induction false} GroupSectionsEmpty(groups: map<Bucket, seq<string>>, i: nat)
    requires i <= 8
    requires forall b :: IsBucket(b) ==> b in groups
    ensures |GroupSections(groups, i)| == 0 <==> GroupTotal(groups, i) == 0
  {
    if i == 0 {
      assert GroupSections(groups, 0) == "" && GroupTotal(groups, 0) == 0;
    } else {
      GroupSectionsEmpty(groups, i - 1);
      var lines := groups[Group(i)];
      var sec := Section(GroupTitle(i, |lines|), lines);
      var a, t := |GroupSections(groups, i - 1)|, GroupTotal(groups, i - 1);
      assert |sec| == 0 <==> |lines| == 0;
      assert |GroupSections(groups, i)| == a + |sec|;
      assert GroupTotal(groups, i) == t + |lines|;
    }
  }

  /** The report is the bare header exactly when it counts no line. */
  lemma ReportIsHeaderIffNoLines(groups: map<Bucket, seq<string>>)
    requires forall b :: IsBucket(b) ==> b in groups
    ensures ReportText(groups) == Header <==> ReportTotal(groups) == 0
  {
    GroupSectionsEmpty(groups, 8);
    var gs := GroupSections(groups, 8);
    var other := groups[Other];
    var sec := Section(OtherTitle(|other|), other);
    assert |sec| == 0 <==> |other| == 0;
    assert ReportText(groups) == Header + gs + sec;
    if |gs| == 0 && |sec| == 0 {
      assert Header + gs + sec == Header;
    } else {
      assert |ReportText(groups)| != |Header|;
    }
  }

  /** The report of a snapshot is the bare header exactly when the scan
      found no chain longer than one element. */
  lemma EmptyReportIffNoChains(s: Snapshot)
    ensures ReportText(SortTable(Table(AllEntries(s)))) == Header <==> AllEntries(s) == []
  {
    TotalCountsEveryChain(s);
    ReportIsHeaderIffNoLines(SortTable(Table(AllEntries(s))));
  }

  /** The variable `id` is an alias whose target is in the store. */
  predicate ResolvableAlias(s: Snapshot, id: Id) {
    id in s.variables && s.variables[id].value.Alias? && s.variables[id].value.target in s.variables
  }

  /** How many of the first `n` ids are resolvable aliases. */
  function AliasCount(s: Snapshot, ids: seq<Id>, n: nat): nat
    requires n <= |ids|
  {
    if n == 0 then 0 else AliasCount(s, ids, n - 1) + (if ResolvableAlias(s, ids[n - 1]) then 1 else 0)
  }

  /** How many resolvable aliases the non-primitive collections among the
      first `n` list, counted once per listing. */
  function CollectionsAliasCount(s: Snapshot, cols: seq<Collection>, n: nat): nat
    requires n <= |cols|
  {
    if n == 0 then 0
    else CollectionsAliasCount(s, cols, n - 1) +
         (if GetLayer(cols[n - 1].name) == 1 then 0
          else AliasCount(s, cols[n - 1].variableIds, |cols[n - 1].variableIds|))
  }

  lemma {:induction false} IdEntriesCount(s: Snapshot, ids: seq<Id>, n: nat)
    requires n <= |ids|
    ensures |IdEntries(s, ids, n)| == AliasCount(s, ids, n)
  {
    if n > 0 {
      IdEntriesCount(s, ids, n - 1);
    }
  }

  lemma {:induction false} EntriesCount(s: Snapshot, cols: seq<Collection>, n: nat)
    requires n <= |cols|
    ensures |Entries(s, cols, n)| == CollectionsAliasCount(s, cols, n)
  {
    if n > 0 {
      EntriesCount(s, cols, n - 1);
      IdEntriesCount(s, cols[n - 1].variableIds, |cols[n - 1].variableIds|);
    }
  }

  /** The printed total counts the variables of non-primitive collections
      that alias a variable of the store: exactly the chains longer than one
      element. */
  lemma TotalIsAliasCount(s: Snapshot)
    ensures ReportTotal(SortTable(Table(AllEntries(s)))) ==
              CollectionsAliasCount(s, s.collections, |s.collections|)
  {
    TotalCountsEveryChain(s);
    EntriesCount(s, s.collections, |s.collections|);
  }
}
