/**
 * `resolveChain`: follows a variable's first-mode alias down to a literal,
 * returning the full paths met on the way in primitive-to-consumer order.
 * The set of ids already visited on the current walk is the cycle guard; it
 * is threaded by value, which is exact because each call follows a single
 * alias and no caller reads the set after the recursive call returns.
 */
module Chain {
  import opened Store

  const Circular: string := "[CIRCULAR]"
  const MissingSuffix: string := " \U{2192} [MISSING]"

  /** A present variable handed to the resolver comes from the store. */
  predicate InStore(s: Snapshot, v: Option<Variable>) {
    v.Some? ==> v.value in s.variables.Values
  }

  /** Visiting an id of the store leaves one unvisited id fewer. */
  lemma VisitShrinks(s: Snapshot, x: Variable, visited: set<Id>)
    requires x in s.variables.Values && x.id !in visited
    ensures |AllIds(s) - (visited + {x.id})| == |AllIds(s) - visited| - 1
  {
    assert x.id in AllIds(s);
    assert AllIds(s) - (visited + {x.id}) == (AllIds(s) - visited) - {x.id};
  }

  /** `resolveChain(variable, visited)`. An absent variable gives nothing; an
      already visited one gives the cycle marker alone; otherwise the chain is
      never empty and ends with the variable's own full path, bare or marked
      missing, and every element after the first holds a "/" and is not the
      cycle marker, so the marker can only head a chain. Each step visits a
      new id of the store, which bounds the length. */
  function ResolveChain(s: Snapshot, v: Option<Variable>, visited: set<Id>): (r: seq<string>)
    requires InStore(s, v)
    ensures v.None? ==> r == []
    ensures v.Some? && v.value.id in visited ==> r == [Circular]
    ensures v.Some? ==> r != []
    ensures v.Some? && v.value.id !in visited ==>
              r[|r| - 1] == FullPath(s, v.value) || r[|r| - 1] == FullPath(s, v.value) + MissingSuffix
    ensures forall i :: 0 < i < |r| ==> '/' in r[i] && r[i] != Circular
    ensures |r| <= |AllIds(s) - visited| + 1
    decreases |AllIds(s) - visited|
  {
    match v
    case None => []
    case Some(x) =>
      if x.id in visited then [Circular]
      else
        var fullPath := FullPath(s, x);
        match x.value
        case Alias(target) =>
          VisitShrinks(s, x, visited);
          var deeper := ResolveChain(s, GetVariableById(s, target), visited + {x.id});
          if |deeper| > 0 then deeper + [fullPath] else [fullPath + MissingSuffix]
        case Literal => [fullPath]
  }

  /** The chain of a variable not yet visited has more than one element
      exactly when the variable is an alias whose target is in the store. */
  lemma ChainLongIffAliasFound(s: Snapshot, x: Variable, visited: set<Id>)
    requires x in s.variables.Values && x.id !in visited
    ensures |ResolveChain(s, Some(x), visited)| > 1 <==> x.value.Alias? && x.value.target in s.variables
  {
    if x.value.Alias? && x.value.target in s.variables {
      var deeper := ResolveChain(s, GetVariableById(s, x.value.target), visited + {x.id});
      assert deeper != [];
    }
  }

  /** A variable holding a literal resolves to its own full path alone, at
      any depth of the walk. */
  lemma LiteralChain(s: Snapshot, x: Variable, visited: set<Id>)
    requires x in s.variables.Values && x.id !in visited && x.value == Literal
    ensures ResolveChain(s, Some(x), visited) == [FullPath(s, x)]
  {
  }

  /** An alias whose target id is not in the store collapses into one line
      marked missing, at any depth of the walk. */
  lemma MissingTargetChain(s: Snapshot, x: Variable, visited: set<Id>)
    requires x in s.variables.Values && x.id !in visited
    requires x.value.Alias? && x.value.target !in s.variables
    ensures ResolveChain(s, Some(x), visited) == [FullPath(s, x) + MissingSuffix]
  {
  }

  /** An alias whose target is in the store puts the target's chain first
      and ends with its own bare full path. */
  lemma FoundTargetChain(s: Snapshot, x: Variable, visited: set<Id>)
    requires x in s.variables.Values && x.id !in visited
    requires x.value.Alias? && x.value.target in s.variables
    ensures ResolveChain(s, Some(x), visited) ==
              ResolveChain(s, Some(s.variables[x.value.target]), visited + {x.id}) + [FullPath(s, x)]
    ensures |ResolveChain(s, Some(x), visited)| >= 2
  {
    var deeper := ResolveChain(s, Some(s.variables[x.value.target]), visited + {x.id});
    assert deeper != [];
  }

  /** `p` is the full path of a variable of the store. */
  ghost predicate IsFullPath(s: Snapshot, p: string) {
    exists y :: y in s.variables.Values && p == FullPath(s, y)
  }

  /** Every element after the first is the bare full path of a variable of
      the store: the cycle marker and the missing suffix can only appear in
      the first element. */
  lemma {:induction false} LaterElementsArePaths(s: Snapshot, v: Option<Variable>, visited: set<Id>)
    requires InStore(s, v)
    ensures forall i :: 0 < i < |ResolveChain(s, v, visited)| ==> IsFullPath(s, ResolveChain(s, v, visited)[i])
    decreases |AllIds(s) - visited|
  {
    if v.Some? && v.value.id !in visited && v.value.value.Alias? {
      var x := v.value;
      VisitShrinks(s, x, visited);
      var next := GetVariableById(s, x.value.target);
      LaterElementsArePaths(s, next, visited + {x.id});
      var deeper := ResolveChain(s, next, visited + {x.id});
      if |deeper| > 0 {
        var r := ResolveChain(s, v, visited);
        assert r == deeper + [FullPath(s, x)];
        forall i | 0 < i < |r| ensures IsFullPath(s, r[i]) {
          if i < |deeper| {
            assert r[i] == deeper[i];
          } else {
            assert r[i] == FullPath(s, x);
          }
        }
      }
    }
  }

  /** A set of ids holding the target of every alias of a variable in it. */
  ghost predicate AliasClosed(s: Snapshot, ids: set<Id>) {
    forall y :: y in s.variables.Values && y.id in ids && y.value.Alias? && y.value.target in s.variables ==>
      s.variables[y.value.target].id in ids
  }

  /** Any set of ids that holds the start and is closed under alias
      targets bounds the chain by its unvisited ids plus one (the cycle
      marker). */
  lemma {:induction false} ChainWithinClosedSet(s: Snapshot, x: Variable, visited: set<Id>, ids: set<Id>)
    requires x in s.variables.Values && x.id in ids && AliasClosed(s, ids)
    ensures |ResolveChain(s, Some(x), visited)| <= |ids - visited| + 1
    decreases |AllIds(s) - visited|
  {
    if x.id !in visited && x.value.Alias? && x.value.target in s.variables {
      var y := s.variables[x.value.target];
      assert y in s.variables.Values;
      VisitShrinks(s, x, visited);
      ChainWithinClosedSet(s, y, visited + {x.id}, ids);
      FoundTargetChain(s, x, visited);
      assert ids - (visited + {x.id}) == (ids - visited) - {x.id};
    }
  }

  /** A variable aliasing itself: the marker, then its own path. */
  lemma SelfAliasChain(s: Snapshot, a: Variable)
    requires a.id in s.variables && s.variables[a.id] == a && a.value == Alias(a.id)
    ensures ResolveChain(s, Some(a), {}) == [Circular, FullPath(s, a)]
  {
  }

  /** Two variables aliasing each other: the marker, then both paths with the
      starting variable last. */
  lemma MutualAliasChain(s: Snapshot, a: Variable, b: Variable)
    requires a.id in s.variables && s.variables[a.id] == a
    requires b.id in s.variables && s.variables[b.id] == b
    requires a.id != b.id && a.value == Alias(b.id) && b.value == Alias(a.id)
    ensures ResolveChain(s, Some(a), {}) == [Circular, FullPath(s, b), FullPath(s, a)]
  {
  }
}
