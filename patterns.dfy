/**
 * `classify`: each chain element becomes a step (the layer of the text
 * before its first "/", the top group of the text after it), each step a
 * token `"<layer>-<topGroup>"`, and the token sequence is matched against a
 * fixed first-match decision list of path groups 1 to 8, falling back to
 * "Other".
 */
module Patterns {
  import opened Strings
  import opened Layers
  import Chain

  /** A key of the `groups` table: a path group number or "Other". */
  datatype Bucket = Group(n: int) | Other

  /** The `{layer, topGroup}` record built for one chain element. */
  datatype Step = Step(layer: nat, topGroup: string)

  /** Head and tail of `p.split("/")`, with the tail joined back by "/":
      the text before the first "/" and the text after it. */
  lemma SplitHeadTail(p: string)
    ensures '/' !in p ==> Split(p, '/')[0] == p && Join(Split(p, '/')[1..], "/") == ""
    ensures forall k :: 0 <= k < |p| && p[k] == '/' && '/' !in p[..k] ==>
              Split(p, '/')[0] == p[..k] && Join(Split(p, '/')[1..], "/") == p[k + 1..]
  {
    if '/' !in p {
      SplitNoSeparator(p, '/');
    }
    forall k | 0 <= k < |p| && p[k] == '/' && '/' !in p[..k]
      ensures Split(p, '/')[0] == p[..k] && Join(Split(p, '/')[1..], "/") == p[k + 1..]
    {
      SplitAtFirstSlash(p, k);
    }
  }

  /** Splitting at the first "/", found at index `k`. */
  lemma SplitAtFirstSlash(p: string, k: nat)
    requires k < |p| && p[k] == '/' && '/' !in p[..k]
    ensures Split(p, '/')[0] == p[..k] && Join(Split(p, '/')[1..], "/") == p[k + 1..]
  {
    assert p == p[..k] + ['/'] + p[k + 1..];
    SplitAtFirst(p[..k], '/', p[k + 1..]);
    assert Split(p, '/')[1..] == Split(p[k + 1..], '/');
    JoinSplit(p[k + 1..], '/');
  }

  /** The step of one chain element: its collection part (before the first
      "/") gives the layer, its variable part (after it) the top group. */
  function StepOf(p: string): (st: Step)
    ensures 1 <= st.layer <= 3
    ensures '/' !in p ==> st == Step(GetLayer(p), "")
    ensures forall k :: 0 <= k < |p| && p[k] == '/' && '/' !in p[..k] ==>
              st == Step(GetLayer(p[..k]), GetTopGroup(p[k + 1..]))
  {
    var parts := Split(p, '/');
    SplitHeadTail(p);
    Step(GetLayer(parts[0]), GetTopGroup(Join(parts[1..], "/")))
  }

  function Steps(chain: seq<string>): (st: seq<Step>)
    ensures |st| == |chain|
  {
    seq(|chain|, i requires 0 <= i < |chain| => StepOf(chain[i]))
  }

  /** `${s.layer}-${s.topGroup}`. */
  function Token(st: Step): string {
    NatToString(st.layer) + "-" + st.topGroup
  }

  function Tokens(steps: seq<Step>): (t: seq<string>)
    ensures |t| == |steps|
  {
    seq(|steps|, i requires 0 <= i < |steps| => Token(steps[i]))
  }

  /** JavaScript `===` between a number and an array: operands of different
      types are never strictly equal. */
  predicate NumberStrictEqualsArray(n: int, arr: seq<string>) {
    false
  }

  /** The condition of the decision-list line for path group `k`. */
  predicate Matches(k: int, t: seq<string>) {
    if k == 1 then |t| == 2 && StartsWith(t[0], "1-") && t[1] == "3-semantic"
    else if k == 2 then |t| == 2 && StartsWith(t[0], "1-") && t[1] == "3-component"
    else if k == 3 then |t| == 3 && StartsWith(t[0], "1-") && t[1] == "2-global" && t[2] == "3-semantic"
    else if k == 4 then
      |t| == 4 && StartsWith(t[0], "1-") && t[1] == "2-global" && t[2] == "3-semantic" && t[3] == "3-semantic"
    else if k == 5 then NumberStrictEqualsArray(|t|, ["1-any", "2-global", "3-semantic", "3-component"])
    else if k == 6 then
      |t| == 4 && StartsWith(t[0], "1-") && t[1] == "2-global" && StartsWith(t[2], "2-component") && t[3] == "3-component"
    else if k == 7 then
      |t| == 4 && StartsWith(t[0], "1-") && t[1] == "2-global" && StartsWith(t[2], "2-component") && t[3] == "3-semantic"
    else if k == 8 then
      |t| == 3 && StartsWith(t[0], "1-") && StartsWith(t[1], "2-component") && t[2] == "3-component"
    else false
  }

  /** No token sequence meets two lines of the decision list. */
  lemma MatchesDisjoint(t: seq<string>, j: int, k: int)
    requires j != k
    ensures !(Matches(j, t) && Matches(k, t))
  {
  }

  /** `classify(chain)`: the first line of the decision list that holds. */
  function Classify(chain: seq<string>): (b: Bucket)
    ensures b.Group? ==> b.n in {1, 2, 3, 4, 6, 7, 8}
    ensures b.Group? ==> Matches(b.n, Tokens(Steps(chain)))
    ensures b == Other ==> forall k :: 1 <= k <= 8 ==> !Matches(k, Tokens(Steps(chain)))
  {
    var t := Tokens(Steps(chain));
    if Matches(1, t) then Group(1)
    else if Matches(2, t) then Group(2)
    else if Matches(3, t) then Group(3)
    else if Matches(4, t) then Group(4)
    else if Matches(5, t) then Group(5)
    else if Matches(6, t) then Group(6)
    else if Matches(7, t) then Group(7)
    else if Matches(8, t) then Group(8)
    else Other
  }

  /** The order of the decision list does not matter: the bucket is group
      `k` exactly when line `k` holds, because no two lines hold at once. */
  lemma ClassifyIsTheMatchingGroup(chain: seq<string>, k: int)
    ensures Classify(chain) == Group(k) <==> Matches(k, Tokens(Steps(chain)))
  {
    var t := Tokens(Steps(chain));
    var b := Classify(chain);
    if b.Group? && b.n != k {
      MatchesDisjoint(t, b.n, k);
    }
    if b == Other && Matches(k, t) {
      assert !(1 <= k <= 8);
    }
  }

  /** Comparing two texts that start with a character and "-". */
  lemma DashedCompare(a: char, g: string, b: char, h: string)
    ensures [a, '-'] + g == [b, '-'] + h <==> a == b && g == h
    ensures StartsWith([a, '-'] + g, [b, '-'] + h) <==> a == b && StartsWith(g, h)
  {
    var x, y := [a, '-'] + g, [b, '-'] + h;
    assert x[0] == a && y[0] == b && x[2..] == g && y[2..] == h;
    if |h| <= |g| {
      assert x[..|y|] == [a, '-'] + g[..|h|];
      assert x[..|y|][2..] == g[..|h|];
    }
  }

  /** What the tokens the decision list compares say about a step. */
  lemma TokenFacts(st: Step)
    requires 1 <= st.layer <= 3
    ensures StartsWith(Token(st), "1-") <==> st.layer == 1
    ensures Token(st) == "3-semantic" <==> st == Step(3, "semantic")
    ensures Token(st) == "3-component" <==> st == Step(3, "component")
    ensures Token(st) == "2-global" <==> st == Step(2, "global")
    ensures StartsWith(Token(st), "2-component") <==> st.layer == 2 && StartsWith(st.topGroup, "component")
  {
    var d := DigitChar(st.layer);
    assert Token(st) == [d, '-'] + st.topGroup;
    assert d == '1' <==> st.layer == 1;
    assert d == '2' <==> st.layer == 2;
    assert d == '3' <==> st.layer == 3;
    assert "1-" == ['1', '-'] + "";
    DashedCompare(d, st.topGroup, '1', "");
    assert "3-semantic" == ['3', '-'] + "semantic";
    DashedCompare(d, st.topGroup, '3', "semantic");
    assert "3-component" == ['3', '-'] + "component";
    DashedCompare(d, st.topGroup, '3', "component");
    assert "2-global" == ['2', '-'] + "global";
    DashedCompare(d, st.topGroup, '2', "global");
    assert "2-component" == ['2', '-'] + "component";
    DashedCompare(d, st.topGroup, '2', "component");
  }

  /** Path group `k` as a shape of steps: the number of steps, the layer of
      each, and the top group the later ones carry. Every group starts from
      a primitive; 5 has no shape. */
  predicate StepShape(k: int, st: seq<Step>) {
    |st| >= 2 && st[0].layer == 1 &&
    if k == 1 then |st| == 2 && st[1] == Step(3, "semantic")
    else if k == 2 then |st| == 2 && st[1] == Step(3, "component")
    else if k == 3 then |st| == 3 && st[1] == Step(2, "global") && st[2] == Step(3, "semantic")
    else if k == 4 then
      |st| == 4 && st[1] == Step(2, "global") && st[2] == Step(3, "semantic") && st[3] == Step(3, "semantic")
    else if k == 6 then
      |st| == 4 && st[1] == Step(2, "global") && st[2].layer == 2 && StartsWith(st[2].topGroup, "component")
      && st[3] == Step(3, "component")
    else if k == 7 then
      |st| == 4 && st[1] == Step(2, "global") && st[2].layer == 2 && StartsWith(st[2].topGroup, "component")
      && st[3] == Step(3, "semantic")
    else if k == 8 then
      |st| == 3 && st[1].layer == 2 && StartsWith(st[1].topGroup, "component") && st[2] == Step(3, "component")
    else false
  }

  /** Steps whose layers are those `getLayer` can return. */
  predicate LayersInRange(st: seq<Step>) {
    forall i :: 0 <= i < |st| ==> 1 <= st[i].layer <= 3
  }

  lemma StepsLayersInRange(chain: seq<string>)
    ensures LayersInRange(Steps(chain))
  {
  }

  /** The string tests of line `k` say exactly that the steps have shape `k`. */
  lemma MatchesIffStepShape(st: seq<Step>, k: int)
    requires LayersInRange(st)
    ensures Matches(k, Tokens(st)) <==> StepShape(k, st)
  {
    var t := Tokens(st);
    if 2 <= |st| <= 4 {
      assert t[0] == Token(st[0]) && t[1] == Token(st[1]);
      TokenFacts(st[0]);
      TokenFacts(st[1]);
      if |st| >= 3 {
        assert t[2] == Token(st[2]);
        TokenFacts(st[2]);
      }
      if |st| == 4 {
        assert t[3] == Token(st[3]);
        TokenFacts(st[3]);
      }
    }
  }

  /** The bucket of a chain, stated on its steps: group `k` exactly when the
      steps have shape `k`, "Other" when they have none of the shapes. */
  lemma ClassifyByShape(chain: seq<string>, k: int)
    ensures Classify(chain) == Group(k) <==> StepShape(k, Steps(chain))
    ensures Classify(chain) == Other <==> forall j :: 1 <= j <= 8 ==> !StepShape(j, Steps(chain))
  {
    ClassifyIsTheMatchingGroup(chain, k);
    StepsLayersInRange(chain);
    MatchesIffStepShape(Steps(chain), k);
    forall j | 1 <= j <= 8
      ensures Matches(j, Tokens(Steps(chain))) <==> StepShape(j, Steps(chain))
    {
      MatchesIffStepShape(Steps(chain), j);
    }
  }

  /** A chain of fewer than two or more than four elements, or one whose
      first element is not in a primitive collection, is "Other". */
  lemma ClassifyOtherUnlessPrimitiveHead(chain: seq<string>)
    requires |chain| < 2 || |chain| > 4 || StepOf(chain[0]).layer != 1
    ensures Classify(chain) == Other
  {
    StepsLayersInRange(chain);
    forall j | 1 <= j <= 8
      ensures !Matches(j, Tokens(Steps(chain)))
    {
      MatchesIffStepShape(Steps(chain), j);
    }
  }

  /** A chain headed by the cycle marker is "Other": the marker has no "/",
      so its collection part is the marker itself, which is not primitive. */
  lemma CircularChainIsOther(chain: seq<string>)
    requires |chain| >= 1 && chain[0] == Chain.Circular
    ensures Classify(chain) == Other
  {
    var m := Chain.Circular;
    assert 'p' !in m && 'P' !in m && '/' !in m;
    forall i | 0 <= i < |m| ensures LowerChar(m[i]) != 'p' {
      assert m[i] in m;
    }
    NotMentionedWithoutInitial(m, "primitive");
    assert GetLayer(m) != 1;
    assert StepOf(m) == Step(GetLayer(m), "");
    ClassifyOtherUnlessPrimitiveHead(chain);
  }
}
