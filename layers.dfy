/**
 * The two naming classifiers of the path audit: the layer of a collection
 * (1 primitive, 2 mapping or brand, 3 consumer) and the top group of a
 * variable path.
 */
module Layers {
  import opened Strings

  /** The lower-cased `name` contains `sub` somewhere. */
  ghost predicate Mentions(name: string, sub: string) {
    exists i :: OccursAt(Lower(name), sub, i)
  }

  /** A name none of whose characters lower-cases to the first character of
      `sub` does not mention `sub`. */
  lemma NotMentionedWithoutInitial(name: string, sub: string)
    requires sub != []
    requires forall i :: 0 <= i < |name| ==> LowerChar(name[i]) != sub[0]
    ensures !Mentions(name, sub)
  {
  }

  /** Every string that contains "mapping" contains "map". */
  lemma MappingMentionsMap(n: string)
    ensures Contains(n, "mapping") ==> Contains(n, "map")
  {
    if Contains(n, "mapping") {
      var i :| OccursAt(n, "mapping", i);
      assert n[i..i + 3] == n[i..i + 7][..3];
      assert OccursAt(n, "map", i);
    }
  }

  /** `getLayer`: 1 for a primitive collection, else 2 for a brand or mapping
      collection, else 3; the separate "mapping" test never decides anything
      because "map" already matches. */
  function GetLayer(name: string): (r: int)
    ensures 1 <= r <= 3
    ensures r == 1 <==> Mentions(name, "primitive")
    ensures r == 2 <==> !Mentions(name, "primitive") && (Mentions(name, "brand") || Mentions(name, "map"))
  {
    var n := Lower(name);
    if Contains(n, "primitive") then 1
    else if Contains(n, "brand") || Contains(n, "map") || Contains(n, "mapping") then
      MappingMentionsMap(n);
      2
    else 3
  }

  /** The first piece of `v.split("/")` is the text before the first "/". */
  lemma {:induction false} FirstPieceAt(v: string, k: nat)
    requires k < |v| && v[k] == '/' && '/' !in v[..k]
    ensures Split(v, '/')[0] == v[..k]
  {
    if k > 0 {
      assert v[..k][0] == v[0];
      assert v[1..][..k - 1] == v[1..k];
      assert v[1..k] == v[..k][1..];
      FirstPieceAt(v[1..], k - 1);
      assert v[..k] == [v[0]] + v[1..k];
    }
  }

  lemma FirstPiece(v: string)
    ensures '/' !in v ==> Split(v, '/')[0] == v
    ensures forall k :: 0 <= k < |v| && v[k] == '/' && '/' !in v[..k] ==> Split(v, '/')[0] == v[..k]
    ensures Split(v, '/')[0] == [] <==> v == [] || v[0] == '/'
  {
    if '/' !in v {
      SplitNoSeparator(v, '/');
    }
    forall k | 0 <= k < |v| && v[k] == '/' && '/' !in v[..k]
      ensures Split(v, '/')[0] == v[..k]
    {
      FirstPieceAt(v, k);
    }
  }

  /** `getTopGroup`: the lower-cased text before the first "/" (the whole
      lower-cased name when there is none); empty exactly when that text is. */
  function GetTopGroup(varName: string): (r: string)
    ensures '/' !in varName ==> r == Lower(varName)
    ensures forall k :: 0 <= k < |varName| && varName[k] == '/' && '/' !in varName[..k] ==>
              r == Lower(varName[..k])
    ensures r == [] <==> varName == [] || varName[0] == '/'
  {
    var first := Split(varName, '/')[0];
    FirstPiece(varName);
    if first != "" then Lower(first) else ""
  }
}
