/** The layer classifier (`PSDWebExtractor._get_layer_type`): a total
    function from a layer to one kind, decided by a fixed priority order. */
module LayerClassifier {
  import opened Wrappers
  import opened PsdLayers
  import opened Strings

  /** ASCII lower-casing, character by character. */
  function AsciiLower(s: string): (r: string)
    ensures |r| == |s|
    ensures forall i :: 0 <= i < |s| ==> ('A' <= s[i] <= 'Z' ==> r[i] as int == s[i] as int + 32)
    ensures forall i :: 0 <= i < |s| ==> (!('A' <= s[i] <= 'Z') ==> r[i] == s[i])
    decreases |s|
  {
    if s == [] then []
    else [if 'A' <= s[0] <= 'Z' then (s[0] as int + 32) as char else s[0]] + AsciiLower(s[1..])
  }

  /** Python's `sub in s` on strings: `sub` occurs somewhere in `s`. */
  function HasInfix(s: string, sub: string): (r: bool)
    ensures r <==> exists i: nat :: OccursAt(s, sub, i)
    decreases |s|
  {
    if |s| < |sub| then false
    else if s[..|sub|] == sub then assert OccursAt(s, sub, 0); true
    else
      var rest := HasInfix(s[1..], sub);
      assert forall i: nat :: OccursAt(s, sub, i + 1) <==> OccursAt(s[1..], sub, i) by {
        forall i: nat ensures OccursAt(s, sub, i + 1) <==> OccursAt(s[1..], sub, i) {
          if i + 1 + |sub| <= |s| {
            var t := s[1..];
            assert |t| == |s| - 1;
            var a, b := t[i..i + |sub|], s[i + 1..i + 1 + |sub|];
            assert forall k :: 0 <= k < |sub| ==> a[k] == b[k];
            assert a == b;
          }
        }
      }
      assert rest ==> exists i: nat :: OccursAt(s, sub, i) by {
        if rest {
          var j: nat :| OccursAt(s[1..], sub, j);
          assert OccursAt(s, sub, j + 1);
        }
      }
      assert (exists i: nat :: OccursAt(s, sub, i)) ==> rest by {
        if exists i: nat :: OccursAt(s, sub, i) {
          var i: nat :| OccursAt(s, sub, i);
          assert i != 0;
          assert OccursAt(s[1..], sub, i - 1);
        }
      }
      rest
  }

  /** The test that makes a layer eligible for each kind, read in isolation
      (without the priority order). Every layer is eligible for `Other`. */
  predicate Matches(k: Kind, l: Layer) {
    match k
    case Text => l.kind == Some("type")
    case SmartObject => l.smartObject
    case Adjustment => l.kind.Some? && HasInfix(AsciiLower(l.kind.value), "adjustment")
    case Pixel => l.hasPixels
    case Other => true
  }

  /** Position of a kind in the priority order; lower wins. */
  function Rank(k: Kind): nat {
    match k
    case Text => 0
    case SmartObject => 1
    case Adjustment => 2
    case Pixel => 3
    case Other => 4
  }

  /** The kind of a layer: the eligible kind that comes first in the priority
      order text, smart object, adjustment, pixel, other. */
  function LayerType(l: Layer): (r: Kind)
    ensures Matches(r, l)
    ensures forall k :: Matches(k, l) ==> Rank(r) <= Rank(k)
  {
    if l.kind == Some("type") then Text
    else if l.smartObject then SmartObject
    else if l.kind.Some? && HasInfix(AsciiLower(l.kind.value), "adjustment") then Adjustment
    else if l.hasPixels then Pixel
    else Other
  }

  /** Two different kinds never share a rank, so the priority order picks
      exactly one kind for every layer. */
  lemma {:induction false} LayerTypeIsUnique(l: Layer, k: Kind)
    requires Matches(k, l)
    requires forall k' :: Matches(k', l) ==> Rank(k) <= Rank(k')
    ensures LayerType(l) == k
  {
    var r := LayerType(l);
    assert Rank(r) <= Rank(k) && Rank(k) <= Rank(r);
    match k
    case Text =>
    case SmartObject =>
    case Adjustment =>
    case Pixel =>
    case Other =>
  }
}
