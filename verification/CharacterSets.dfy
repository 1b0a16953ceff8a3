/** The sets a lexer searches (language.go:420-437): a bisection over sorted ranges. */
module CharacterSets {
  import opened EditSpec
  import opened TableWire

  predicate Holds(r: CharacterRange, c: int) { r.start <= c <= r.end }

  /** Ranges in order, none empty and no two sharing a code point. */
  predicate Sorted(rs: seq<CharacterRange>) {
    && (forall i :: 0 <= i < |rs| ==> rs[i].start <= rs[i].end)
    && (forall i, j :: 0 <= i < j < |rs| ==> rs[i].end < rs[j].start)
  }

  /** SetContains: true exactly when some range holds the code point.  None is its panic on an empty set. */
  method SetContains(rs: seq<CharacterRange>, lookahead: int) returns (found: Option<bool>)
    requires Sorted(rs)
    ensures found.None? <==> rs == []
    ensures found.Some? ==> (found.value <==> exists i :: 0 <= i < |rs| && Holds(rs[i], lookahead))
  {
    if rs == [] { return None; }
    var index, size := 0, |rs|;
    while size > 1
      invariant 1 <= size && 0 <= index && index + size <= |rs|
      invariant forall i :: 0 <= i < |rs| && Holds(rs[i], lookahead) ==> index <= i < index + size
    {
      var halfSize := size / 2;
      var midIndex := index + halfSize;
      var r := rs[midIndex];
      if r.start <= lookahead <= r.end {
        assert Holds(rs[midIndex], lookahead);
        return Some(true);
      } else if lookahead > r.end {
        index := midIndex;
      }
      size := size - halfSize;
    }
    found := Some(rs[index].start <= lookahead <= rs[index].end);
    assert found.value <==> Holds(rs[index], lookahead);
  }
}
