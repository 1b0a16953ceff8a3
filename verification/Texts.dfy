/** Documents as byte sequences, and what an edit leaves of them. */
module Texts {
  import opened Lengths

  type Text = seq<int>

  function Min(a: int, b: int): int {
    if a < b then a else b
  }

  /** The bytes at [from, from + len), as far as the document goes. */
  function Window(d: Text, from: nat, len: nat): Text {
    d[Min(from, |d|)..Min(from + len, |d|)]
  }

  /** A reader that looks at len bytes from p0 in d0 sees exactly what it would see from p
      in d, including whether it runs into the end of the input. */
  predicate SameText(d0: Text, p0: nat, d: Text, p: nat, len: nat) {
    && Window(d0, p0, len) == Window(d, p, len)
    && (p0 + len > |d0| <==> p + len > |d|)
  }

  /** Replaces the bytes [s, o). */
  function Splice(d: Text, s: nat, o: nat, inserted: Text): Text
    requires s <= o <= |d|
  {
    d[..s] + inserted + d[o..]
  }

  /** Every window inside [p, p + limit) of d reads the same from p' in d'. */
  ghost predicate Carries(d: Text, p: nat, d': Text, p': nat, limit: int) {
    forall q: nat, q': nat, len: nat ::
      p <= q && q - p == q' - p' && q + len <= p + limit ==> SameText(d, q, d', q', len)
  }

  lemma CarriesBefore(d: Text, s: nat, o: nat, inserted: Text, p: nat)
    requires p <= s <= o <= |d|
    ensures Carries(d, p, Splice(d, s, o, inserted), p, s - p)
  {
  }

  lemma CarriesAfter(d: Text, s: nat, o: nat, inserted: Text, p: nat, limit: int)
    requires s <= o <= |d| && p >= o
    ensures Carries(d, p, Splice(d, s, o, inserted), s + |inserted| + (p - o), limit)
  {
    var d' := Splice(d, s, o, inserted);
    forall q: nat, q': nat, len: nat | p <= q && q - o == q' - s - |inserted| && q + len <= p + limit
      ensures SameText(d, q, d', q', len)
    {
      var a, b := Window(d, q, len), Window(d', q', len);
      assert |a| == |b|;
      forall i | 0 <= i < |a| ensures a[i] == b[i] {
        assert a[i] == d[q + i] && b[i] == d'[q' + i];
      }
    }
  }

  lemma CarriesNothing(d: Text, p: nat, d': Text, p': nat)
    requires p <= |d| && p' <= |d'|
    ensures Carries(d, p, d', p', 0)
  {
  }

  lemma CarriesFrom(d: Text, p: nat, d': Text, p': nat, limit: int, x: nat)
    requires Carries(d, p, d', p', limit)
    ensures Carries(d, p + x, d', p' + x, limit - x)
  {
  }
}
