/** Any number of edits between two parses: what the marks still guarantee. */
module EditRuns {
  import opened Lengths
  import opened Trees
  import opened Texts
  import opened EditSpec
  import opened EditBytes
  import opened EditReuse

  /** One call of Tree.Edit together with the bytes it puts into the document. */
  datatype DocEdit = DocEdit(span: EditSpan, inserted: Text)

  predicate Valid(d: Text, x: DocEdit) {
    && x.span.start.bytes <= x.span.oldEnd.bytes <= |d|
    && x.span.newEnd.bytes == x.span.start.bytes + |x.inserted|
  }

  function ApplyTo(d: Text, x: DocEdit): Text
    requires Valid(d, x)
  {
    Splice(d, x.span.start.bytes, x.span.oldEnd.bytes, x.inserted)
  }

  ghost predicate ValidRun(d: Text, xs: seq<DocEdit>)
    decreases |xs|
  {
    xs == [] || (Valid(d, xs[0]) && ValidRun(ApplyTo(d, xs[0]), xs[1..]))
  }

  function EditedText(d: Text, xs: seq<DocEdit>): Text
    requires ValidRun(d, xs)
    decreases |xs|
  {
    if xs == [] then d else EditedText(ApplyTo(d, xs[0]), xs[1..])
  }

  function EditedTree(t: Tree, xs: seq<DocEdit>): Tree
    decreases |xs|
  {
    if xs == [] then t else EditedTree(Edit(t, xs[0].span), xs[1..])
  }

  /** Every parent's reach covers its children's, which re-summarising a node establishes. */
  ghost predicate Covered(t: Tree)
    decreases t, 1
  {
    match t
    case Inline(_) => true
    case Node(_, cs) => CoveredAll(cs, 0, t.Total().bytes + t.Lookahead())
  }

  ghost predicate CoveredAll(cs: seq<Tree>, x: nat, limit: nat)
    decreases cs, 0
  {
    cs != [] ==>
      && x + cs[0].Total().bytes + cs[0].Lookahead() <= limit
      && Covered(cs[0])
      && CoveredAll(cs[1..], x + cs[0].Total().bytes, limit)
  }

  lemma {:induction false} CoveredIsSound(t: Tree, p: nat, d: Text, limit: int)
    requires Covered(t) && p + t.Total().bytes + t.Lookahead() <= limit
    ensures Sound(t, p, d, t, p, d, limit)
    decreases t, 1
  {
    if t.Node? {
      CoveredAllIsSound(t.children, p, 0, d, t.Total().bytes + t.Lookahead());
    }
  }

  lemma {:induction false} CoveredAllIsSound(cs: seq<Tree>, p: nat, x: nat, d: Text, limit: nat)
    requires CoveredAll(cs, x, limit)
    ensures SoundAll(cs, p + x, d, cs, p + x, d, p + limit)
    decreases cs, 0
  {
    if cs != [] {
      CoveredIsSound(cs[0], p + x, d, p + limit);
      CoveredAllIsSound(cs[1..], p, x + cs[0].Total().bytes, d, limit);
    }
  }

  /** The descendant reached by child indices, with its byte position. */
  function At(t: Tree, p: nat, path: seq<nat>): Option<(Tree, nat)>
    decreases |path|
  {
    if path == [] then Some((t, p))
    else if path[0] < |t.Children()| then
      At(t.Children()[path[0]], p + Bytes(t.Children()[..path[0]]), path[1..])
    else None
  }

  lemma {:induction false} SoundAllAt(cs0: seq<Tree>, p0: nat, d0: Text, cs: seq<Tree>, p: nat, d: Text, limit: int, i: nat)
    requires SoundAll(cs0, p0, d0, cs, p, d, limit) && i < |cs|
    ensures |cs0| == |cs|
    ensures Sound(cs0[i], p0 + Bytes(cs0[..i]), d0, cs[i], p + Bytes(cs[..i]), d, limit)
    decreases i
  {
    if i > 0 {
      SoundAllAt(cs0[1..], p0 + cs0[0].Total().bytes, d0, cs[1..], p + cs[0].Total().bytes, d, limit, i - 1);
      assert cs[..i][1..] == cs[1..][..i - 1] && cs0[..i][1..] == cs0[1..][..i - 1];
    }
  }

  lemma {:induction false} SoundAt(t0: Tree, p0: nat, d0: Text, t: Tree, p: nat, d: Text, limit: int, path: seq<nat>)
    requires Sound(t0, p0, d0, t, p, d, limit)
    requires At(t, p, path).Some? && !At(t, p, path).value.0.HasChanges()
    ensures var (node, at) := At(t, p, path).value;
            exists at0 :: At(t0, p0, path) == Some((node, at0))
                       && SameText(d0, at0, d, at, node.Total().bytes + node.Lookahead())
    decreases |path|
  {
    hide SameText, SoundAll, Bytes, Min;
    if path != [] {
      var i, w := path[0], p + t.Total().bytes + t.Lookahead();
      SoundAllAt(t0.Children(), p0, d0, t.Children(), p, d, Min(limit, w), i);
      SoundAt(t0.Children()[i], p0 + Bytes(t0.Children()[..i]), d0,
              t.Children()[i], p + Bytes(t.Children()[..i]), d, Min(limit, w), path[1..]);
    }
  }

  lemma {:induction false} RunSound(t0: Tree, d0: Text, t: Tree, d: Text, xs: seq<DocEdit>)
    requires Consistent(t) && ValidRun(d, xs)
    requires Sound(t0, 0, d0, t, 0, d, t.Total().bytes + t.Lookahead())
    ensures var t' := EditedTree(t, xs);
            Consistent(t') && Sound(t0, 0, d0, t', 0, EditedText(d, xs), t'.Total().bytes + t'.Lookahead())
    decreases |xs|
  {
    hide Edit, Sound, Consistent, Splice;
    if xs != [] {
      var e, s, o, n := xs[0].span, xs[0].span.start.bytes, xs[0].span.oldEnd.bytes, xs[0].span.newEnd.bytes;
      var width, look := t.Total().bytes, t.Lookahead();
      EditKeepsConsistent(t, e);
      OwnReachMoves(Facing, width, look, 0, 0, e, s, o, n);
      EditLookahead(t, e);
      EditSound(t0, 0, d0, t, 0, d, width + look, Facing, 0, e, s, o, xs[0].inserted, NewTotal(width, e) + look);
      RunSound(t0, d0, Edit(t, e), ApplyTo(d, xs[0]), xs[1..]);
    }
  }

  lemma EditLookahead(t: Tree, e: EditSpan)
    ensures Edit(t, e).Lookahead() == t.Lookahead()
  {
  }

  /** Main result.  After any run of edits to a freshly parsed tree, a node that is not
      marked is, unchanged, the node at the same place of the original tree, and every byte
      its tokens looked at (and whether they met the end of the input) is what it was. */
  lemma UnmarkedNodesKeepTheirText(t0: Tree, d0: Text, xs: seq<DocEdit>, path: seq<nat>)
    requires Consistent(t0) && Covered(t0) && ValidRun(d0, xs)
    requires At(EditedTree(t0, xs), 0, path).Some?
    requires !At(EditedTree(t0, xs), 0, path).value.0.HasChanges()
    ensures var (node, at) := At(EditedTree(t0, xs), 0, path).value;
            exists at0 :: At(t0, 0, path) == Some((node, at0))
                       && SameText(d0, at0, EditedText(d0, xs), at, node.Total().bytes + node.Lookahead())
  {
    hide *;
    CoveredIsSound(t0, 0, d0, t0.Total().bytes + t0.Lookahead());
    RunSound(t0, d0, t0, d0, xs);
    var t := EditedTree(t0, xs);
    SoundAt(t0, 0, d0, t, 0, EditedText(d0, xs), t.Total().bytes + t.Lookahead(), path);
  }
}
