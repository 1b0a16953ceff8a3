/** The cursor that offers an edited tree's nodes to the next parse (reusable.go, parser_core.go:370-433). */
module ReuseCursor {
  import opened Lengths
  import opened Trees
  import opened Texts
  import opened EditSpec
  import opened Summaries
  import opened Rotation
  import opened EditRuns
  import EditBytes
  import GoodTrees

  /** The leaves of a run of siblings, in order. */
  function LeafTrees(cs: seq<Tree>): seq<Tree>
    decreases cs
  {
    if cs == [] then [] else
    (match cs[0]
     case Inline(_) => [cs[0]]
     case Node(_, ds) => if ds == [] then [cs[0]] else LeafTrees(ds))
    + LeafTrees(cs[1..])
  }

  lemma {:induction false} LeafTreesAppend(a: seq<Tree>, b: seq<Tree>)
    ensures LeafTrees(a + b) == LeafTrees(a) + LeafTrees(b)
    decreases |a|
  {
    if a == [] {
      assert a + b == b;
    } else {
      assert (a + b)[0] == a[0] && (a + b)[1..] == a[1..] + b;
      LeafTreesAppend(a[1..], b);
    }
  }

  lemma {:induction false} BytesAppend(a: seq<Tree>, b: seq<Tree>)
    ensures Bytes(a + b) == Bytes(a) + Bytes(b)
    decreases |a|
  {
    if a == [] {
      assert a + b == b;
    } else {
      assert (a + b)[0] == a[0] && (a + b)[1..] == a[1..] + b;
      BytesAppend(a[1..], b);
    }
  }

  /** In a byte-consistent tree the leaves span what the nodes span. */
  lemma {:induction false} LeafBytes(cs: seq<Tree>)
    requires AllConsistent(cs)
    ensures Bytes(LeafTrees(cs)) == Bytes(cs)
    decreases cs
  {
    if cs != [] {
      var head := match cs[0] case Inline(_) => [cs[0]] case Node(_, ds) => if ds == [] then [cs[0]] else LeafTrees(ds);
      LeafBytes(cs[1..]);
      BytesAppend(head, LeafTrees(cs[1..]));
      if cs[0].Children() != [] {
        LeafBytes(cs[0].children);
      } else {
        assert [cs[0]][1..] == [];
      }
    }
  }

  // ---------------------------------------------------------------- external tokens

  /** A node with children is flagged as holding external tokens exactly when a child is. */
  ghost predicate Flagged(t: Tree)
    decreases t
  {
    match t
    case Inline(_) => true
    case Node(d, cs) =>
      && (cs != [] ==> d.hasExternalTokens == AnyExternal(cs))
      && forall i :: 0 <= i < |cs| ==> Flagged(cs[i])
  }

  predicate AnyExternal(cs: seq<Tree>) {
    exists i :: 0 <= i < |cs| && HasExternalTokens(cs[i])
  }

  lemma {:induction false} GoodIsFlagged(lang: Language, t: Tree)
    requires Good(lang, t)
    ensures Flagged(t)
    decreases t
  {
    if t.Node? {
      hide Summarised;
      forall i | 0 <= i < |t.children| ensures Flagged(t.children[i]) {
        GoodIsFlagged(lang, t.children[i]);
      }
      if t.children != [] {
        ExternalOfSum(lang, t);
        SigExternal(lang, t.data.productionId, 0, t.children, ErrorClass(t.data.symbol));
      }
    }
  }

  lemma ExternalOfSum(lang: Language, t: Tree)
    requires Summarised(lang, t) && t.Children() != []
    ensures var s := ListSig(lang, t.data.productionId, 0, t.children, ErrorClass(t.data.symbol));
      s.Sig? && t.data.hasExternalTokens == s.external
  {
    hide ListSig;
  }

  lemma {:induction false} SigExternal(lang: Language, p: nat, i: nat, cs: seq<Tree>, err: bool)
    ensures cs != [] ==> ListSig(lang, p, i, cs, err).Sig? && ListSig(lang, p, i, cs, err).external == AnyExternal(cs)
    decreases |cs|
  {
    hide ChildCost, ChildVisible, ChildNamed, ChildDescendants;
    if cs != [] {
      SigExternal(lang, p, NextIndex(i, cs[0]), cs[1..], err);
      AnyExternalStep(cs);
    }
  }

  lemma AnyExternalStep(cs: seq<Tree>)
    requires cs != []
    ensures AnyExternal(cs) == (HasExternalTokens(cs[0]) || AnyExternal(cs[1..]))
  {
    if AnyExternal(cs[1..]) {
      var k :| 0 <= k < |cs[1..]| && HasExternalTokens(cs[1..][k]);
      assert HasExternalTokens(cs[k + 1]);
    }
    if AnyExternal(cs) && !HasExternalTokens(cs[0]) {
      var k :| 0 <= k < |cs| && HasExternalTokens(cs[k]);
      assert HasExternalTokens(cs[1..][k - 1]);
    }
  }

  /** The external tokens among the leaves. */
  function Externals(ls: seq<Tree>): seq<Tree> {
    if ls == [] then [] else (if HasExternalTokens(ls[0]) then [ls[0]] else []) + Externals(ls[1..])
  }

  lemma {:induction false} ExternalsAppend(a: seq<Tree>, b: seq<Tree>)
    ensures Externals(a + b) == Externals(a) + Externals(b)
    decreases |a|
  {
    hide HasExternalTokens;
    if a == [] {
      assert a + b == b;
    } else {
      assert (a + b)[0] == a[0] && (a + b)[1..] == a[1..] + b;
      ExternalsAppend(a[1..], b);
    }
  }

  lemma {:induction false} UnflaggedEmpty(cs: seq<Tree>)
    requires (forall i :: 0 <= i < |cs| ==> Flagged(cs[i])) && !AnyExternal(cs)
    ensures Externals(LeafTrees(cs)) == []
    decreases cs
  {
    if cs != [] {
      AnyExternalStep(cs);
      UnflaggedEmpty(cs[1..]);
      if cs[0].Children() != [] {
        UnflaggedEmpty(cs[0].children);
        ExternalsAppend(LeafTrees(cs[0].children), LeafTrees(cs[1..]));
      }
    }
  }

  /** The last external token below t, if there is one. */
  function LastExternal(t: Tree): Option<Tree> {
    var tokens := Externals(LeafTrees([t]));
    if tokens == [] then None else Some(tokens[|tokens| - 1])
  }

  lemma UnflaggedRest(t: Tree, i: nat)
    requires Flagged(t) && i < |t.Children()| && forall j :: i < j < |t.Children()| ==> !HasExternalTokens(t.Children()[j])
    ensures Externals(LeafTrees(t.Children()[i + 1..])) == []
  {
    var rest := t.Children()[i + 1..];
    assert forall j :: 0 <= j < |rest| ==> rest[j] == t.Children()[i + 1 + j];
    UnflaggedEmpty(rest);
    hide LeafTrees, Externals;
  }

  /** The last external token once t has been passed. */
  function TokenAfter(t: Tree, token: Option<Tree>): Option<Tree> { if HasExternalTokens(t) then LastExternal(t) else token }

  lemma TokensBelow(t: Tree)
    requires t.Children() != []
    ensures LeafTrees([t]) == LeafTrees(t.Children())
  {
    assert [t][1..] == [] && LeafTrees([t]) == LeafTrees(t.children) + LeafTrees([]);
    assert LeafTrees(t.children) + [] == LeafTrees(t.children);
  }

  lemma LastStep(t: Tree, i: nat)
    requires Flagged(t) && i < |t.Children()| && HasExternalTokens(t.Children()[i])
    requires forall j :: i < j < |t.Children()| ==> !HasExternalTokens(t.Children()[j])
    requires LastExternal(t.Children()[i]).Some?
    ensures LastExternal(t) == LastExternal(t.Children()[i])
  {
    hide *;
    TokensBelow(t);
    UnflaggedRest(t, i);
    var cs := t.Children();
    SplitAt(cs, i);
    ExternalsBefore(cs[..i], [cs[i]], cs[i + 1..]);
    LastToken(t, Externals(LeafTrees(cs[..i])), Externals(LeafTrees([cs[i]])));
    LastToken(cs[i], [], Externals(LeafTrees([cs[i]])));
  }

  lemma SplitAt(cs: seq<Tree>, i: nat)
    requires i < |cs|
    ensures cs == (cs[..i] + [cs[i]]) + cs[i + 1..]
  {
  }

  lemma LastToken(t: Tree, a: seq<Tree>, b: seq<Tree>)
    requires Externals(LeafTrees([t])) == a + b
    ensures if b != [] then LastExternal(t) == Some(b[|b| - 1]) else a == [] ==> LastExternal(t).None?
  {
    hide Externals, LeafTrees;
  }

  lemma ExternalsBefore(a: seq<Tree>, b: seq<Tree>, c: seq<Tree>)
    requires Externals(LeafTrees(c)) == []
    ensures Externals(LeafTrees((a + b) + c)) == Externals(LeafTrees(a)) + Externals(LeafTrees(b))
  {
    hide *;
    LeafTreesAppend(a + b, c);
    LeafTreesAppend(a, b);
    ExternalsAppend(LeafTrees(a + b), LeafTrees(c));
    ExternalsAppend(LeafTrees(a), LeafTrees(b));
  }

  /** A flagged tree has a last external token. */
  lemma {:induction false} FlaggedHasOne(t: Tree)
    requires Flagged(t) && HasExternalTokens(t)
    ensures LastExternal(t).Some? && HasExternalTokens(LastExternal(t).value)
    decreases t
  {
    if t.children == [] {
      assert [t][1..] == [] && LeafTrees([t]) == [t] + LeafTrees([]);
      assert Externals([t]) == [t];
    } else {
      var i := LastFlagged(t.children);
      FlaggedHasOne(t.children[i]);
      LastStep(t, i);
    }
  }

  lemma {:induction false} LastFlagged(cs: seq<Tree>) returns (i: nat)
    requires AnyExternal(cs)
    ensures i < |cs| && HasExternalTokens(cs[i]) && forall j :: i < j < |cs| ==> !HasExternalTokens(cs[j])
  {
    var k := |cs|;
    while !HasExternalTokens(cs[k - 1])
      invariant 0 < k <= |cs| && forall j :: k <= j < |cs| ==> !HasExternalTokens(cs[j])
      decreases k
    {
      k := k - 1;
    }
    i := k - 1;
  }

  /** subtreeLastExternalToken: down the last flagged child. */
  method LastExternalToken(t: Tree) returns (r: Option<Tree>)
    requires Flagged(t)
    ensures r == if HasExternalTokens(t) then LastExternal(t) else None
  {
    if !HasExternalTokens(t) { return None; }
    var tree := t;
    while |tree.Children()| > 0
      invariant Flagged(tree) && HasExternalTokens(tree) && LastExternal(tree) == LastExternal(t)
      decreases tree
    {
      var children := tree.Children();
      var i := |children| - 1;
      while i >= 0 && !HasExternalTokens(children[i])
        invariant -1 <= i < |children|
        invariant forall j :: i < j < |children| ==> !HasExternalTokens(children[j])
      {
        i := i - 1;
      }
      FlaggedHasOne(children[i]);
      LastStep(tree, i);
      tree := children[i];
    }
    FlaggedHasOne(tree);
    LeafIsLast(tree);
    return Some(tree);
  }

  lemma LeafIsLast(t: Tree)
    requires t.Children() == [] && HasExternalTokens(t)
    ensures LastExternal(t) == Some(t)
  {
    assert [t][1..] == [] && LeafTrees([t]) == [t] + LeafTrees([]);
    assert Externals([t]) == [t];
  }

  // ---------------------------------------------------------------- the cursor

  datatype Entry = Entry(tree: Tree, childIndex: nat, byteOffset: nat)

  /** Each entry is a child of the one before, at the offset its elder siblings leave. */
  ghost predicate Chain(root: Tree, stack: seq<Entry>)
    decreases |stack|
  {
    if stack == [] then true
    else if |stack| == 1 then stack[0] == Entry(root, 0, 0)
    else
      var p, e := stack[|stack| - 2], stack[|stack| - 1];
      && Chain(root, stack[..|stack| - 1])
      && e.childIndex < |p.tree.Children()| && e.tree == p.tree.Children()[e.childIndex]
      && e.byteOffset == p.byteOffset + Bytes(p.tree.Children()[..e.childIndex])
  }

  /** The trees to the right of the current one, nearest first. */
  function After(stack: seq<Entry>): seq<Tree>
    decreases |stack|
  {
    if |stack| <= 1 then [] else
    var cs, i := stack[|stack| - 2].tree.Children(), stack[|stack| - 1].childIndex + 1;
    (if i <= |cs| then cs[i..] else []) + After(stack[..|stack| - 1])
  }

  /** The current tree and everything to its right. */
  function Ahead(stack: seq<Entry>): seq<Tree> {
    if stack == [] then [] else [stack[|stack| - 1].tree] + After(stack)
  }

  ghost predicate Fine(t: Tree) { Consistent(t) && Flagged(t) }

  lemma FineChildren(t: Tree)
    requires Fine(t)
    ensures forall i :: 0 <= i < |t.Children()| ==> Fine(t.Children()[i])
  {
  }

  lemma FineSpans(t: Tree)
    requires Fine(t) && t.Children() != []
    ensures Bytes(t.Children()) == t.Total().bytes
  {
  }

  lemma {:induction false} ChainUnfold(root: Tree, stack: seq<Entry>)
    requires Chain(root, stack) && stack != []
    ensures |stack| == 1 ==> stack[0] == Entry(root, 0, 0) && After(stack) == []
    ensures |stack| >= 2 ==>
      var n := |stack| - 1;
      var cs := stack[n - 1].tree.Children();
      && Chain(root, stack[..n]) && stack[n].childIndex < |cs| && stack[n].tree == cs[stack[n].childIndex]
      && stack[n].byteOffset == stack[n - 1].byteOffset + Bytes(cs[..stack[n].childIndex])
      && After(stack) == cs[stack[n].childIndex + 1..] + After(stack[..n])
  {
    hide Bytes;
  }

  lemma {:induction false} ChainFine(root: Tree, stack: seq<Entry>)
    requires Chain(root, stack) && stack != [] && Fine(root)
    ensures Fine(stack[|stack| - 1].tree)
    decreases |stack|
  {
    hide Fine, Chain, After, Bytes;
    ChainUnfold(root, stack);
    if |stack| >= 2 {
      ChainFine(root, stack[..|stack| - 1]);
      FineChildren(stack[|stack| - 2].tree);
    }
  }

  lemma BytesSplit(cs: seq<Tree>, i: nat)
    requires i < |cs|
    ensures Bytes(cs) == Bytes(cs[..i]) + cs[i].Total().bytes + Bytes(cs[i + 1..])
  {
    hide Bytes;
    assert cs == cs[..i] + ([cs[i]] + cs[i + 1..]);
    BytesAppend(cs[..i], [cs[i]] + cs[i + 1..]);
    BytesAppend([cs[i]], cs[i + 1..]);
    BytesOne(cs[i]);
  }

  /** The bytes passed and the trees ahead span the whole root. */
  lemma {:induction false} ChainFacts(root: Tree, stack: seq<Entry>)
    requires Chain(root, stack) && stack != [] && Fine(root)
    ensures var e := stack[|stack| - 1];
      e.byteOffset + e.tree.Total().bytes + Bytes(After(stack)) == root.Total().bytes
    decreases |stack|
  {
    hide Fine, Chain, After, Bytes;
    ChainUnfold(root, stack);
    if |stack| == 1 {
      BytesNone();
    } else {
      var n := |stack| - 1;
      var p, e := stack[n - 1], stack[n];
      ChainFacts(root, stack[..n]);
      ChainFine(root, stack[..n]);
      FineSpans(p.tree);
      BytesSplit(p.tree.Children(), e.childIndex);
      BytesAppend(p.tree.Children()[e.childIndex + 1..], After(stack[..n]));
    }
  }

  lemma BytesNone()
    ensures Bytes([]) == 0
  {
  }

  lemma BytesOne(t: Tree)
    ensures Bytes([t]) == t.Total().bytes
  {
    assert [t][1..] == [];
  }

  /** Where the cursor stands once it has left the top entry, and what is still to its right. */
  lemma {:induction false} PopStep(root: Tree, stack: seq<Entry>)
    requires Chain(root, stack) && |stack| >= 2 && Fine(root)
    ensures var n := |stack| - 1;
      var p, e := stack[n - 1], stack[n];
      var cs, i := p.tree.Children(), e.childIndex + 1;
      && Chain(root, stack[..n]) && i <= |cs|
      && e.byteOffset + e.tree.Total().bytes == p.byteOffset + Bytes(cs[..i])
      && After(stack) == cs[i..] + After(stack[..n])
      && (i == |cs| ==> cs[i..] == [] && e.byteOffset + e.tree.Total().bytes == p.byteOffset + p.tree.Total().bytes)
  {
    hide Fine, Chain, After, Bytes;
    var n := |stack| - 1;
    var p, e := stack[n - 1], stack[n];
    var cs, i := p.tree.Children(), e.childIndex + 1;
    ChainUnfold(root, stack);
    assert cs[..i] == cs[..e.childIndex] + [e.tree];
    BytesAppend(cs[..e.childIndex], [e.tree]);
    BytesOne(e.tree);
    if i == |cs| {
      ChainFine(root, stack[..n]);
      FineSpans(p.tree);
      assert cs[..i] == cs;
    }
  }

  /** The node the stack stands on, as a path of child indices from the root. */
  function PathOf(stack: seq<Entry>): seq<nat>
    decreases |stack|
  {
    if |stack| <= 1 then [] else PathOf(stack[..|stack| - 1]) + [stack[|stack| - 1].childIndex]
  }

  lemma {:induction false} AtStep(t: Tree, p: nat, path: seq<nat>, i: nat)
    requires At(t, p, path).Some? && i < |At(t, p, path).value.0.Children()|
    ensures var (node, at) := At(t, p, path).value;
      var below: (Tree, nat) := (node.Children()[i], at + Bytes(node.Children()[..i]));
      At(t, p, path + [i]) == Some(below)
    decreases |path|
  {
    if path == [] {
      assert [i][1..] == [] && path + [i] == [i];
    } else {
      assert (path + [i])[0] == path[0] && (path + [i])[1..] == path[1..] + [i];
      AtStep(t.Children()[path[0]], p + Bytes(t.Children()[..path[0]]), path[1..], i);
    }
  }

  /** byteOffset is where the current node stands in the tree. */
  lemma {:induction false} ChainIsAt(root: Tree, stack: seq<Entry>)
    requires Chain(root, stack) && stack != []
    ensures var top: (Tree, nat) := (stack[|stack| - 1].tree, stack[|stack| - 1].byteOffset);
      At(root, 0, PathOf(stack)) == Some(top)
    decreases |stack|
  {
    var n := |stack| - 1;
    if n > 0 {
      ChainIsAt(root, stack[..n]);
      AtStep(root, 0, PathOf(stack[..n]), stack[n].childIndex);
    }
  }

  lemma {:induction false} ChainPush(root: Tree, stack: seq<Entry>, e: Entry)
    requires Chain(root, stack) && stack != []
    requires var p := stack[|stack| - 1];
      e.childIndex < |p.tree.Children()| && e.tree == p.tree.Children()[e.childIndex]
      && e.byteOffset == p.byteOffset + Bytes(p.tree.Children()[..e.childIndex])
    ensures Chain(root, stack + [e])
    ensures After(stack + [e]) == stack[|stack| - 1].tree.Children()[e.childIndex + 1..] + After(stack)
  {
    var pushed := stack + [e];
    assert pushed[..|stack|] == stack && |pushed| >= 2 && pushed[|pushed| - 2] == stack[|stack| - 1];
    hide Bytes;
  }

  lemma AheadNone()
    ensures Ahead([]) == []
  {
  }

  lemma RootChain(root: Tree)
    ensures Chain(root, [Entry(root, 0, 0)]) && After([Entry(root, 0, 0)]) == []
    ensures forall cs: seq<Tree> :: cs + After([Entry(root, 0, 0)]) == cs
  {
  }

  lemma EmptyChain(root: Tree)
    ensures Chain(root, [])
  {
  }

  lemma FineFlagged(t: Tree)
    requires Fine(t)
    ensures Flagged(t)
  {
  }

  /** Entering child i puts the children from i on ahead. */
  lemma {:induction false} PushAhead(root: Tree, stack: seq<Entry>, e: Entry)
    requires Chain(root, stack) && stack != []
    requires var p := stack[|stack| - 1];
      e.childIndex < |p.tree.Children()| && e.tree == p.tree.Children()[e.childIndex]
      && e.byteOffset == p.byteOffset + Bytes(p.tree.Children()[..e.childIndex])
    ensures Chain(root, stack + [e])
    ensures Ahead(stack + [e]) == stack[|stack| - 1].tree.Children()[e.childIndex..] + After(stack)
  {
    hide Chain, After, Bytes;
    ChainPush(root, stack, e);
    var cs := stack[|stack| - 1].tree.Children();
    assert cs[e.childIndex..] == [cs[e.childIndex]] + cs[e.childIndex + 1..];
  }

  lemma {:induction false} DescendLeaves(stack: seq<Entry>)
    requires stack != [] && stack[|stack| - 1].tree.Children() != []
    ensures LeafTrees(stack[|stack| - 1].tree.Children() + After(stack)) == LeafTrees(Ahead(stack))
  {
    hide After;
    var t, rest := stack[|stack| - 1].tree, After(stack);
    assert ([t] + rest)[1..] == rest;
    LeafTreesAppend(t.children, rest);
  }

  lemma {:induction false} LeafFirst(stack: seq<Entry>)
    requires stack != [] && stack[|stack| - 1].tree.Children() == []
    ensures LeafTrees(Ahead(stack)) == [stack[|stack| - 1].tree] + LeafTrees(After(stack))
  {
    hide After;
    var leaf, rest := stack[|stack| - 1].tree, After(stack);
    assert ([leaf] + rest)[1..] == rest;
  }

  class ReusableNode {
    ghost var root: Tree
    var stack: seq<Entry>
    var lastExternalToken: Option<Tree>

    ghost predicate Valid()
      reads this
    {
      Fine(root) && Chain(root, stack)
    }

    constructor (ghost t: Tree)
      requires Fine(t)
      ensures Valid() && stack == [] && root == t && lastExternalToken == None
    {
      root, stack, lastExternalToken := t, [], None;
    }

    function Current(): Option<Tree>
      reads this
    {
      if stack == [] then None else Some(stack[|stack| - 1].tree)
    }

    method Clear()
      modifies this
      ensures stack == [] && lastExternalToken == None && root == old(root)
    {
      stack, lastExternalToken := [], None;
    }

    /** Steps over the current tree: what is ahead loses its first tree. */
    method Advance()
      requires Valid() && stack != []
      modifies this`stack, this`lastExternalToken
      ensures Valid() && Ahead(stack) == After(old(stack))
      ensures stack != [] ==>
        stack[|stack| - 1].byteOffset == old(stack[|stack| - 1].byteOffset + stack[|stack| - 1].tree.Total().bytes)
      ensures lastExternalToken == TokenAfter(old(stack[|stack| - 1].tree), old(lastExternalToken))
    {
      hide Fine, Chain, After, Bytes, Ahead;
      var lastEntry := stack[|stack| - 1];
      ChainFine(root, stack);
      FineFlagged(lastEntry.tree);
      if HasExternalTokens(lastEntry.tree) {
        lastExternalToken := LastExternalToken(lastEntry.tree);
      }
      Leave(lastEntry.byteOffset + lastEntry.tree.Total().bytes);
    }

    /** Pops entries until one has a next child, and enters that child at `byteOffset`. */
    method Leave(byteOffset: nat)
      requires Valid() && stack != []
      requires byteOffset == stack[|stack| - 1].byteOffset + stack[|stack| - 1].tree.Total().bytes
      modifies this`stack
      ensures Valid() && Ahead(stack) == After(old(stack))
      ensures stack != [] ==> stack[|stack| - 1].byteOffset == byteOffset
    {
      hide Fine, Chain, After, Bytes, Ahead;
      AheadNone();
      ghost var after := After(stack);
      while true
        invariant Fine(root) && Chain(root, stack) && stack != [] && After(stack) == after
        invariant stack[|stack| - 1].byteOffset + stack[|stack| - 1].tree.Total().bytes == byteOffset
        decreases |stack|
      {
        var popped := stack[|stack| - 1];
        var nextIndex := popped.childIndex + 1;
        ChainUnfold(root, stack);
        ghost var whole := stack;
        stack := stack[..|stack| - 1];
        if |stack| == 0 {
          EmptyChain(root);
          return;
        }
        PopStep(root, whole);
        var cs := stack[|stack| - 1].tree.Children();
        ghost var rest := After(stack);
        assert after == cs[nextIndex..] + rest;
        if |cs| > nextIndex {
          var e := Entry(cs[nextIndex], nextIndex, byteOffset);
          PushAhead(root, stack, e);
          assert Ahead(stack + [e]) == after;
          stack := stack + [e];
          return;
        }
        assert [] + rest == rest;
      }
    }

    /** Steps into the current tree; a leaf has nowhere to go. */
    method Descend() returns (moved: bool)
      requires Valid() && stack != []
      modifies this`stack
      ensures Valid() && stack != [] && moved == (old(Current()).value.Children() != [])
      ensures moved ==> Ahead(stack) == old(Current()).value.Children() + After(old(stack))
      ensures moved ==> stack[|stack| - 1].byteOffset == old(stack[|stack| - 1].byteOffset)
      ensures moved ==> stack[|stack| - 1].tree < old(stack[|stack| - 1].tree)
      ensures !moved ==> stack == old(stack)
    {
      var lastEntry := stack[|stack| - 1];
      var cs := lastEntry.tree.Children();
      if |cs| == 0 { return false; }
      var e := Entry(cs[0], 0, lastEntry.byteOffset);
      PushAhead(root, stack, e);
      assert cs[0..] == cs;
      stack := stack + [e];
      moved := true;
    }

    /** Steps over the next leaf, wherever the cursor stands above it. */
    method AdvancePastLeaf() returns (ghost leaf: Tree)
      requires Valid() && stack != []
      modifies this`stack, this`lastExternalToken
      ensures Valid() && LeafTrees(Ahead(old(stack))) == [leaf] + LeafTrees(Ahead(stack))
      ensures stack != [] ==> stack[|stack| - 1].byteOffset == old(stack[|stack| - 1].byteOffset) + leaf.Total().bytes
    {
      hide Fine, Chain, After, Bytes, LeafTrees, Ahead;
      var more := true;
      while more
        invariant Valid() && stack != [] && LeafTrees(Ahead(stack)) == LeafTrees(Ahead(old(stack)))
        invariant stack[|stack| - 1].byteOffset == old(stack[|stack| - 1].byteOffset)
        invariant !more ==> Current().value.Children() == []
        decreases stack[|stack| - 1].tree, more
      {
        ghost var before := stack;
        more := Descend();
        if more {
          DescendLeaves(before);
        }
      }
      leaf := Current().value;
      LeafFirst(stack);
      Advance();
    }

    /** Starts before the first child of t; a tree without children offers nothing. */
    method Reset(t: Tree)
      requires Fine(t)
      modifies this
      ensures Valid() && root == t && lastExternalToken == None && Ahead(stack) == t.Children()
      ensures stack != [] ==> stack[|stack| - 1].byteOffset == 0
    {
      hide Fine, Chain, After, Bytes, Ahead;
      Clear();
      root := t;
      stack := [Entry(t, 0, 0)];
      RootChain(t);
      AheadNone();
      EmptyChain(t);
      var moved := Descend();
      if !moved { Clear(); }
    }
  }

  lemma NoLeaves()
    ensures LeafTrees([]) == [] && LeafTrees(Ahead([])) == [] && Bytes([]) == 0 && InOrder([], [])
  {
  }

  /** Each leaf stands where the leaves before it end. */
  ghost predicate InOrder(leaves: seq<Tree>, offsets: seq<nat>) {
    |offsets| == |leaves| && forall i :: 0 <= i < |leaves| ==> offsets[i] == Bytes(leaves[..i])
  }

  lemma {:induction false} InOrderNext(leaves: seq<Tree>, offsets: seq<nat>, leaf: Tree)
    requires InOrder(leaves, offsets)
    ensures InOrder(leaves + [leaf], offsets + [Bytes(leaves)])
    ensures Bytes(leaves + [leaf]) == Bytes(leaves) + leaf.Total().bytes
  {
    var more := leaves + [leaf];
    assert more[..|leaves|] == leaves;
    assert forall i :: 0 <= i < |leaves| ==> more[..i] == leaves[..i];
    hide Bytes;
    BytesAppend(leaves, [leaf]);
    BytesOne(leaf);
  }

  /** Walking a tree leaf by leaf: each leaf once, in order, at its own offset. */
  method VisitLeaves(r: ReusableNode, t: Tree) returns (ghost leaves: seq<Tree>, offsets: seq<nat>)
    requires Fine(t)
    modifies r
    ensures leaves == LeafTrees(t.Children()) && InOrder(leaves, offsets)
  {
    hide Fine, Chain, After, LeafTrees, InOrder, Bytes, Ahead;
    r.Reset(t);
    leaves, offsets := [], [];
    NoLeaves();
    while r.stack != []
      invariant r.Valid() && r.root == t && InOrder(leaves, offsets)
      invariant LeafTrees(t.Children()) == leaves + LeafTrees(Ahead(r.stack))
      invariant r.stack != [] ==> r.stack[|r.stack| - 1].byteOffset == Bytes(leaves)
      decreases |LeafTrees(Ahead(r.stack))|
    {
      offsets := offsets + [r.stack[|r.stack| - 1].byteOffset];
      ghost var leaf := r.AdvancePastLeaf();
      InOrderNext(leaves, offsets[..|offsets| - 1], leaf);
      assert offsets == offsets[..|offsets| - 1] + [Bytes(leaves)];
      assert leaves + ([leaf] + LeafTrees(Ahead(r.stack))) == leaves + [leaf] + LeafTrees(Ahead(r.stack));
      leaves := leaves + [leaf];
    }
    assert leaves + [] == leaves;
  }

  // ---------------------------------------------------------------- reuseNode

  const MAX_OFFSET := 0xFFFF_FFFF

  /** What reuseNode asks of the parser: whether bytes of a window changed their inclusion, whether a
      node's first token may be used in a state, and the state after the stack's top is broken down. */
  datatype Parser<!S> = Parser(rangeDiffers: (nat, nat) -> bool, reusable: (S, Tree) -> bool, brokenDown: S -> S)

  function StateOf(token: Option<Tree>): seq<int> {
    match token case None => [] case Some(t) => t.ScannerState()
  }

  lemma {:induction false} SizeAppend(a: seq<Tree>, b: seq<Tree>)
    ensures CountAll(a + b) == CountAll(a) + CountAll(b)
    decreases |a|
  {
    hide NodeCount;
    if a == [] {
      assert a + b == b;
    } else {
      assert (a + b)[0] == a[0] && (a + b)[1..] == a[1..] + b;
      SizeAppend(a[1..], b);
    }
  }

  lemma {:induction false} AheadShrinks(stack: seq<Entry>)
    requires stack != []
    ensures var t := stack[|stack| - 1].tree;
      && CountAll(After(stack)) < CountAll(Ahead(stack))
      && CountAll(t.Children() + After(stack)) < CountAll(Ahead(stack))
  {
    hide After;
    var t, rest := stack[|stack| - 1].tree, After(stack);
    assert ([t] + rest)[1..] == rest;
    SizeAppend(t.Children(), rest);
  }

  /** A node that may be reused: unchanged, no error, not missing, not fragile, and over bytes whose
      inclusion did not change. */
  predicate Offered<S>(env: Parser<S>, t: Tree, position: nat) {
    && !t.HasChanges() && !t.IsError() && !t.Missing() && !t.Fragile()
    && var end := if t.Symbol() == SYM_END then MAX_OFFSET else position + t.Total().bytes;
       !env.rangeDiffers(position, if t.Symbol() == SYM_END then end else end + t.Lookahead())
  }

  /** The node at the end of a path starts at a byte position. */
  predicate StandsAt(root: Tree, path: seq<nat>, node: Tree, position: nat) {
    var found: (Tree, nat) := (node, position);
    At(root, 0, path) == Some(found)
  }

  lemma CountsFall(ahead: seq<Tree>)
    requires ahead != []
    ensures CountAll(ahead[1..]) < CountAll(ahead) && CountAll(ahead[0].Children() + ahead[1..]) < CountAll(ahead)
  {
    SizeAppend(ahead[0].Children(), ahead[1..]);
  }

  function EndOf(t: Tree, at: nat): nat { if t.Symbol() == SYM_END then MAX_OFFSET else at + t.Total().bytes }

  /** The nodes a search for a position comes to, in order: those that start there, but for the ones below a tree that
      starts earlier and does not reach past it, or below one before which the last external token is not the wanted. */
  function Candidates(ahead: seq<Tree>, at: nat, token: Option<Tree>, wanted: seq<int>, position: nat): seq<Tree>
    decreases CountAll(ahead)
  {
    if ahead == [] || at > position then [] else
    CountsFall(ahead);
    var t, rest := ahead[0], ahead[1..];
    var below, past := t.Children() + rest, at + t.Total().bytes;
    if at < position then
      if EndOf(t, at) > position && t.Children() != [] then Candidates(below, at, token, wanted, position)
      else Candidates(rest, past, TokenAfter(t, token), wanted, position)
    else if StateOf(token) != wanted then Candidates(rest, past, TokenAfter(t, token), wanted, position)
    else
      [t] + if t.Children() != [] then Candidates(below, at, token, wanted, position)
            else Candidates(rest, past, TokenAfter(t, token), wanted, position)
  }

  /** The first of them that may be reused, if its first token may be used in the state by then; each leaf passed
      before it breaks the state down once. */
  function Answer<S>(env: Parser<S>, cs: seq<Tree>, position: nat, state: S): (Option<Tree>, S) {
    if cs == [] then (None, state)
    else if Offered(env, cs[0], position) then (if env.reusable(state, cs[0]) then Some(cs[0]) else None, state)
    else Answer(env, cs[1..], position, if cs[0].Children() == [] then env.brokenDown(state) else state)
  }

  function OffsetOf(stack: seq<Entry>): nat { if stack == [] then 0 else stack[|stack| - 1].byteOffset }

  lemma CandidatesNone(at: nat, token: Option<Tree>, wanted: seq<int>, position: nat)
    ensures Candidates([], at, token, wanted, position) == []
  {
  }

  /** One turn of the search. */
  lemma CandidatesStep(stack: seq<Entry>, token: Option<Tree>, wanted: seq<int>, position: nat)
    requires stack != []
    ensures var t, at := stack[|stack| - 1].tree, stack[|stack| - 1].byteOffset;
      var below, rest, past := t.Children() + After(stack), After(stack), at + t.Total().bytes;
      var cs := Candidates(Ahead(stack), at, token, wanted, position);
      && (at > position ==> cs == [])
      && (at < position ==>
            cs == if EndOf(t, at) > position && t.Children() != [] then Candidates(below, at, token, wanted, position)
                  else Candidates(rest, past, TokenAfter(t, token), wanted, position))
      && (at == position && StateOf(token) != wanted ==>
            cs == Candidates(rest, past, TokenAfter(t, token), wanted, position))
      && (at == position && StateOf(token) == wanted ==>
            cs == [t] + if t.Children() != [] then Candidates(below, at, token, wanted, position)
                        else Candidates(rest, past, TokenAfter(t, token), wanted, position))
  {
    hide After, EndOf, TokenAfter, StateOf;
    assert Ahead(stack)[1..] == After(stack);
  }

  lemma AnswerStep<S>(env: Parser<S>, t: Tree, more: seq<Tree>, position: nat, state: S)
    ensures Answer(env, [], position, state) == (None, state)
    ensures Answer(env, [t] + more, position, state)
         == if Offered(env, t, position) then (if env.reusable(state, t) then Some(t) else None, state)
            else Answer(env, more, position, if t.Children() == [] then env.brokenDown(state) else state)
  {
    assert ([t] + more)[1..] == more;
    hide Offered;
  }

  /** reuseNode.  It ends, answers the first of the nodes it comes to that may be reused, and what it returns stands
      in the tree exactly at the position asked for. */
  method ReuseNode<S>(r: ReusableNode, env: Parser<S>, state0: S, position: nat, lastExternalToken: Option<Tree>)
    returns (result: Option<Tree>, state: S, ghost path: seq<nat>)
    requires r.Valid()
    modifies r
    ensures r.Valid() && r.root == old(r.root)
    ensures (result, state)
         == Answer(env, Candidates(Ahead(old(r.stack)), OffsetOf(old(r.stack)), old(r.lastExternalToken),
                                   StateOf(lastExternalToken), position),
                   position, state0)
    ensures result.Some? ==> StandsAt(r.root, path, result.value, position)
    ensures result.Some? ==>
      && Offered(env, result.value, position) && env.reusable(state, result.value)
      && StateOf(r.lastExternalToken) == StateOf(lastExternalToken)
      && r.Current() == result
  {
    hide Fine, Chain, After, Bytes, Ahead, LeafTrees, LastExternal, PathOf, Candidates, Answer, StateOf, TokenAfter,
      HasExternalTokens, CountAll, NodeCount, At, StandsAt;
    state, path := state0, [];
    ghost var wanted := StateOf(lastExternalToken);
    ghost var goal := Answer(env, Candidates(Ahead(r.stack), OffsetOf(r.stack), r.lastExternalToken, wanted, position),
                             position, state0);
    while r.Current().Some?
      invariant r.Valid() && r.root == old(r.root)
      invariant goal == Answer(env, Candidates(Ahead(r.stack), OffsetOf(r.stack), r.lastExternalToken, wanted, position),
                               position, state)
      decreases CountAll(Ahead(r.stack))
    {
      var t := r.Current().value;
      var byteOffset := r.stack[|r.stack| - 1].byteOffset;
      var endByteOffset := byteOffset + t.Total().bytes;
      if t.Symbol() == SYM_END { endByteOffset := MAX_OFFSET; }
      AheadShrinks(r.stack);
      AheadNone();
      ghost var token, past := r.lastExternalToken, byteOffset + t.Total().bytes;
      CandidatesStep(r.stack, token, wanted, position);
      ghost var more := if t.Children() != [] then
          Candidates(t.Children() + After(r.stack), byteOffset, token, wanted, position)
        else Candidates(After(r.stack), past, TokenAfter(t, token), wanted, position);
      AnswerStep(env, t, more, position, state);
      CandidatesNone(past, TokenAfter(t, token), wanted, position);
      CandidatesNone(0, TokenAfter(t, token), wanted, position);
      if byteOffset > position { return None, state, []; }
      if byteOffset < position {
        var moved := false;
        if endByteOffset > position { moved := r.Descend(); }
        if !moved { r.Advance(); }
        continue;
      }
      if StateOf(r.lastExternalToken) != StateOf(lastExternalToken) {
        r.Advance();
        continue;
      }
      var blocked := t.HasChanges() || t.IsError() || t.Missing() || t.Fragile();
      if !blocked {
        var end := endByteOffset;
        if t.Symbol() != SYM_END { end := endByteOffset + t.Lookahead(); }
        blocked := env.rangeDiffers(byteOffset, end);
      }
      if blocked {
        var moved := r.Descend();
        if !moved {
          r.Advance();
          state := env.brokenDown(state);
        }
        continue;
      }
      if !env.reusable(state, t) {
        var _ := r.AdvancePastLeaf();
        return None, state, [];
      }
      path := PathOf(r.stack);
      StandsHere(r.root, r.stack);
      return Some(t), state, path;
    }
    AheadNone();
    CandidatesNone(OffsetOf(r.stack), r.lastExternalToken, wanted, position);
    NoneAnswered(env, position, state);
    return None, state, [];
  }

  lemma StandsHere(root: Tree, stack: seq<Entry>)
    requires Chain(root, stack) && stack != []
    ensures StandsAt(root, PathOf(stack), stack[|stack| - 1].tree, stack[|stack| - 1].byteOffset)
  {
    ChainIsAt(root, stack);
  }

  lemma NoneAnswered<S>(env: Parser<S>, position: nat, state: S)
    ensures Answer(env, [], position, state) == (None, state)
  {
  }

  // ---------------------------------------------------------------- fit nodes are found

  /** Answering picks the first node that may be reused, if there is one. */
  lemma {:induction false} AnswersFirst<S>(env: Parser<S>, cs: seq<Tree>, position: nat, state: S) returns (k: nat, at: S)
    requires exists c :: c in cs && Offered(env, c, position)
    ensures k < |cs| && Offered(env, cs[k], position) && forall j :: 0 <= j < k ==> !Offered(env, cs[j], position)
    ensures Answer(env, cs, position, state) == (if env.reusable(at, cs[k]) then Some(cs[k]) else None, at)
    decreases |cs|
  {
    hide Offered;
    if Offered(env, cs[0], position) {
      k, at := 0, state;
    } else {
      var c :| c in cs && Offered(env, c, position);
      assert c in cs[1..];
      k, at := AnswersFirst(env, cs[1..], position, if cs[0].Children() == [] then env.brokenDown(state) else state);
      k := k + 1;
    }
  }

  /** No tree in the list holds an external token. */
  ghost predicate Tokenless(ts: seq<Tree>) { forall i :: 0 <= i < |ts| ==> Fine(ts[i]) && !HasExternalTokens(ts[i]) }

  lemma TokenlessBelow(ts: seq<Tree>)
    requires Tokenless(ts) && ts != []
    ensures Tokenless(ts[1..]) && Tokenless(ts[0].Children() + ts[1..])
  {
    var cs := ts[0].Children();
    FineChildren(ts[0]);
    assert Flagged(ts[0]) && (cs != [] ==> !AnyExternal(cs));
    hide Fine, Flagged, HasExternalTokens;
  }

  /** Where the node at the end of a path below tree i of a list stands. */
  function AtIn(ts: seq<Tree>, at: nat, i: nat, path: seq<nat>): Option<(Tree, nat)>
    requires i < |ts|
  {
    At(ts[i], at + Bytes(ts[..i]), path)
  }

  lemma {:induction false} AtWithin(t: Tree, p: nat, path: seq<nat>)
    requires Consistent(t) && At(t, p, path).Some?
    ensures var (node, at) := At(t, p, path).value; p <= at && at + node.Total().bytes <= p + t.Total().bytes
    decreases |path|
  {
    if path != [] {
      var cs, i := t.Children(), path[0];
      AtWithin(cs[i], p + Bytes(cs[..i]), path[1..]);
      BytesSplit(cs, i);
      ConsistentSpans(t);
    }
  }

  lemma ConsistentSpans(t: Tree)
    requires Consistent(t) && t.Children() != []
    ensures Bytes(t.Children()) == t.Total().bytes
  {
  }

  /** The same node seen after the first tree of the list has been passed, or opened. */
  lemma AtPassed(ts: seq<Tree>, at: nat, i: nat, path: seq<nat>)
    requires 0 < i < |ts|
    ensures AtIn(ts[1..], at + ts[0].Total().bytes, i - 1, path) == AtIn(ts, at, i, path)
    ensures at + ts[0].Total().bytes <= at + Bytes(ts[..i])
  {
    assert ts[..i][1..] == ts[1..][..i - 1];
  }

  lemma AtOpened(ts: seq<Tree>, at: nat, i: nat, path: seq<nat>)
    requires i < |ts| && Fine(ts[0]) && ts[0].Children() != [] && AtIn(ts, at, i, path).Some? && (i == 0 ==> path != [])
    ensures var cs := ts[0].Children();
      if i == 0 then path[0] < |cs| && AtIn(cs + ts[1..], at, path[0], path[1..]) == AtIn(ts, at, i, path)
      else AtIn(cs + ts[1..], at, |cs| + i - 1, path) == AtIn(ts, at, i, path)
  {
    var cs := ts[0].Children();
    var below := cs + ts[1..];
    if i == 0 {
      assert ts[..0] == [] && below[..path[0]] == cs[..path[0]] && below[path[0]] == cs[path[0]];
    } else {
      FineSpans(ts[0]);
      assert below[..|cs| + i - 1] == cs + ts[1..][..i - 1];
      BytesAppend(cs, ts[1..][..i - 1]);
      assert ts[..i][1..] == ts[1..][..i - 1];
    }
  }

  /** A node below the first tree of a list lies inside it, and the tree then has children. */
  lemma FirstSpans(ts: seq<Tree>, at: nat, path: seq<nat>)
    requires ts != [] && Fine(ts[0]) && AtIn(ts, at, 0, path).Some?
    ensures path == [] ==> AtIn(ts, at, 0, path).value == (ts[0], at)
    ensures path != [] ==> ts[0].Children() != []
    ensures var (node, offset) := AtIn(ts, at, 0, path).value;
      offset + node.Total().bytes <= at + ts[0].Total().bytes
  {
    assert ts[..0] == [];
    AtWithin(ts[0], at, path);
  }

  /** The search opens the first tree when it starts at the position or reaches past it. */
  predicate Opens(t: Tree, at: nat, position: nat) { t.Children() != [] && (at == position || EndOf(t, at) > position) }

  function Onward(ts: seq<Tree>, at: nat, position: nat): (seq<Tree>, nat)
    requires ts != []
  {
    if Opens(ts[0], at, position) then (ts[0].Children() + ts[1..], at) else (ts[1..], at + ts[0].Total().bytes)
  }

  lemma CandidatesOnward(ts: seq<Tree>, at: nat, token: Option<Tree>, position: nat)
    requires ts != [] && !HasExternalTokens(ts[0]) && at <= position
    ensures var (next, from) := Onward(ts, at, position);
      Candidates(ts, at, token, StateOf(token), position)
      == (if at == position then [ts[0]] else []) + Candidates(next, from, token, StateOf(token), position)
  {
    assert TokenAfter(ts[0], token) == token;
    hide StateOf, EndOf;
  }

  /** A node of positive width at the position is still ahead after the first tree has been opened or passed. */
  lemma StillAhead(ts: seq<Tree>, at: nat, position: nat, i: nat, path: seq<nat>) returns (i': nat, path': seq<nat>)
    requires Tokenless(ts) && position < MAX_OFFSET && i < |ts| && AtIn(ts, at, i, path).Some? && (i > 0 || path != [])
    requires AtIn(ts, at, i, path).value.1 == position && AtIn(ts, at, i, path).value.0.Total().bytes > 0
    ensures at <= position && !HasExternalTokens(ts[0])
    ensures var (next, from) := Onward(ts, at, position);
      Tokenless(next) && CountAll(next) < CountAll(ts)
      && i' < |next| && AtIn(next, from, i', path') == AtIn(ts, at, i, path)
  {
    CountsFall(ts);
    TokenlessBelow(ts);
    AtWithin(ts[i], at + Bytes(ts[..i]), path);
    if i == 0 { FirstSpans(ts, at, path); } else { AtPassed(ts, at, i, path); }
    var cs := ts[0].Children();
    if cs != [] { AtOpened(ts, at, i, path); }
    hide Fine, Tokenless, At, Bytes, CountAll, HasExternalTokens;
    i', path' := if !Opens(ts[0], at, position) then i - 1 else if i == 0 then path[0] else |cs| + i - 1,
                 if i == 0 then path[1..] else path;
  }

  /** In trees without external tokens every node of positive width that starts at the position is come to. */
  lemma {:induction false} NodeIsCandidate(ts: seq<Tree>, at: nat, token: Option<Tree>, position: nat, i: nat, path: seq<nat>)
    requires Tokenless(ts) && position < MAX_OFFSET && i < |ts| && AtIn(ts, at, i, path).Some?
    requires AtIn(ts, at, i, path).value.1 == position && AtIn(ts, at, i, path).value.0.Total().bytes > 0
    ensures AtIn(ts, at, i, path).value.0 in Candidates(ts, at, token, StateOf(token), position)
    decreases CountAll(ts)
  {
    if i == 0 && path == [] {
      AtHere(ts, at);
      hide Fine, Bytes;
      CandidatesOnward(ts, at, token, position);
    } else {
      hide Candidates, AtIn, Tokenless, Onward, StateOf, HasExternalTokens, CountAll;
      var i', path' := StillAhead(ts, at, position, i, path);
      CandidatesOnward(ts, at, token, position);
      var (next, from) := Onward(ts, at, position);
      NodeIsCandidate(next, from, token, position, i', path');
    }
  }

  lemma AtHere(ts: seq<Tree>, at: nat)
    requires ts != []
    ensures AtIn(ts, at, 0, []) == Some((ts[0], at))
  {
    assert ts[..0] == [];
  }

  /** In a tree without external tokens, when some node of positive width that may be reused starts at the position,
      the search decides on the first such node it comes to: it is handed out exactly when its first token may be
      used in the state by then. */
  lemma FitNodeIsDecided<S>(env: Parser<S>, root: Tree, position: nat, path: seq<nat>, node: Tree, state: S)
    returns (k: nat, at: S)
    requires Fine(root) && !HasExternalTokens(root) && position < MAX_OFFSET && path != []
    requires StandsAt(root, path, node, position) && node.Total().bytes > 0 && Offered(env, node, position)
    ensures var cs := Candidates(root.Children(), 0, None, [], position);
      && k < |cs| && Offered(env, cs[k], position) && (forall j :: 0 <= j < k ==> !Offered(env, cs[j], position))
      && Answer(env, cs, position, state) == (if env.reusable(at, cs[k]) then Some(cs[k]) else None, at)
  {
    var ts := root.Children();
    assert [root][1..] == [] && root.Children() + [] == ts;
    assert Tokenless([root]);
    TokenlessBelow([root]);
    hide Fine, Offered, HasExternalTokens, Candidates, Answer;
    NodeIsCandidate(ts, 0, None, position, path[0], path[1..]);
    k, at := AnswersFirst(env, Candidates(ts, 0, None, [], position), position, state);
  }

  /** Reuse is safe.  A node the cursor hands out of an edited tree is, unchanged, a node of the tree
      that was parsed, and every byte its tokens looked at is the byte they saw. */
  lemma ReusedTextUnchanged<S>(lang: Language, t0: Tree, d0: Text, xs: seq<DocEdit>, env: Parser<S>, node: Tree,
                               position: nat, path: seq<nat>)
    requires Good(lang, t0) && ValidRun(d0, xs) && Offered(env, node, position)
    requires StandsAt(EditedTree(t0, xs), path, node, position)
    ensures exists at0 :: At(t0, 0, path) == Some((node, at0)) &&
                          SameText(d0, at0, EditedText(d0, xs), position, node.Total().bytes + node.Lookahead())
  {
    hide Good, ValidRun, Offered, At, EditedTree, EditedText, SameText, Consistent, Covered;
    OfferedUnchanged(env, node, position);
    GoodTrees.GoodIsConsistent(lang, t0);
    GoodTrees.GoodIsCovered(lang, t0);
    UnmarkedNodesKeepTheirText(t0, d0, xs, path);
  }

  lemma OfferedUnchanged<S>(env: Parser<S>, t: Tree, position: nat)
    requires Offered(env, t, position)
    ensures !t.HasChanges()
  {
  }

  // ---------------------------------------------------------------- edited trees can be walked

  /** Editing keeps the external-token flags, so the cursor works on every edited tree. */
  lemma {:induction false} EditKeepsFlags(t: Tree, e: EditSpan)
    requires Flagged(t)
    ensures Flagged(Edit(t, e)) && HasExternalTokens(Edit(t, e)) == HasExternalTokens(t)
    decreases t, 1
  {
    hide Resized, EditsBelow;
    if !Skips(t, e) && t.Node? {
      EditAllKeepsFlags(t.children, EditsBelow(t, e));
      var cs, ds := t.children, EditAll(t.children, EditsBelow(t, e));
      if AnyExternal(cs) {
        var i :| 0 <= i < |cs| && HasExternalTokens(cs[i]);
        assert HasExternalTokens(ds[i]);
      }
    }
  }

  lemma {:induction false} EditAllKeepsFlags(cs: seq<Tree>, es: seq<Option<EditSpan>>)
    requires |cs| == |es| && forall i :: 0 <= i < |cs| ==> Flagged(cs[i])
    ensures var ds := EditAll(cs, es);
      forall i :: 0 <= i < |cs| ==> Flagged(ds[i]) && HasExternalTokens(ds[i]) == HasExternalTokens(cs[i])
    decreases cs, 0
  {
    if cs != [] {
      if es[0].Some? { EditKeepsFlags(cs[0], es[0].value); }
      EditAllKeepsFlags(cs[1..], es[1..]);
    }
  }

  lemma {:induction false} EditedIsFine(t: Tree, xs: seq<DocEdit>)
    requires Fine(t) && forall i :: 0 <= i < |xs| ==> xs[i].span.Ordered()
    ensures Fine(EditedTree(t, xs))
    decreases |xs|
  {
    hide Edit, Consistent, Flagged;
    if xs != [] {
      EditBytes.EditKeepsConsistent(t, xs[0].span);
      EditKeepsFlags(t, xs[0].span);
      EditedIsFine(Edit(t, xs[0].span), xs[1..]);
    }
  }

  /** A tree as a parse builds it, after any run of ordered edits, is one the cursor works on. */
  lemma {:induction false} EditedParseIsFine(lang: Language, t: Tree, xs: seq<DocEdit>)
    requires Good(lang, t) && forall i :: 0 <= i < |xs| ==> xs[i].span.Ordered()
    ensures Fine(EditedTree(t, xs))
  {
    GoodTrees.GoodIsConsistent(lang, t);
    GoodIsFlagged(lang, t);
    EditedIsFine(t, xs);
  }

  lemma {:induction false} RunIsOrdered(d: Text, xs: seq<DocEdit>)
    requires ValidRun(d, xs)
    ensures forall i :: 0 <= i < |xs| ==> xs[i].span.Ordered()
    decreases |xs|
  {
    hide Splice;
    if xs != [] { RunIsOrdered(ApplyTo(d, xs[0]), xs[1..]); }
  }

  /** From one parse to the next: the tree is edited, the cursor reset to it, and a node asked for.  What it hands
      out is a node the first parse built, over the very bytes its tokens saw, at the position asked for. */
  method ReuseAfterEdits<S>(r: ReusableNode, ghost lang: Language, t0: Tree, ghost d0: Text, xs: seq<DocEdit>, env: Parser<S>,
                            state0: S, position: nat, token: Option<Tree>)
    returns (result: Option<Tree>, state: S, ghost path: seq<nat>)
    requires Good(lang, t0) && ValidRun(d0, xs)
    modifies r
    ensures (result, state)
         == Answer(env, Candidates(EditedTree(t0, xs).Children(), 0, None, StateOf(token), position), position, state0)
    ensures result.Some? ==>
      && StandsAt(EditedTree(t0, xs), path, result.value, position)
      && exists at0 :: At(t0, 0, path) == Some((result.value, at0)) &&
                       SameText(d0, at0, EditedText(d0, xs), position,
                                result.value.Total().bytes + result.value.Lookahead())
  {
    hide Fine, Good, ValidRun, Offered, At, EditedTree, EditedText, SameText, StandsAt, Candidates, Answer, Ahead, StateOf,
      Chain;
    RunIsOrdered(d0, xs);
    EditedParseIsFine(lang, t0, xs);
    r.Reset(EditedTree(t0, xs));
    result, state, path := ReuseNode(r, env, state0, position, token);
    if result.Some? { ReusedTextUnchanged(lang, t0, d0, xs, env, result.value, position, path); }
  }
}
