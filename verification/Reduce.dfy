/** reduce (parser_reduce.go:9-92): popping a production's children, building one parent per end node,
    and consuming the popped versions while merges renumber the rest. */
module Reduce {
  import opened Lengths
  import opened Trees
  import opened EditSpec
  import opened StackGraph
  import opened StackPaths
  import opened ParseStacks
  import Summaries
  import VisibleTrees

  const MAX_VERSION_COUNT := 6
  const MAX_VERSION_COUNT_OVERFLOW := 4

  /** What a reduction is given: the rule, the goto table, and which of two parents to prefer. */
  datatype Rule = Rule(symbol: nat, visible: bool, named: bool, production: nat, dynamicPrecedence: int,
                       fragile: bool, endOfExtra: bool, lang: Summaries.Language,
                       next: nat -> nat, prefer: (Tree, Tree) -> bool)

  // ---------------------------------------------------------------- trailing extras

  /** Where a run of children's trailing extras begin. */
  function FrontLength(cs: seq<Tree>): (n: nat)
    ensures n <= |cs|
    ensures forall i :: n <= i < |cs| ==> cs[i].Extra()
    ensures n > 0 ==> !cs[n - 1].Extra()
  {
    if cs == [] || !cs[|cs| - 1].Extra() then |cs| else FrontLength(cs[..|cs| - 1])
  }

  function Trailing(cs: seq<Tree>): seq<Tree> { cs[FrontLength(cs)..] }

  /** subtreeArrayRemoveTrailingExtras. */
  method RemoveTrailingExtras(cs: seq<Tree>) returns (front: seq<Tree>, extras: seq<Tree>)
    ensures front == cs[..FrontLength(cs)] && extras == Trailing(cs)
  {
    front := cs;
    var destination: seq<Tree> := [];
    while |front| > 0 && front[|front| - 1].Extra()
      invariant front <= cs && FrontLength(front) == FrontLength(cs)
      invariant destination == cs[|front|..]
    {
      destination := [front[|front| - 1]] + destination;
      front := front[..|front| - 1];
    }
    extras := destination;
  }

  /** A reduction's parent before it is summarised. */
  function Blank(rule: Rule): NodeData {
    var fragile := Summaries.ErrorClass(rule.symbol);
    NodeData(ZERO, ZERO, 0, 0, rule.symbol, 0, rule.visible, rule.named, false, fragile, fragile, false, false, false,
             false, false, false, 0, 0, 0, 0, 0, rule.production, 0, 0, [], 0)
  }

  function ParentOver(rule: Rule, cs: seq<Tree>): Tree {
    Summaries.NewNode(rule.lang, rule.symbol, rule.visible, rule.named, rule.production, cs)
  }

  /** The parent as it is pushed: extra if it ends a non-terminal extra, fragile if anything was
      ambiguous, its parse state, and the rule's own precedence. */
  function Dressed(rule: Rule, parent: Tree, state: nat, ambiguous: bool): Tree
    requires parent.Node?
  {
    var d := parent.data;
    var fragile := rule.fragile || ambiguous;
    Node(d.(extra := d.extra || (rule.endOfExtra && rule.next(state) == state),
            fragileLeft := d.fragileLeft || fragile, fragileRight := d.fragileRight || fragile,
            parseState := if fragile then Summaries.STATE_NONE else state,
            dynamicPrecedence := d.dynamicPrecedence + rule.dynamicPrecedence),
         parent.children)
  }

  // ---------------------------------------------------------------- what is readable

  /** Nothing readable is lost, and old nodes keep their keys. */
  ghost predicate Grown(g: Graph, g': Graph) {
    && (forall n :: n in g ==> n in g' && KeyOf(g'[n]) == KeyOf(g[n]))
    && (forall n, path :: Reads(g, n, path) ==> Reads(g', n, path))
  }

  /** Behind `steps`, n' reads whatever n read. */
  ghost predicate Carried(g: Graph, n: NodeRef, g': Graph, n': NodeRef, steps: seq<Step>) {
    forall path :: Reads(g, n, path) ==> Reads(g', n', steps + path)
  }

  lemma GrownSelf(g: Graph)
    ensures Grown(g, g)
  {
  }

  lemma GrownTransitive(g0: Graph, g1: Graph, g2: Graph)
    requires Grown(g0, g1) && Grown(g1, g2)
    ensures Grown(g0, g2)
  {
    hide Reads;
  }

  lemma CarriedGrown(g: Graph, n: NodeRef, g1: Graph, n1: NodeRef, steps: seq<Step>, g2: Graph)
    requires Carried(g, n, g1, n1, steps) && Grown(g1, g2)
    ensures Carried(g, n, g2, n1, steps)
  {
    hide Reads;
  }

  lemma CarriedThen(g: Graph, n: NodeRef, g1: Graph, n1: NodeRef, a: seq<Step>, g2: Graph, n2: NodeRef, b: seq<Step>)
    requires Carried(g, n, g1, n1, a) && Carried(g1, n1, g2, n2, b)
    ensures Carried(g, n, g2, n2, b + a)
  {
    hide Reads;
    forall path | Reads(g, n, path) ensures Reads(g2, n2, (b + a) + path) {
      assert b + (a + path) == (b + a) + path;
    }
  }

  lemma CarriedFrom(g0: Graph, g: Graph, n: NodeRef, g': Graph, n': NodeRef, steps: seq<Step>)
    requires Grown(g0, g) && Carried(g, n, g', n', steps)
    ensures Carried(g0, n, g', n', steps)
  {
    hide Reads;
  }

  // ---------------------------------------------------------------- ranks

  function Beyond(k: Key, state: nat, bytes: nat, cost: int): Key { Key(state, k.bytes + bytes, k.errorCost + cost) }

  function Onto(k: Key, state: nat, t: Tree): Key { Beyond(k, state, t.Total().bytes, t.ErrorCost()) }

  /** Trees pushed one after another in one state keep raising the rank. */
  ghost predicate Climbs(rank: Key -> nat, k: Key, state: nat, ts: seq<Tree>)
    decreases |ts|
  {
    ts == [] || (rank(Onto(k, state, ts[0])) > rank(k) && Climbs(rank, Onto(k, state, ts[0]), state, ts[1..]))
  }

  /** Each push of a reduction raises the rank: the parent's on its end node, then those of the extras. */
  ghost predicate Lifts(rank: Key -> nat, k: Key, state: nat, parent: Tree, extras: seq<Tree>) {
    rank(Onto(k, state, parent)) > rank(k) && Climbs(rank, Onto(k, state, parent), state, extras)
  }

  ghost predicate SliceLifts(rank: Key -> nat, k: Key, rule: Rule, cs: seq<Tree>) {
    Lifts(rank, k, rule.next(k.state), ParentOver(rule, cs[..FrontLength(cs)]), Trailing(cs))
  }

  /** So does every reduction of what `count` pops from n: what is asked is asked only of what is pushed. */
  ghost predicate PopLifts(g: Graph, n: NodeRef, count: nat, rule: Rule, rank: Key -> nat) {
    forall ls, end: NodeRef :: CountedPath(g, n, ls, count, end) && end in g ==>
      SliceLifts(rank, KeyOf(g[end]), rule, Reverse(SubtreesOn(ls)))
  }

  // ---------------------------------------------------------------- stacks whose reductions lift

  function Position(): Key -> nat { (k: Key) => k.bytes }

  /** Every link holds a subtree of positive width. */
  ghost predicate AllWide(g: Graph) {
    forall n, i :: n in g && 0 <= i < |g[n].links| ==>
      g[n].links[i].subtree.Some? && g[n].links[i].subtree.value.Total().bytes > 0
  }

  predicate Wide(ts: seq<Tree>) { forall i :: 0 <= i < |ts| ==> ts[i].Total().bytes > 0 }

  lemma {:induction false} PathWide(g: Graph, n: NodeRef, ls: seq<Link>, count: nat, end: NodeRef)
    requires AllWide(g) && CountedPath(g, n, ls, count, end)
    ensures Wide(SubtreesOn(ls))
    ensures count > 0 ==> SubtreesOn(ls) != [] && !SubtreesOn(ls)[|SubtreesOn(ls)| - 1].Extra()
    decreases |ls|
  {
    if count > 0 {
      PathWide(g, ls[0].node, ls[1..], count - Counted(ls[0]), end);
    }
  }

  lemma {:induction false} ReverseWide(ts: seq<Tree>)
    requires Wide(ts)
    ensures Wide(Reverse(ts)) && (ts != [] ==> Reverse(ts)[0] == ts[|ts| - 1])
    decreases |ts|
  {
    if ts != [] {
      ReverseWide(ts[1..]);
    }
  }

  lemma {:induction false} WideClimbs(k: Key, state: nat, ts: seq<Tree>)
    requires Wide(ts)
    ensures Climbs(Position(), k, state, ts)
    decreases |ts|
  {
    if ts != [] { WideClimbs(Onto(k, state, ts[0]), state, ts[1..]); }
  }

  lemma {:induction false} FrontKept(cs: seq<Tree>)
    requires cs != [] && !cs[0].Extra()
    ensures FrontLength(cs) > 0
    decreases |cs|
  {
    if cs[|cs| - 1].Extra() { FrontKept(cs[..|cs| - 1]); }
  }

  lemma ParentWide(rule: Rule, cs: seq<Tree>)
    requires cs != [] && cs[0].Total().bytes > 0
    ensures ParentOver(rule, cs).Total().bytes > 0
  {
    hide Summaries.Summed, Summaries.Summarised;
    Summaries.ResumSummarised(rule.lang, Node(Blank(rule), cs));
    VisibleTrees.SummarisedTotal(rule.lang, ParentOver(rule, cs));
  }

  /** On a stack of subtrees of positive width, byte positions rise with every reduction of at least one
      child, whatever the goto table. */
  lemma WideReductionsLift(g: Graph, n: NodeRef, count: nat, rule: Rule)
    requires AllWide(g) && count > 0
    ensures PopLifts(g, n, count, rule, Position())
  {
    hide ParentOver, Climbs, FrontLength;
    forall ls, end: NodeRef | CountedPath(g, n, ls, count, end) && end in g
      ensures SliceLifts(Position(), KeyOf(g[end]), rule, Reverse(SubtreesOn(ls)))
    {
      PathWide(g, n, ls, count, end);
      ReverseWide(SubtreesOn(ls));
      var cs := Reverse(SubtreesOn(ls));
      FrontKept(cs);
      var f := FrontLength(cs);
      ParentWide(rule, cs[..f]);
      var k := KeyOf(g[end]);
      WideClimbs(Onto(k, rule.next(k.state), ParentOver(rule, cs[..f])), rule.next(k.state), cs[f..]);
    }
  }

  /** For instance one token shifted onto a fresh stack: any rule of one child lifts, in any goto table. */
  lemma OneTokenLifts(token: Tree, state: nat, rule: Rule)
    requires token.Total().bytes > 0
    ensures var base: Graph := map[0 := StackNode(1, ZERO, [], 0, 0, 0)];
      var g := base[1 := NewNode(base, 0, Some(token), false, state)];
      WellFormed(g) && Ranked(g, Position()) && PopLifts(g, 1, 1, rule, Position())
  {
    hide PopLifts;
    var base: Graph := map[0 := StackNode(1, ZERO, [], 0, 0, 0)];
    WideReductionsLift(base[1 := NewNode(base, 0, Some(token), false, state)], 1, 1, rule);
  }

  /** A reduction of no children spans nothing, and lifts where the goto table leads to a later state: here
      from state 1 to state 2, in a table that sends every other state to 0. */
  lemma EmptyReductionLifts(rule: Rule)
    requires rule.next(1) == 2 && forall s: nat :: s != 1 ==> rule.next(s) == 0
    ensures var rank := (k: Key) => 2 * k.bytes + (if k.state == 2 then 1 else 0);
      var base: Graph := map[0 := StackNode(1, ZERO, [], 0, 0, 0)];
      Ranked(base, rank) && PopLifts(base, 0, 0, rule, rank)
  {
    hide ParentOver;
    assert Reverse(SubtreesOn([])) == [];
    assert FrontLength([]) == 0;
  }

  // ---------------------------------------------------------------- pushing one parent

  function ExtraSteps(extras: seq<Tree>, state: nat): seq<Step> {
    if extras == [] then [] else
    [Step(Some(extras[|extras| - 1].Symbol()), state)] + ExtraSteps(extras[..|extras| - 1], state)
  }

  /** The steps a reduction puts in front of its end node: the symbol, then the extras after it. */
  function Behind(rule: Rule, state: nat, extras: seq<Tree>): seq<Step> {
    ExtraSteps(extras, rule.next(state)) + [Step(Some(rule.symbol), state)]
  }

  lemma PushGrows(g: Graph, g': Graph)
    requires g.Keys <= g'.Keys && forall k :: k in g ==> g'[k] == g[k]
    ensures Grown(g, g')
  {
    forall n, path | Reads(g, n, path) ensures Reads(g', n, path) {
      ReadsInLarger(g, g', n, path);
    }
  }

  /** What keeps a stack of wide subtrees one. */
  ghost predicate StaysWide(g: Graph, g': Graph) { AllWide(g) ==> AllWide(g') }

  lemma WideEdges(g: Graph, g': Graph)
    requires WellFormed(g') && NoNewEdges(g, g')
    ensures StaysWide(g, g')
  {
    if AllWide(g) {
      forall n, i | n in g' && 0 <= i < |g'[n].links|
        ensures g'[n].links[i].subtree.Some? && g'[n].links[i].subtree.value.Total().bytes > 0
      {
        assert Edge(g', KeyOf(g'[n]), g'[n].links[i].subtree, KeyOf(g'[g'[n].links[i].node]));
        assert Edge(g, KeyOf(g'[n]), g'[n].links[i].subtree, KeyOf(g'[g'[n].links[i].node]));
      }
    }
  }

  /** One push, as a growth of the graph and a step in front of the old head. */
  method PushOn(stack: ParseStack, version: nat, t: Tree, state: nat, ghost rank: Key -> nat)
    requires stack.Valid(rank) && version < |stack.heads|
    requires var k := KeyOf(stack.nodes[stack.heads[version].node]);
      rank(Onto(k, state, t)) > rank(k)
    modifies stack
    ensures stack.Valid(rank) && Grown(old(stack.nodes), stack.nodes)
    ensures |stack.heads| == |old(stack.heads)|
    ensures forall v :: 0 <= v < |stack.heads| && v != version ==> stack.heads[v] == old(stack.heads)[v]
    ensures var n, n' := old(stack.heads)[version].node, stack.heads[version].node;
      && n in old(stack.nodes) && n' in stack.nodes
      && KeyOf(stack.nodes[n']) == Beyond(KeyOf(old(stack.nodes)[n]), state, t.Total().bytes, t.ErrorCost())
      && Carried(old(stack.nodes), n, stack.nodes, n', [Step(Some(t.Symbol()), old(stack.nodes)[n].state)])
    ensures stack.heads[version].status == old(stack.heads)[version].status
    ensures t.Total().bytes > 0 ==> StaysWide(old(stack.nodes), stack.nodes)
  {
    hide Reads, WellFormed, Ranked;
    stack.Push(version, Some(t), false, state, rank);
    PushGrows(old(stack.nodes), stack.nodes);
  }

  /** The parent pushed on its end node, then the extras that trailed its children. */
  method PushReduced(stack: ParseStack, version: nat, parent: Tree, extras: seq<Tree>, rule: Rule, ghost rank: Key -> nat)
    requires stack.Valid(rank) && version < |stack.heads| && parent.Symbol() == rule.symbol
    requires var k := KeyOf(stack.nodes[stack.heads[version].node]); Lifts(rank, k, rule.next(k.state), parent, extras)
    modifies stack
    ensures stack.Valid(rank) && Grown(old(stack.nodes), stack.nodes)
    ensures |stack.heads| == |old(stack.heads)|
    ensures forall v :: 0 <= v < |stack.heads| && v != version ==> stack.heads[v] == old(stack.heads)[v]
    ensures var n := old(stack.heads)[version].node;
      n in old(stack.nodes)
      && Carried(old(stack.nodes), n, stack.nodes, stack.heads[version].node,
                 Behind(rule, old(stack.nodes)[n].state, extras))
    ensures parent.Total().bytes > 0 && Wide(extras) ==> StaysWide(old(stack.nodes), stack.nodes)
  {
    hide Grown, Carried, Reads, WellFormed, Ranked, AllWide;
    ghost var g0, n0 := stack.nodes, stack.heads[version].node;
    var state := stack.nodes[stack.heads[version].node].state;
    var nextState := rule.next(state);
    PushOn(stack, version, parent, nextState, rank);
    assert ExtraSteps([], nextState) + [Step(Some(rule.symbol), state)] == [Step(Some(rule.symbol), state)];
    for i := 0 to |extras|
      invariant stack.Valid(rank) && Grown(g0, stack.nodes) && |stack.heads| == |old(stack.heads)|
      invariant forall v :: 0 <= v < |stack.heads| && v != version ==> stack.heads[v] == old(stack.heads)[v]
      invariant stack.nodes[stack.heads[version].node].state == nextState
      invariant Climbs(rank, KeyOf(stack.nodes[stack.heads[version].node]), nextState, extras[i..])
      invariant Carried(g0, n0, stack.nodes, stack.heads[version].node, Behind(rule, state, extras[..i]))
      invariant parent.Total().bytes > 0 && Wide(extras) ==> StaysWide(g0, stack.nodes)
    {
      ghost var g, n := stack.nodes, stack.heads[version].node;
      assert extras[i..][0] == extras[i] && extras[i..][1..] == extras[i + 1..];
      PushOn(stack, version, extras[i], nextState, rank);
      GrownTransitive(g0, g, stack.nodes);
      ghost var step := [Step(Some(extras[i].Symbol()), nextState)];
      CarriedThen(g0, n0, g, n, Behind(rule, state, extras[..i]), stack.nodes, stack.heads[version].node, step);
      assert extras[..i + 1][..i] == extras[..i] && extras[..i + 1][i] == extras[i];
      assert step + Behind(rule, state, extras[..i]) == Behind(rule, state, extras[..i + 1]);
    }
    assert extras[..|extras|] == extras;
  }

  // ---------------------------------------------------------------- merging the result away

  /** The loop that merges the new version into the first older one that will have it. */
  method MergeInto(stack: ParseStack, version: nat, sliceVersion: nat, ghost rank: Key -> nat)
    returns (merged: bool, ghost into: nat)
    requires stack.Valid(rank) && sliceVersion < |stack.heads|
    modifies stack
    ensures stack.Valid(rank) && Grown(old(stack.nodes), stack.nodes)
    ensures !merged ==> stack.heads == old(stack.heads) && stack.nodes == old(stack.nodes)
    ensures !merged ==> forall j :: 0 <= j < sliceVersion && j != version ==> !old(stack.CanMerge(j, sliceVersion))
    ensures merged ==> into < sliceVersion && into != version && |stack.heads| == |old(stack.heads)| - 1
    ensures merged ==> old(stack.CanMerge(into, sliceVersion))
    ensures merged ==> forall j :: 0 <= j < into && j != version ==> !old(stack.CanMerge(j, sliceVersion))
    ensures merged ==> stack.heads[sliceVersion..] == old(stack.heads)[sliceVersion + 1..]
    ensures merged ==> forall v :: 0 <= v < sliceVersion ==> stack.heads[v].node == old(stack.heads)[v].node
    ensures merged ==> Carried(old(stack.nodes), old(stack.heads)[sliceVersion].node,
                               stack.nodes, old(stack.heads)[into].node, [])
    ensures StaysWide(old(stack.nodes), stack.nodes)
  {
    hide Reads, WellFormed, Ranked, Extends, Carried, Grown, AllWide;
    GrownSelf(stack.nodes);
    into := 0;
    var j := 0;
    while j < sliceVersion
      invariant 0 <= j <= sliceVersion && stack.Valid(rank) && stack.heads == old(stack.heads)
      invariant stack.nodes == old(stack.nodes)
      invariant forall k :: 0 <= k < j && k != version ==> !old(stack.CanMerge(k, sliceVersion))
    {
      if j != version {
        merged := stack.Merge(j, sliceVersion, rank);
        if merged {
          into := j;
          MergedFacts(old(stack.nodes), stack.nodes, old(stack.heads)[j].node, old(stack.heads)[sliceVersion].node);
          return;
        }
      }
      j := j + 1;
    }
    merged := false;
  }

  lemma MergedFacts(g: Graph, g': Graph, n1: NodeRef, n2: NodeRef)
    requires Merged(g, g', n1, n2) && WellFormed(g')
    ensures Grown(g, g') && Carried(g, n2, g', n1, []) && StaysWide(g, g')
  {
    WideEdges(g, g');
    forall path | Reads(g, n2, path) ensures Reads(g', n1, [] + path) {
      assert [] + path == path;
    }
  }

  // ---------------------------------------------------------------- reduce

  /** Everything readable from an end node is readable, behind the reduced symbol and the extras that trailed the
      children cs, from one of the first `limit` heads. */
  ghost predicate Survives(g0: Graph, end: NodeRef, cs: seq<Tree>, rule: Rule, g: Graph, heads: seq<Head>, limit: nat) {
    end in g0 && exists w ::
      0 <= w < |heads| && w < limit && Carried(g0, end, g, heads[w].node, Behind(rule, g0[end].state, Trailing(cs)))
  }

  /** That, for the children of one of the version's slices. */
  ghost predicate SliceSurvives(g0: Graph, popped: seq<Head>, pop: seq<Slice>, u: nat, rule: Rule, g: Graph, heads: seq<Head>,
                                limit: nat)
    requires u < |popped|
  {
    exists k :: 0 <= k < |pop| && pop[k].version == u && Survives(g0, popped[u].node, pop[k].subtrees, rule, g, heads, limit)
  }

  /** The versions a pop created, consumed up to version v: the ones still to come sit, untouched and
      in order, exactly `removed` places further down. */
  ghost predicate Shifted(popped: seq<Head>, heads: seq<Head>, first: nat, v: nat, removed: nat) {
    && first <= v <= |popped| && removed <= v - first && v - removed <= |heads|
    && heads[v - removed..] == popped[v..]
    && forall u :: 0 <= u < first ==> heads[u].node == popped[u].node
  }

  ghost predicate AllSurvive(g0: Graph, popped: seq<Head>, pop: seq<Slice>, rule: Rule, g: Graph, heads: seq<Head>,
                             first: nat, v: nat, limit: nat) {
    forall u :: first <= u < v && u < |popped| && u <= LastFitting(popped) ==>
      SliceSurvives(g0, popped, pop, u, rule, g, heads, limit)
  }

  lemma SurvivesGrown(g0: Graph, end: NodeRef, cs: seq<Tree>, rule: Rule, g: Graph, heads: seq<Head>, limit: nat,
                      g': Graph, heads': seq<Head>, limit': nat)
    requires Survives(g0, end, cs, rule, g, heads, limit) && Grown(g, g') && limit <= limit' && limit <= |heads'|
    requires forall w :: 0 <= w < limit && w < |heads| ==> heads'[w].node == heads[w].node
    ensures Survives(g0, end, cs, rule, g', heads', limit')
  {
    hide Carried, Grown, Behind, Trailing;
    var steps := Behind(rule, g0[end].state, Trailing(cs));
    var w :| 0 <= w < |heads| && w < limit && Carried(g0, end, g, heads[w].node, steps);
    CarriedGrown(g0, end, g, heads[w].node, steps, g');
    assert Carried(g0, end, g', heads'[w].node, steps);
  }

  lemma AllSurviveGrown(g0: Graph, popped: seq<Head>, pop: seq<Slice>, rule: Rule, g: Graph, heads: seq<Head>, first: nat,
                        v: nat, limit: nat, g': Graph, heads': seq<Head>, limit': nat)
    requires AllSurvive(g0, popped, pop, rule, g, heads, first, v, limit) && Grown(g, g') && limit <= limit' && limit <= |heads'|
    requires forall w :: 0 <= w < limit && w < |heads| ==> heads'[w].node == heads[w].node
    ensures AllSurvive(g0, popped, pop, rule, g', heads', first, v, limit')
  {
    hide Survives, Grown;
    forall u | first <= u < v && u < |popped| && u <= LastFitting(popped)
      ensures SliceSurvives(g0, popped, pop, u, rule, g', heads', limit')
    {
      assert SliceSurvives(g0, popped, pop, u, rule, g, heads, limit);
      var k :| 0 <= k < |pop| && pop[k].version == u
            && Survives(g0, popped[u].node, pop[k].subtrees, rule, g, heads, limit);
      SurvivesGrown(g0, popped[u].node, pop[k].subtrees, rule, g, heads, limit, g', heads', limit');
    }
  }

  /** The slices of the next version come next. */
  lemma NextRun(pop: seq<Slice>, popped: seq<Head>, first: nat, v: nat, i: nat)
    requires Grouped(pop, popped, first) && first <= v <= |popped| && i <= |pop|
    requires (forall k :: 0 <= k < i ==> pop[k].version < v) && (forall k :: i <= k < |pop| ==> pop[k].version >= v)
    ensures i < |pop| ==> pop[i].version == v && v < |popped|
    ensures i == |pop| ==> v == |popped|
  {
    if v < |popped| {
      assert HasSlice(pop, v);
    }
  }

  lemma ParentSymbol(rule: Rule, cs: seq<Tree>)
    ensures ParentOver(rule, cs).Node? && ParentOver(rule, cs).Symbol() == rule.symbol
  {
    if cs != [] {
      hide Summaries.Summed;
      Summaries.ResumSummarised(rule.lang, Node(Blank(rule), cs));
    }
  }

  function HaltedCount(heads: seq<Head>): nat {
    if heads == [] then 0 else
    HaltedCount(heads[..|heads| - 1]) + (if heads[|heads| - 1].status == Halted then 1 else 0)
  }

  lemma {:induction false} HaltedGrows(heads: seq<Head>, more: seq<Head>)
    requires heads <= more
    ensures HaltedCount(heads) <= HaltedCount(more)
    decreases |more|
  {
    if heads == more {
      assert heads[..|heads|] == more;
    } else {
      HaltedGrows(heads, more[..|more| - 1]);
    }
  }

  /** The last version reduced: the tenth, and as many more as are halted. */
  function LastFitting(popped: seq<Head>): nat { MAX_VERSION_COUNT + MAX_VERSION_COUNT_OVERFLOW + HaltedCount(popped) }

  method HaltedVersionCount(heads: seq<Head>) returns (n: nat)
    ensures n == HaltedCount(heads)
  {
    n := 0;
    for i := 0 to |heads|
      invariant n == HaltedCount(heads[..i])
    {
      assert heads[..i + 1][..i] == heads[..i];
      if heads[i].status == Halted { n := n + 1; }
    }
    assert heads[..|heads|] == heads;
  }

  /** The children of one version's slices turned into one parent: the first slice's, unless a later
      one of the same version is preferred. */
  method ChooseParent(pop: seq<Slice>, start: nat, rule: Rule) returns (parent: Tree, extras: seq<Tree>, last: nat)
    requires start < |pop|
    requires forall j, k :: 0 <= j < k < |pop| ==> pop[j].version <= pop[k].version
    ensures start <= last < |pop| && forall k :: start <= k <= last ==> pop[k].version == pop[start].version
    ensures last + 1 < |pop| ==> pop[last + 1].version > pop[start].version
    ensures start <= Preferred(pop, rule, start, last) <= last
    ensures Chosen(pop[Preferred(pop, rule, start, last)].subtrees, rule, parent, extras)
  {
    hide ParentOver, FrontLength, OtherParent;
    var front;
    front, extras := RemoveTrailingExtras(pop[start].subtrees);
    parent := ParentOver(rule, front);
    last := start;
    while last + 1 < |pop| && pop[last + 1].version == pop[start].version
      invariant start <= last < |pop| && forall k :: start <= k <= last ==> pop[k].version == pop[start].version
      invariant Chosen(pop[Preferred(pop, rule, start, last)].subtrees, rule, parent, extras)
      decreases |pop| - last
    {
      last := last + 1;
      var front2, extras2 := RemoveTrailingExtras(pop[last].subtrees);
      if rule.prefer(parent, OtherParent(rule, front2)) {
        parent, extras := ParentOver(rule, front2), extras2;
      }
    }
  }

  /** The parent that other children are compared as: built without a production. */
  function OtherParent(rule: Rule, cs: seq<Tree>): Tree {
    Summaries.NewNode(rule.lang, rule.symbol, rule.visible, rule.named, 0, cs)
  }

  /** The slice that wins: the first one, unless a later one is preferred to the winner so far. */
  function Preferred(pop: seq<Slice>, rule: Rule, start: nat, last: nat): (k: nat)
    requires start <= last < |pop|
    ensures start <= k <= last
    decreases last - start
  {
    if last == start then start else
    var k := Preferred(pop, rule, start, last - 1);
    var mine, other := pop[k].subtrees, pop[last].subtrees;
    if rule.prefer(ParentOver(rule, mine[..FrontLength(mine)]), OtherParent(rule, other[..FrontLength(other)])) then last else k
  }

  predicate Chosen(cs: seq<Tree>, rule: Rule, parent: Tree, extras: seq<Tree>) {
    parent == ParentOver(rule, cs[..FrontLength(cs)]) && extras == Trailing(cs)
  }

  lemma ChosenTrails(cs: seq<Tree>, rule: Rule, parent: Tree, extras: seq<Tree>)
    requires Chosen(cs, rule, parent, extras)
    ensures extras == Trailing(cs)
  {
  }

  /** Slices of wide subtrees that do not begin with an extra. */
  predicate WideSlices(pop: seq<Slice>) {
    forall k :: 0 <= k < |pop| ==>
      Wide(pop[k].subtrees) && pop[k].subtrees != [] && !pop[k].subtrees[0].Extra()
  }

  lemma ChosenWide(pop: seq<Slice>, k: nat, rule: Rule, parent: Tree, extras: seq<Tree>, state: nat, ambiguous: bool)
    requires k < |pop| && Chosen(pop[k].subtrees, rule, parent, extras) && parent.Node?
    ensures WideSlices(pop) ==> Dressed(rule, parent, state, ambiguous).Total().bytes > 0 && Wide(extras)
  {
    if WideSlices(pop) {
      hide ParentOver, FrontLength;
      var cs := pop[k].subtrees;
      FrontKept(cs);
      ParentWide(rule, cs[..FrontLength(cs)]);
    }
  }

  /** One popped version reduced: its parent pushed, then merged away if an older head will have it.
      The version sits where it was popped, `removed` places down, and its end node's readings survive. */
  method ReduceSlice(stack: ParseStack, version: nat, v: nat, removed: nat, parent: Tree, extras: seq<Tree>, rule: Rule,
                     ghost cs: seq<Tree>, ghost g0: Graph, ghost popped: seq<Head>, ghost first: nat, ghost rank: Key -> nat)
    returns (removed': nat)
    requires stack.Valid(rank) && Grown(g0, stack.nodes) && parent.Symbol() == rule.symbol && extras == Trailing(cs)
    requires Shifted(popped, stack.heads, first, v, removed) && v < |popped| && popped[v].node in g0
    requires var k := KeyOf(g0[popped[v].node]); Lifts(rank, k, rule.next(k.state), parent, extras)
    modifies stack
    ensures stack.Valid(rank) && Grown(g0, stack.nodes) && Grown(old(stack.nodes), stack.nodes)
    ensures Shifted(popped, stack.heads, first, v + 1, removed') && removed <= removed' <= removed + 1
    ensures v - removed <= |stack.heads|
    ensures forall w :: 0 <= w < v - removed ==> stack.heads[w].node == old(stack.heads)[w].node
    ensures Survives(g0, popped[v].node, cs, rule, stack.nodes, stack.heads, v + 1 - removed')
    ensures parent.Total().bytes > 0 && Wide(extras) ==> StaysWide(old(stack.nodes), stack.nodes)
  {
    hide Grown, Carried, Reads, Behind, Lifts, Trailing, AllWide;
    var sliceVersion := v - removed;
    ghost var g, end := stack.nodes, popped[v].node;
    assert stack.heads[sliceVersion] == stack.heads[sliceVersion..][0] == popped[v..][0] == popped[v];
    GrownKey(g0, g, end);
    PushReduced(stack, sliceVersion, parent, extras, rule, rank);
    ghost var g1, heads1, n1 := stack.nodes, stack.heads, stack.heads[sliceVersion].node;
    ShiftPushed(popped, old(stack.heads), heads1, first, v, removed);
    ghost var steps := Behind(rule, g0[end].state, extras);
    CarriedFrom(g0, g, end, g1, n1, steps);
    GrownTransitive(g0, g, g1);
    var merged;
    ghost var into;
    merged, into := MergeInto(stack, version, sliceVersion, rank);
    GrownTransitive(g0, g1, stack.nodes);
    GrownTransitive(g, g1, stack.nodes);
    if merged {
      CarriedThen(g0, end, g1, n1, steps, stack.nodes, heads1[into].node, []);
      assert [] + steps == steps;
      assert Carried(g0, end, stack.nodes, stack.heads[into].node, Behind(rule, g0[end].state, extras));
      removed' := removed + 1;
      assert v + 1 - removed' == sliceVersion;
    } else {
      CarriedGrown(g0, end, g1, n1, steps, stack.nodes);
      assert Carried(g0, end, stack.nodes, stack.heads[sliceVersion].node, Behind(rule, g0[end].state, extras));
      removed' := removed;
      assert v + 1 - removed' == sliceVersion + 1;
    }
  }

  lemma ShiftPushed(popped: seq<Head>, heads: seq<Head>, heads': seq<Head>, first: nat, v: nat, removed: nat)
    requires Shifted(popped, heads, first, v, removed) && v < |popped| && |heads'| == |heads|
    requires forall w :: 0 <= w < |heads| && w != v - removed ==> heads'[w] == heads[w]
    ensures v - removed < |heads| && heads'[v - removed + 1..] == popped[v + 1..]
    ensures forall u :: 0 <= u < first ==> heads'[u].node == popped[u].node
  {
    var sv := v - removed;
    assert |heads[sv..]| == |popped[v..]|;
    var a, b := heads'[sv + 1..], popped[v + 1..];
    forall k | 0 <= k < |b| ensures a[k] == b[k] {
      assert heads[sv..][k + 1] == popped[v..][k + 1];
    }
  }

  lemma GrownKey(g: Graph, g': Graph, n: NodeRef)
    requires Grown(g, g') && n in g
    ensures n in g' && KeyOf(g'[n]) == KeyOf(g[n])
  {
  }

  /** The pop's slices before i have been consumed, and with them the versions before v. */
  ghost predicate Progress(g0: Graph, popped: seq<Head>, pop: seq<Slice>, rule: Rule, g: Graph, heads: seq<Head>,
                           first: nat, v: nat, removed: nat, i: nat) {
    && i <= |pop| && first <= v <= |popped| && removed <= v - first
    && (forall k :: 0 <= k < i ==> pop[k].version < v) && (forall k :: i <= k < |pop| ==> pop[k].version >= v)
    && Grown(g0, g) && Shifted(popped, heads, first, v, removed)
    && AllSurvive(g0, popped, pop, rule, g, heads, first, v, v - removed)
  }

  /** What popCount leaves for the consuming loop. */
  ghost predicate PoppedSlices(g0: Graph, popped: seq<Head>, pop: seq<Slice>, first: nat, rule: Rule, rank: Key -> nat) {
    && Grouped(pop, popped, first)
    && (forall k :: 0 <= k < |pop| ==> first <= pop[k].version < |popped|)
    && (forall j, k :: 0 <= j < k < |pop| ==> pop[j].version <= pop[k].version)
    && (forall u :: 0 <= u < |popped| ==> popped[u].node in g0)
    && (forall k :: 0 <= k < |pop| ==> SliceLifts(rank, KeyOf(g0[popped[pop[k].version].node]), rule, pop[k].subtrees))
  }

  /** The slices of one version that will not fit: the version goes, and its slices are skipped. */
  method DropRun(stack: ParseStack, pop: seq<Slice>, i: nat, removed: nat, ghost g0: Graph, ghost popped: seq<Head>,
                 ghost first: nat, ghost v: nat, rule: Rule, ghost rank: Key -> nat)
    returns (i': nat, removed': nat)
    requires stack.Valid(rank) && PoppedSlices(g0, popped, pop, first, rule, rank) && i < |pop| && pop[i].version == v < |popped|
    requires Progress(g0, popped, pop, rule, stack.nodes, stack.heads, first, v, removed, i)
    requires v > LastFitting(popped)
    modifies stack
    ensures stack.Valid(rank) && i < i' <= |pop| && Grown(old(stack.nodes), stack.nodes)
    ensures Progress(g0, popped, pop, rule, stack.nodes, stack.heads, first, v + 1, removed', i')
    ensures StaysWide(old(stack.nodes), stack.nodes)
  {
    hide Grown, Survives, Shifted, AllSurvive, Grouped, WellFormed, Ranked, SliceLifts, LastFitting, AllWide;
    ghost var g1, heads1 := stack.nodes, stack.heads;
    ShiftBounds(popped, stack.heads, first, v, removed);
    HeadsIn(stack.nodes, stack.heads, pop[i].version - removed);
    stack.RemoveVersion(pop[i].version - removed);
    DropShift(popped, heads1, stack.heads, first, v, removed);
    GrownSelf(stack.nodes);
    AllSurviveGrown(g0, popped, pop, rule, g1, heads1, first, v, v - removed, stack.nodes, stack.heads, v - removed);
    DroppedSurvives(g0, popped, pop, rule, stack.nodes, stack.heads, first, v, v - removed);
    removed', i' := removed + 1, i + 1;
    while i' < |pop| && pop[i'].version == pop[i].version
      invariant i < i' <= |pop| && forall k :: 0 <= k < i' ==> pop[k].version <= v
    {
      i' := i' + 1;
    }
  }

  /** The slices of one version that fits: one parent out of them, pushed and perhaps merged away. */
  method ReduceRun(stack: ParseStack, version: nat, pop: seq<Slice>, i: nat, removed: nat, ambiguous: bool, rule: Rule,
                   ghost g0: Graph, ghost popped: seq<Head>, ghost first: nat, ghost v: nat, ghost rank: Key -> nat)
    returns (i': nat, removed': nat)
    requires stack.Valid(rank)
    requires PoppedSlices(g0, popped, pop, first, rule, rank) && i < |pop| && pop[i].version == v < |popped|
    requires Progress(g0, popped, pop, rule, stack.nodes, stack.heads, first, v, removed, i)
    modifies stack
    ensures stack.Valid(rank) && i < i' <= |pop| && Grown(old(stack.nodes), stack.nodes)
    ensures Progress(g0, popped, pop, rule, stack.nodes, stack.heads, first, v + 1, removed', i')
    ensures WideSlices(pop) ==> StaysWide(old(stack.nodes), stack.nodes)
  {
    hide Grown, Survives, Shifted, AllSurvive, Grouped, WellFormed, Ranked, Lifts, SliceLifts, Chosen, LastFitting, Trailing, AllWide,
      WideSlices, Wide, Preferred, OtherParent, ParentOver, FrontLength;
    ShiftBounds(popped, stack.heads, first, v, removed);
    var parent, extras, last := ChooseParent(pop, i, rule);
    ghost var chosen := Preferred(pop, rule, i, last);
    var state := stack.nodes[stack.heads[pop[i].version - removed].node].state;
    ghost var k0 := KeyOf(g0[popped[v].node]);
    ProgressKey(g0, popped, pop, rule, stack.nodes, stack.heads, first, v, removed, i);
    ParentChosen(pop, i, last, rule, parent, extras, k0, ambiguous, rank);
    ghost var g1, heads1 := stack.nodes, stack.heads;
    ChosenTrails(pop[chosen].subtrees, rule, parent, extras);
    ChosenWide(pop, chosen, rule, parent, extras, state, ambiguous);
    removed' := ReduceSlice(stack, version, pop[i].version, removed, Dressed(rule, parent, state, ambiguous), extras, rule,
                            pop[chosen].subtrees, g0, popped, first, rank);
    i' := last + 1;
    AllSurviveGrown(g0, popped, pop, rule, g1, heads1, first, v, v - removed, stack.nodes, stack.heads, v + 1 - removed');
    OneMoreSurvives(g0, popped, pop, chosen, rule, stack.nodes, stack.heads, first, v, v + 1 - removed');
    assert forall k :: 0 <= k < i' ==> pop[k].version <= v;
  }

  /** What was readable from an end node of the pop is readable behind the reduced symbol and the extras trailing
      the children of some path there. */
  ghost predicate ReadsReduced(g0: Graph, n: NodeRef, count: nat, end: NodeRef, rule: Rule, g: Graph, heads: seq<Head>) {
    exists cs :: IsPath(g0, n, count, cs, end) && Survives(g0, end, cs, rule, g, heads, |heads|)
  }

  /** Small enough for the caps, counted before the call: no more than 64 ends to reach, and no more versions, were
      each path to end on a node of its own, than ten, one more, and as many as are halted. */
  ghost predicate Affordable(g: Graph, heads: seq<Head>, version: nat, count: nat, rank: Key -> nat)
    requires WellFormed(g) && Ranked(g, rank) && version < |heads| && heads[version].node in g
  {
    var n := heads[version].node;
    && PathEnds(g, rank, n, count) <= MAX_ITERATOR_COUNT
    && |heads| + Paths(g, rank, n, count) <= MAX_VERSION_COUNT + MAX_VERSION_COUNT_OVERFLOW + HaltedCount(heads) + 1
  }

  /** Even past the caps something is reduced: fewer than 64 ends come too soon, and a first new version fits. */
  ghost predicate SomeFits(g: Graph, heads: seq<Head>, version: nat, count: nat, rank: Key -> nat)
    requires WellFormed(g) && Ranked(g, rank) && version < |heads| && heads[version].node in g
  {
    var n := heads[version].node;
    && 0 < Paths(g, rank, n, count) && PathEnds(g, rank, n, count) < Paths(g, rank, n, count) + MAX_ITERATOR_COUNT
    && |heads| <= MAX_VERSION_COUNT + MAX_VERSION_COUNT_OVERFLOW + HaltedCount(heads)
  }

  /** The distinct versions of some slices. */
  function VersionsOf(slices: seq<Slice>): (vs: set<nat>)
    ensures |vs| <= |slices|
    ensures forall k :: 0 <= k < |slices| ==> slices[k].version in vs
  {
    if slices == [] then {} else VersionsOf(slices[1..]) + {slices[0].version}
  }

  function Between(first: nat, last: nat): (vs: set<nat>)
    ensures forall v :: v in vs <==> first <= v < last
    ensures first <= last ==> |vs| == last - first
    decreases last - first
  {
    if first >= last then {} else Between(first + 1, last) + {first}
  }

  lemma SubsetSize<T>(a: set<T>, b: set<T>)
    requires a <= b
    ensures |a| <= |b|
  {
    assert b == a + (b - a);
  }

  /** A pop makes no more versions than slices. */
  lemma VersionsHaveSlices(slices: seq<Slice>, heads: seq<Head>, first: nat)
    requires Grouped(slices, heads, first)
    ensures |heads| - first <= |slices|
  {
    forall v | v in Between(first, |heads|) ensures v in VersionsOf(slices) {
      assert HasSlice(slices, v);
    }
    SubsetSize(Between(first, |heads|), VersionsOf(slices));
  }

  /** reduce.  The old heads stay, nothing readable is lost, and where the caps allow it, whatever was readable below
      any of the popped paths is readable from some head, behind the reduced symbol and the extras that trailed the
      children of a path to the same end. */
  method Reduce(stack: ParseStack, version: nat, count: nat, rule: Rule, ghost rank: Key -> nat) returns (result: Option<nat>)
    requires stack.Valid(rank) && version < |stack.heads|
    requires PopLifts(stack.nodes, stack.heads[version].node, count, rule, rank)
    modifies stack
    ensures stack.Valid(rank) && Grown(old(stack.nodes), stack.nodes) && |old(stack.heads)| <= |stack.heads|
    ensures forall v :: 0 <= v < |old(stack.heads)| ==> stack.heads[v].node == old(stack.heads)[v].node
    ensures result == if |stack.heads| > |old(stack.heads)| then Some(|old(stack.heads)|) else None
    ensures old(Affordable(stack.nodes, stack.heads, version, count, rank)) ==>
      AllReduced(old(stack.nodes), old(stack.heads)[version].node, count, rule, stack.nodes, stack.heads)
    ensures old(SomeFits(stack.nodes, stack.heads, version, count, rank)) ==>
      exists end :: ReadsReduced(old(stack.nodes), old(stack.heads)[version].node, count, end, rule, stack.nodes, stack.heads)
    ensures count > 0 ==> StaysWide(old(stack.nodes), stack.nodes)
  {
    hide Grown, Survives, Shifted, AllSurvive, PopLifts, Grouped, WellFormed, Ranked, CountedPath,
      Progress, PoppedSlices, Delivered, HaltedCount, ReadsReduced, IsPath, AllWide, WideSlices, Paths, PathEnds, NewHeads;
    ghost var g0, n := stack.nodes, stack.heads[version].node;
    var initialVersionCount := |stack.heads|;
    stack.PopCount(version, count, rank);
    var pop := stack.slices;
    ghost var popped := stack.heads;
    GroupedVersions(pop, popped, initialVersionCount);
    PopFacts(stack.nodes, n, count, pop, popped, initialVersionCount, rule, rank);
    if count > 0 && AllWide(g0) { PopWide(g0, n, count, pop, popped); }
    var halted := HaltedVersionCount(stack.heads);
    var removed, i := 0, 0;
    ghost var v: nat := initialVersionCount;
    StartProgress(g0, popped, pop, rule, initialVersionCount, rank);
    while i < |pop|
      invariant stack.Valid(rank) && i <= |pop|
      invariant Progress(g0, popped, pop, rule, stack.nodes, stack.heads, initialVersionCount, v, removed, i)
      invariant WideSlices(pop) ==> StaysWide(g0, stack.nodes)
      decreases |pop| - i
    {
      ProgressNext(g0, popped, pop, rule, stack.nodes, stack.heads, initialVersionCount, v, removed, i, rank);
      var sliceVersion := pop[i].version - removed;
      if sliceVersion > MAX_VERSION_COUNT + MAX_VERSION_COUNT_OVERFLOW + halted {
        i, removed := DropRun(stack, pop, i, removed, g0, popped, initialVersionCount, v, rule, rank);
      } else {
        i, removed := ReduceRun(stack, version, pop, i, removed, |pop| > 1 || initialVersionCount > 1, rule,
                                g0, popped, initialVersionCount, v, rank);
      }
      v := v + 1;
    }
    ProgressEnd(g0, popped, pop, rule, stack.nodes, stack.heads, initialVersionCount, v, removed, old(stack.heads), rank);
    HaltedGrows(old(stack.heads), popped);
    VersionsHaveSlices(pop, popped, initialVersionCount);
    if old(Affordable(stack.nodes, stack.heads, version, count, rank)) {
      forall ls, end: NodeRef | CountedPath(g0, n, ls, count, end)
        ensures ReadsReduced(g0, n, count, end, rule, stack.nodes, stack.heads)
      {
        PathSurvives(pop, popped, initialVersionCount, Reverse(SubtreesOn(ls)), n, count, end, g0, rule, stack.nodes,
                     stack.heads, v - removed);
      }
    }
    if old(SomeFits(stack.nodes, stack.heads, version, count, rank)) {
      NextRun(pop, popped, initialVersionCount, initialVersionCount, 0);
      VersionReduced(pop, popped, initialVersionCount, initialVersionCount, n, count, g0, rule, stack.nodes, stack.heads,
                     v - removed);
    }
    result := if |stack.heads| > initialVersionCount then Some(initialVersionCount) else None;
  }

  /** That, for every path of `count` counted links. */
  ghost predicate AllReduced(g0: Graph, n: NodeRef, count: nat, rule: Rule, g: Graph, heads: seq<Head>) {
    forall ls, end: NodeRef :: CountedPath(g0, n, ls, count, end) ==> ReadsReduced(g0, n, count, end, rule, g, heads)
  }

  // ---------------------------------------------------------------- runs of reductions

  /** One call of reduce on a head. */
  datatype Reduction = Reduction(version: nat, count: nat, rule: Rule)

  ghost predicate WideStack(g: Graph, heads: seq<Head>) {
    WellFormed(g) && Ranked(g, Position()) && AllIn(g, heads) && AllWide(g)
  }

  ghost predicate HeadsKept(heads: seq<Head>, heads': seq<Head>) {
    |heads| <= |heads'| && forall v :: 0 <= v < |heads| ==> heads'[v].node == heads[v].node
  }

  /** What one reduction does to a stack of wide subtrees; for a version that is not there, nothing. */
  ghost predicate StepsTo(g: Graph, heads: seq<Head>, r: Reduction, g': Graph, heads': seq<Head>)
    requires WideStack(g, heads)
  {
    && Grown(g, g') && HeadsKept(heads, heads')
    && if r.version >= |heads| then g' == g && heads' == heads
       else
         var n := heads[r.version].node;
         && (Affordable(g, heads, r.version, r.count, Position()) ==> AllReduced(g, n, r.count, r.rule, g', heads'))
         && (SomeFits(g, heads, r.version, r.count, Position()) ==>
               exists end :: ReadsReduced(g, n, r.count, end, r.rule, g', heads'))
  }

  /** A run of reductions, one after another, each from where the one before left the stack. */
  ghost predicate RunsTo(g: Graph, heads: seq<Head>, todo: seq<Reduction>, g': Graph, heads': seq<Head>)
    requires WideStack(g, heads)
    decreases |todo|
  {
    if todo == [] then g' == g && heads' == heads
    else
      exists g1, heads1 ::
        WideStack(g1, heads1) && RunsTo(g, heads, todo[..|todo| - 1], g1, heads1)
        && StepsTo(g1, heads1, todo[|todo| - 1], g', heads')
  }

  lemma RunsOn(g: Graph, heads: seq<Head>, todo: seq<Reduction>, g1: Graph, heads1: seq<Head>, r: Reduction,
               g2: Graph, heads2: seq<Head>)
    requires WideStack(g, heads) && WideStack(g1, heads1) && RunsTo(g, heads, todo, g1, heads1)
    requires StepsTo(g1, heads1, r, g2, heads2)
    ensures RunsTo(g, heads, todo + [r], g2, heads2)
  {
    hide WideStack, StepsTo;
    assert (todo + [r])[..|todo|] == todo;
  }

  lemma {:induction false} RunKeeps(g: Graph, heads: seq<Head>, todo: seq<Reduction>, g': Graph, heads': seq<Head>)
    requires WideStack(g, heads) && RunsTo(g, heads, todo, g', heads')
    ensures Grown(g, g') && HeadsKept(heads, heads')
    decreases |todo|
  {
    hide Grown, WideStack, CountedPath, AllReduced, Affordable, SomeFits, ReadsReduced;
    if todo == [] {
      GrownSelf(g);
    } else {
      var last := todo[|todo| - 1];
      var g1, heads1 :| WideStack(g1, heads1) && RunsTo(g, heads, todo[..|todo| - 1], g1, heads1)
                     && StepsTo(g1, heads1, last, g', heads');
      RunKeeps(g, heads, todo[..|todo| - 1], g1, heads1);
      GrownTransitive(g, g1, g');
    }
  }

  lemma AllReducedGrown(g0: Graph, n: NodeRef, count: nat, rule: Rule, g: Graph, heads: seq<Head>, g': Graph, heads': seq<Head>)
    requires AllReduced(g0, n, count, rule, g, heads) && Grown(g, g') && HeadsKept(heads, heads')
    ensures AllReduced(g0, n, count, rule, g', heads')
  {
    hide Grown, CountedPath, IsPath, Survives;
    forall ls, end: NodeRef | CountedPath(g0, n, ls, count, end) ensures ReadsReduced(g0, n, count, end, rule, g', heads') {
      assert ReadsReduced(g0, n, count, end, rule, g, heads);
      var cs :| IsPath(g0, n, count, cs, end) && Survives(g0, end, cs, rule, g, heads, |heads|);
      SurvivesGrown(g0, end, cs, rule, g, heads, |heads|, g', heads', |heads'|);
    }
  }

  /** What any reduction of a run makes readable is readable at the end of the run. */
  lemma {:induction false} RunReduces(g: Graph, heads: seq<Head>, todo: seq<Reduction>, i: nat, g': Graph, heads': seq<Head>)
    returns (gi: Graph, hi: seq<Head>)
    requires WideStack(g, heads) && RunsTo(g, heads, todo, g', heads') && i < |todo|
    ensures WideStack(gi, hi) && RunsTo(g, heads, todo[..i], gi, hi)
    ensures var r := todo[i];
      r.version < |hi| && Affordable(gi, hi, r.version, r.count, Position()) ==>
        AllReduced(gi, hi[r.version].node, r.count, r.rule, g', heads')
    decreases |todo|
  {
    hide Grown, AllWide, WellFormed, Ranked, CountedPath, AllReduced, Affordable, SomeFits, ReadsReduced;
    var before, last := todo[..|todo| - 1], todo[|todo| - 1];
    var g1, heads1 :| WideStack(g1, heads1) && RunsTo(g, heads, before, g1, heads1) && StepsTo(g1, heads1, last, g', heads');
    if i == |todo| - 1 {
      gi, hi := g1, heads1;
    } else {
      gi, hi := RunReduces(g, heads, before, i, g1, heads1);
      assert before[..i] == todo[..i] && before[i] == todo[i];
      var r := todo[i];
      if r.version < |hi| && Affordable(gi, hi, r.version, r.count, Position()) {
        AllReducedGrown(gi, hi[r.version].node, r.count, r.rule, g1, heads1, g', heads');
      }
    }
  }

  /** Any run of reductions of at least one child on a stack of wide subtrees, by any rules and goto tables, on
      whatever heads there are by then: each may be made and makes its reductions readable, the stack stays wide and
      ranked by position, the old heads stay, and nothing readable is ever lost. */
  method ReduceRepeatedly(stack: ParseStack, todo: seq<Reduction>)
    requires stack.Valid(Position()) && AllWide(stack.nodes) && forall i :: 0 <= i < |todo| ==> todo[i].count > 0
    modifies stack
    ensures stack.Valid(Position()) && AllWide(stack.nodes) && old(WideStack(stack.nodes, stack.heads))
    ensures RunsTo(old(stack.nodes), old(stack.heads), todo, stack.nodes, stack.heads)
    ensures Grown(old(stack.nodes), stack.nodes) && HeadsKept(old(stack.heads), stack.heads)
  {
    hide Grown, AllWide, PopLifts, WellFormed, Ranked, ReadsReduced, Position, HaltedCount, AllReduced, Affordable, SomeFits,
      RunsTo, AllIn;
    ghost var g0, heads0 := stack.nodes, stack.heads;
    NoRun(g0, heads0);
    for i := 0 to |todo|
      invariant stack.Valid(Position()) && AllWide(stack.nodes) && WideStack(g0, heads0)
      invariant RunsTo(g0, heads0, todo[..i], stack.nodes, stack.heads)
    {
      var Reduction(version, count, rule) := todo[i];
      ghost var g, heads := stack.nodes, stack.heads;
      GrownSelf(g);
      if version < |stack.heads| {
        WideReductionsLift(g, stack.heads[version].node, count, rule);
        var _ := Reduce(stack, version, count, rule, Position());
      }
      RunsOn(g0, heads0, todo[..i], g, heads, todo[i], stack.nodes, stack.heads);
      assert todo[..i + 1] == todo[..i] + [todo[i]];
    }
    assert todo[..|todo|] == todo;
    RunKeeps(g0, heads0, todo, stack.nodes, stack.heads);
  }

  lemma NoRun(g: Graph, heads: seq<Head>)
    requires WideStack(g, heads)
    ensures RunsTo(g, heads, [], g, heads)
  {
  }

  // ---------------------------------------------------------------- one token

  /** One token shifted onto a fresh stack and reduced by any rule of one child: some head then reads the rule's
      symbol on the base. */
  method ReduceOneToken(token: Tree, state: nat, rule: Rule) returns (stack: ParseStack)
    requires token.Total().bytes > 0 && !token.Extra()
    ensures fresh(stack) && stack.Valid(Position())
    ensures exists w :: 0 <= w < |stack.heads|
                     && Reads(stack.nodes, stack.heads[w].node, [Step(Some(rule.symbol), 1)])
  {
    hide Grown, PopLifts, AllReduced, Affordable, SomeFits, Reads, WellFormed, Ranked, PathEnds, Paths, NewNode;
    stack := new ParseStack(Position());
    PositionRises(stack.nodes, token, state);
    stack.Push(0, Some(token), false, state, Position());
    ghost var g := stack.nodes;
    OneTokenLifts(token, state, rule);
    OneTokenAffordable(token, state, stack.heads);
    var _ := Reduce(stack, 0, 1, rule, Position());
    OneTokenReads(token, state, rule, stack.nodes, stack.heads);
  }

  lemma PositionRises(g: Graph, token: Tree, state: nat)
    requires g == map[0 := StackNode(1, ZERO, [], 0, 0, 0)] && token.Total().bytes > 0
    ensures KeyOf(NewNode(g, 0, Some(token), false, state)).bytes > KeyOf(g[0]).bytes
  {
  }

  function OneToken(token: Tree, state: nat): Graph {
    var base: Graph := map[0 := StackNode(1, ZERO, [], 0, 0, 0)];
    base[1 := NewNode(base, 0, Some(token), false, state)]
  }

  lemma OneTokenAffordable(token: Tree, state: nat, heads: seq<Head>)
    requires token.Total().bytes > 0 && !token.Extra() && |heads| == 1 && heads[0].node == 1
    ensures var g := OneToken(token, state);
      WellFormed(g) && Ranked(g, Position()) && Affordable(g, heads, 0, 1, Position())
  {
    var g := OneToken(token, state);
    var cb := CountAction(1);
    var start := Iterator(1, [], 0, true);
    var link := g[1].links[0];
    assert g[1].links == [link] && g[0].links == [];
    var next := Across(start, link);
    assert cb(next).stop && cb(next).pop && !cb(start).stop && !cb(start).pop;
    hide HaltedCount;
    assert Ends(g, Position(), cb, next) == 1;
    assert EndsAcross(g, Position(), cb, start, 1) == 0;
    assert Ends(g, Position(), cb, start) == EndsAcross(g, Position(), cb, start, 0) == 1;
    EndsCounted(g, Position(), cb, start);
    assert PopsAtEnds(g, cb);
  }

  /** The one path there is. */
  lemma OneTokenPaths(token: Tree, state: nat, ls: seq<Link>)
    requires !token.Extra()
    ensures var g := OneToken(token, state);
      && CountedPath(g, 1, [g[1].links[0]], 1, 0)
      && (CountedPath(g, 1, ls, 1, 0) ==> SubtreesOn(ls) == [token])
  {
    var g := OneToken(token, state);
    var link := g[1].links[0];
    assert g[1].links == [link] && [link][1..] == [] && Counted(link) == 1 && link.subtree == Some(token);
    assert CountedPath(g, 0, [], 0, 0);
    if CountedPath(g, 1, ls, 1, 0) {
      assert ls[0] == link;
      assert CountedPath(g, 0, ls[1..], 0, 0);
      assert SubtreesOn(ls) == [token] + SubtreesOn([]);
    }
  }

  lemma NothingTrails(token: Tree)
    requires !token.Extra()
    ensures Reverse([token]) == [token] && Trailing([token]) == []
  {
    assert [token][1..] == [];
  }

  lemma OneTokenReads(token: Tree, state: nat, rule: Rule, g': Graph, heads: seq<Head>)
    requires !token.Extra() && AllReduced(OneToken(token, state), 1, 1, rule, g', heads)
    ensures exists w :: 0 <= w < |heads| && Reads(g', heads[w].node, [Step(Some(rule.symbol), 1)])
  {
    var g := OneToken(token, state);
    OneTokenPaths(token, state, []);
    NothingTrails(token);
    assert Reads(g, 0, []) && g[0].state == 1;
    var steps := Behind(rule, 1, []);
    assert steps == [Step(Some(rule.symbol), 1)] && steps + [] == steps;
    hide Reads, CountedPath, SubtreesOn, Reverse, Trailing, Behind, OneToken, IsPath;
    assert ReadsReduced(g, 1, 1, 0, rule, g', heads);
    var cs :| IsPath(g, 1, 1, cs, 0) && Survives(g, 0, cs, rule, g', heads, |heads|);
    OnePath(token, state, cs);
    var w :| 0 <= w < |heads| && Carried(g, 0, g', heads[w].node, steps);
    assert Reads(g', heads[w].node, steps + []);
  }

  lemma OnePath(token: Tree, state: nat, cs: seq<Tree>)
    requires !token.Extra() && IsPath(OneToken(token, state), 1, 1, cs, 0)
    ensures cs == [token]
  {
    hide CountedPath, SubtreesOn, Reverse, OneToken;
    var ls :| CountedPath(OneToken(token, state), 1, ls, 1, 0) && cs == Reverse(SubtreesOn(ls));
    OneTokenPaths(token, state, ls);
    NothingTrails(token);
  }

  lemma ProgressKey(g0: Graph, popped: seq<Head>, pop: seq<Slice>, rule: Rule, g: Graph, heads: seq<Head>,
                    first: nat, v: nat, removed: nat, i: nat)
    requires Progress(g0, popped, pop, rule, g, heads, first, v, removed, i) && v < |popped| && popped[v].node in g0
    ensures popped[v].node in g && KeyOf(g[popped[v].node]) == KeyOf(g0[popped[v].node])
  {
    GrownKey(g0, g, popped[v].node);
  }

  lemma StartProgress(g0: Graph, popped: seq<Head>, pop: seq<Slice>, rule: Rule, first: nat, rank: Key -> nat)
    requires PoppedSlices(g0, popped, pop, first, rule, rank)
    ensures Progress(g0, popped, pop, rule, g0, popped, first, first, 0, 0)
  {
    hide Grown;
    GrownSelf(g0);
    StartShift(popped, pop, first, g0, rule);
  }

  lemma ProgressNext(g0: Graph, popped: seq<Head>, pop: seq<Slice>, rule: Rule, g: Graph, heads: seq<Head>,
                     first: nat, v: nat, removed: nat, i: nat, rank: Key -> nat)
    requires PoppedSlices(g0, popped, pop, first, rule, rank) && Progress(g0, popped, pop, rule, g, heads, first, v, removed, i)
    requires i < |pop|
    ensures pop[i].version == v < |popped| && removed <= v
  {
    hide Grown, Grouped, AllSurvive, Shifted;
    NextRun(pop, popped, first, v, i);
  }

  lemma ProgressEnd(g0: Graph, popped: seq<Head>, pop: seq<Slice>, rule: Rule, g: Graph, heads: seq<Head>,
                    first: nat, v: nat, removed: nat, heads0: seq<Head>, rank: Key -> nat)
    requires PoppedSlices(g0, popped, pop, first, rule, rank) && Progress(g0, popped, pop, rule, g, heads, first, v, removed, |pop|)
    requires first == |heads0| && heads0 <= popped
    ensures v == |popped| && removed <= v && Grown(g0, g) && |heads| == v - removed && first <= |heads|
    ensures Grouped(pop, popped, first)
    ensures forall u :: 0 <= u < first ==> heads[u].node == heads0[u].node
    ensures AllSurvive(g0, popped, pop, rule, g, heads, first, |popped|, v - removed)
  {
    hide Grown, Grouped, AllSurvive;
    NextRun(pop, popped, first, v, |pop|);
    EndShift(popped, heads, first, v, removed, heads0);
  }

  lemma HeadsIn(g: Graph, heads: seq<Head>, version: nat)
    requires AllIn(g, heads) && version < |heads|
    ensures AllIn(g, heads[..version] + heads[version + 1..])
  {
  }

  lemma PopFacts(g: Graph, n: NodeRef, count: nat, pop: seq<Slice>, popped: seq<Head>, first: nat, rule: Rule,
                 rank: Key -> nat)
    requires Grouped(pop, popped, first) && PopLifts(g, n, count, rule, rank) && AllIn(g, popped)
    requires forall k :: 0 <= k < |pop| ==> pop[k].version < |popped| && IsPath(g, n, count, pop[k].subtrees, popped[pop[k].version].node)
    ensures PoppedSlices(g, popped, pop, first, rule, rank)
  {
    hide SliceLifts, CountedPath;
    forall k | 0 <= k < |pop|
      ensures SliceLifts(rank, KeyOf(g[popped[pop[k].version].node]), rule, pop[k].subtrees)
    {
      var end := popped[pop[k].version].node;
      var ls :| CountedPath(g, n, ls, count, end) && pop[k].subtrees == Reverse(SubtreesOn(ls));
    }
  }

  lemma PopWide(g: Graph, n: NodeRef, count: nat, pop: seq<Slice>, popped: seq<Head>)
    requires AllWide(g) && count > 0
    requires forall k :: 0 <= k < |pop| ==> pop[k].version < |popped| && IsPath(g, n, count, pop[k].subtrees, popped[pop[k].version].node)
    ensures WideSlices(pop)
  {
    hide AllWide, CountedPath;
    forall k | 0 <= k < |pop| ensures Wide(pop[k].subtrees) && pop[k].subtrees != [] && !pop[k].subtrees[0].Extra() {
      var end := popped[pop[k].version].node;
      var ls :| CountedPath(g, n, ls, count, end) && pop[k].subtrees == Reverse(SubtreesOn(ls));
      PathWide(g, n, ls, count, end);
      ReverseWide(SubtreesOn(ls));
    }
  }

  lemma StartShift(popped: seq<Head>, pop: seq<Slice>, first: nat, g0: Graph, rule: Rule)
    requires first <= |popped|
    ensures Shifted(popped, popped, first, first, 0)
    ensures AllSurvive(g0, popped, pop, rule, g0, popped, first, first, first)
  {
  }

  lemma ShiftBounds(popped: seq<Head>, heads: seq<Head>, first: nat, v: nat, removed: nat)
    requires Shifted(popped, heads, first, v, removed) && v < |popped|
    ensures removed <= v - first && v - removed < |heads| && heads[v - removed] == popped[v]
  {
    assert heads[v - removed..][0] == popped[v..][0];
  }

  lemma DropShift(popped: seq<Head>, heads: seq<Head>, heads': seq<Head>, first: nat, v: nat, removed: nat)
    requires Shifted(popped, heads, first, v, removed) && v < |popped|
    requires heads' == heads[..v - removed] + heads[v - removed + 1..]
    ensures Shifted(popped, heads', first, v + 1, removed + 1)
  {
    assert heads'[v - removed..] == heads[v - removed..][1..];
    assert popped[v + 1..] == popped[v..][1..];
  }

  lemma EndShift(popped: seq<Head>, heads: seq<Head>, first: nat, v: nat, removed: nat, heads0: seq<Head>)
    requires Shifted(popped, heads, first, v, removed) && v == |popped| && first == |heads0| && heads0 <= popped
    ensures |heads| == v - removed && first <= |heads|
    ensures forall u :: 0 <= u < first ==> heads[u].node == heads0[u].node
  {
    assert popped[v..] == [];
  }

  lemma ParentChosen(pop: seq<Slice>, start: nat, last: nat, rule: Rule, parent: Tree, extras: seq<Tree>, k: Key,
                     ambiguous: bool, rank: Key -> nat)
    requires start <= last < |pop| && exists i :: start <= i <= last && Chosen(pop[i].subtrees, rule, parent, extras)
    requires forall i :: start <= i <= last ==> SliceLifts(rank, k, rule, pop[i].subtrees)
    ensures parent.Node? && parent.Symbol() == rule.symbol
    ensures Lifts(rank, k, rule.next(k.state), Dressed(rule, parent, k.state, ambiguous), extras)
  {
    hide Climbs, FrontLength, ParentOver;
    var i :| start <= i <= last && Chosen(pop[i].subtrees, rule, parent, extras);
    var cs := pop[i].subtrees;
    ParentSymbol(rule, cs[..FrontLength(cs)]);
    assert SliceLifts(rank, k, rule, cs);
    var dressed := Dressed(rule, parent, k.state, ambiguous);
    assert Onto(k, rule.next(k.state), dressed) == Onto(k, rule.next(k.state), parent);
  }

  lemma DroppedSurvives(g0: Graph, popped: seq<Head>, pop: seq<Slice>, rule: Rule, g: Graph, heads: seq<Head>,
                        first: nat, v: nat, limit: nat)
    requires AllSurvive(g0, popped, pop, rule, g, heads, first, v, limit) && v > LastFitting(popped)
    ensures AllSurvive(g0, popped, pop, rule, g, heads, first, v + 1, limit)
  {
    hide SliceSurvives, HaltedCount;
  }

  lemma OneMoreSurvives(g0: Graph, popped: seq<Head>, pop: seq<Slice>, k: nat, rule: Rule, g: Graph, heads: seq<Head>,
                        first: nat, v: nat, limit: nat)
    requires AllSurvive(g0, popped, pop, rule, g, heads, first, v, limit) && v < |popped|
    requires k < |pop| && pop[k].version == v && Survives(g0, popped[v].node, pop[k].subtrees, rule, g, heads, limit)
    ensures AllSurvive(g0, popped, pop, rule, g, heads, first, v + 1, limit)
  {
    hide Survives;
  }

  lemma PathSurvives(pop: seq<Slice>, popped: seq<Head>, first: nat, subtrees: seq<Tree>, n: NodeRef, count: nat,
                     end: NodeRef, g0: Graph, rule: Rule, g: Graph, heads: seq<Head>, limit: nat)
    requires Grouped(pop, popped, first) && Delivered(pop, popped, subtrees, end) && |popped| <= LastFitting(popped) + 1
    requires forall k :: 0 <= k < |pop| ==>
      pop[k].version < |popped| && IsPath(g0, n, count, pop[k].subtrees, popped[pop[k].version].node)
    requires AllSurvive(g0, popped, pop, rule, g, heads, first, |popped|, limit) && limit <= |heads|
    ensures ReadsReduced(g0, n, count, end, rule, g, heads)
  {
    hide Survives, IsPath, Grown, LastFitting, SliceSurvives, ReadsReduced;
    var j :| 0 <= j < |pop| && pop[j].version < |popped| && pop[j].subtrees == subtrees && popped[pop[j].version].node == end;
    VersionReduced(pop, popped, first, pop[j].version, n, count, g0, rule, g, heads, limit);
  }

  /** A version that fits was reduced. */
  lemma VersionReduced(pop: seq<Slice>, popped: seq<Head>, first: nat, u: nat, n: NodeRef, count: nat, g0: Graph, rule: Rule,
                       g: Graph, heads: seq<Head>, limit: nat)
    requires first <= u < |popped| && u <= LastFitting(popped) && limit <= |heads|
    requires forall k :: 0 <= k < |pop| ==>
      pop[k].version < |popped| && IsPath(g0, n, count, pop[k].subtrees, popped[pop[k].version].node)
    requires AllSurvive(g0, popped, pop, rule, g, heads, first, |popped|, limit)
    ensures ReadsReduced(g0, n, count, popped[u].node, rule, g, heads)
  {
    hide Survives, IsPath, Grown, LastFitting;
    var end := popped[u].node;
    assert SliceSurvives(g0, popped, pop, u, rule, g, heads, limit);
    var k :| 0 <= k < |pop| && pop[k].version == u && Survives(g0, end, pop[k].subtrees, rule, g, heads, limit);
    GrownSelf(g);
    SurvivesGrown(g0, end, pop[k].subtrees, rule, g, heads, limit, g, heads, |heads|);
  }
}
