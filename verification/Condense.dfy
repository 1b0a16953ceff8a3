/** Pruning the parse versions (parser_loop.go:144-211, parser_core.go:189-239). */
module Condense {
  import opened Lengths
  import opened Trees
  import opened EditSpec
  import opened StackGraph
  import opened ParseStacks

  const MAX_VERSION_COUNT := 6
  const MAX_COST_DIFFERENCE := 18 * COST_PER_SKIPPED_TREE
  const MAX_COST := WRAP - 1

  /** Loop counters are unsigned: stepping back from zero wraps, and the next step forward
      wraps again. */
  function Dec(x: nat): nat
    requires x < WRAP
  {
    if x == 0 then WRAP - 1 else x - 1
  }

  function Inc(x: nat): nat {
    (x + 1) % WRAP
  }

  lemma Counters(x: nat)
    requires x < WRAP - 1
    ensures Inc(Dec(x)) == x && Inc(x) == x + 1 && (x > 0 ==> Dec(x) == x - 1)
  {
  }

  datatype ErrorStatus = ErrorStatus(cost: nat, nodeCount: nat, dynamicPrecedence: int, isInError: bool)

  datatype Comparison = TakeLeft | PreferLeft | NoPreference | PreferRight | TakeRight

  /** A cost gap, weighted by how much was parsed since, in 32-bit arithmetic. */
  predicate FarBehind(better: ErrorStatus, worse: ErrorStatus)
    requires better.cost <= worse.cost
  {
    ((worse.cost - better.cost) * (1 + better.nodeCount)) % WRAP > MAX_COST_DIFFERENCE
  }

  function CompareVersions(a: ErrorStatus, b: ErrorStatus): Comparison {
    if !a.isInError && b.isInError then
      if a.cost < b.cost then TakeLeft else PreferLeft
    else if a.isInError && !b.isInError then
      if b.cost < a.cost then TakeRight else PreferRight
    else if a.cost < b.cost then
      if FarBehind(a, b) then TakeLeft else PreferLeft
    else if b.cost < a.cost then
      if FarBehind(b, a) then TakeRight else PreferRight
    else if a.dynamicPrecedence > b.dynamicPrecedence then PreferLeft
    else if b.dynamicPrecedence > a.dynamicPrecedence then PreferRight
    else NoPreference
  }

  /** A version that parses without error: active, and not in the error state. */
  predicate Clean(g: Graph, h: Head)
    requires h.node in g
  {
    h.status != Paused && g[h.node].state != ERROR_STATE
  }

  function CleanCost(g: Graph, h: Head): int
    requires h.node in g
  {
    g[h.node].errorCost
  }

  function HeadCost(g: Graph, h: Head): int
    requires h.node in g
  {
    var n := g[h.node];
    var emptyTop := n.links == [] || n.links[0].subtree.None?;
    n.errorCost + (if h.status == Paused || (n.state == ERROR_STATE && emptyTop) then COST_PER_RECOVERY else 0)
  }

  /** No cost comes near the end of the 32-bit range. */
  ghost predicate CostsFit(g: Graph) {
    forall n :: n in g ==> 0 <= g[n].errorCost < MAX_COST - COST_PER_RECOVERY - COST_PER_SKIPPED_TREE
  }

  /** Same version, whatever its error mark. */
  predicate SameVersion(a: Head, b: Head) {
    a.(nodeCountAtLastError := 0) == b.(nodeCountAtLastError := 0)
  }

  predicate SameVersions(a: seq<Head>, b: seq<Head>) {
    |a| == |b| && forall v :: 0 <= v < |a| ==> SameVersion(a[v], b[v])
  }

  /** The least cost among the clean, unhalted versions of a list; MAX_COST if none. */
  function LeastClean(g: Graph, heads: seq<Head>): int
    requires forall v :: 0 <= v < |heads| ==> heads[v].node in g
  {
    if heads == [] then MAX_COST else
    var rest := LeastClean(g, heads[..|heads| - 1]);
    var last := heads[|heads| - 1];
    if last.status != Halted && Clean(g, last) && CleanCost(g, last) < rest then CleanCost(g, last) else rest
  }

  /** versionStatus, which also pulls back an error mark that ran ahead of the node count. */
  method VersionStatus(stack: ParseStack, version: nat, ghost rank: Key -> nat) returns (status: ErrorStatus)
    requires stack.Valid(rank) && version < |stack.heads| && CostsFit(stack.nodes)
    modifies stack`heads
    ensures stack.Valid(rank) && SameVersions(old(stack.heads), stack.heads)
    ensures status.cost == HeadCost(stack.nodes, stack.heads[version])
                           + (if stack.heads[version].status == Paused then COST_PER_SKIPPED_TREE else 0)
    ensures status.isInError == !Clean(stack.nodes, stack.heads[version])
    ensures !status.isInError ==> status.cost == CleanCost(stack.nodes, stack.heads[version])
  {
    var head := stack.heads[version];
    var node := stack.nodes[head.node];
    var cost := HeadCost(stack.nodes, head);
    if head.status == Paused {
      cost := cost + COST_PER_SKIPPED_TREE;
    }
    if node.nodeCount < head.nodeCountAtLastError {
      head := head.(nodeCountAtLastError := node.nodeCount);
      stack.heads := stack.heads[version := head];
    }
    status := ErrorStatus(cost, node.nodeCount - head.nodeCountAtLastError, node.dynamicPrecedence,
                          head.status == Paused || node.state == ERROR_STATE);
  }

  /** What holds of the versions up to and including i, whose least clean cost is `least`. */
  ghost predicate Sifted(g: Graph, heads: seq<Head>, count: nat, least: int) {
    && count <= |heads| && (forall v :: 0 <= v < |heads| ==> heads[v].node in g)
    && (forall v :: 0 <= v < count ==> heads[v].status != Halted)
    && (forall v :: 0 <= v < count && Clean(g, heads[v]) ==> CleanCost(g, heads[v]) >= least)
  }

  predicate Leads(g: Graph, heads: seq<Head>, v: nat, least: int)
    requires v < |heads| && heads[v].node in g
  {
    Clean(g, heads[v]) && CleanCost(g, heads[v]) == least
  }

  function Drop(heads: seq<Head>, v: nat): seq<Head>
    requires v < |heads|
  {
    heads[..v] + heads[v + 1..]
  }

  /** A round of the inner loop: version i against version j.  `status` is what was read of
      version i before the first comparison; after a swap it is stale, but then j > 0. */
  ghost predicate Round(g: Graph, heads: seq<Head>, i: nat, j: nat, least: int, status: ErrorStatus, tail: seq<Head>) {
    && i < |heads| && j <= i + 1 && Sifted(g, heads, i + 1, least)
    && SameVersions(heads[i + 1..], tail)
    && (j == 0 ==> status.isInError == !Clean(g, heads[i]))
    && (j == 0 && !status.isInError ==> status.cost == CleanCost(g, heads[i]))
    && (least < MAX_COST ==> Leads(g, heads, 0, least) || (j == 0 && Leads(g, heads, i, least)))
  }

  lemma RoundSame(g: Graph, g': Graph, heads: seq<Head>, heads': seq<Head>, i: nat, j: nat, least: int,
                  status: ErrorStatus, tail: seq<Head>)
    requires Round(g, heads, i, j, least, status, tail) && SameVersions(heads, heads')
    requires Extends(g, g')
    ensures Round(g', heads', i, j, least, status, tail)
  {
  }

  /** In the first comparison, the side the comparison favours leads; later, version 0 does. */
  lemma ComparisonLeads(g: Graph, heads: seq<Head>, i: nat, j: nat, least: int, a: ErrorStatus, b: ErrorStatus, tail: seq<Head>)
    requires Round(g, heads, i, j, least, b, tail) && j < i && least < MAX_COST
    requires a.isInError == !Clean(g, heads[j]) && (!a.isInError ==> a.cost == CleanCost(g, heads[j]))
    ensures CompareVersions(a, b) in {TakeLeft, PreferLeft, NoPreference} || j > 0 ==> Leads(g, heads, 0, least)
    ensures CompareVersions(a, b) in {PreferRight, TakeRight} && j == 0 ==> Leads(g, heads, i, least)
  {
  }

  lemma RoundDropI(g: Graph, heads: seq<Head>, i: nat, j: nat, least: int, status: ErrorStatus, tail: seq<Head>)
    requires Round(g, heads, i, j, least, status, tail) && j < i
    requires least < MAX_COST ==> Leads(g, heads, 0, least)
    ensures Round(g, Drop(heads, i), i - 1, i, least, status, tail)
  {
    assert Drop(heads, i)[i..] == heads[i + 1..];
  }

  lemma RoundNext(g: Graph, heads: seq<Head>, i: nat, j: nat, least: int, status: ErrorStatus, tail: seq<Head>)
    requires Round(g, heads, i, j, least, status, tail) && j < i
    requires least < MAX_COST ==> Leads(g, heads, 0, least)
    ensures Round(g, heads, i, j + 1, least, status, tail)
  {
  }

  lemma RoundSwap(g: Graph, heads: seq<Head>, i: nat, j: nat, least: int, status: ErrorStatus, tail: seq<Head>)
    requires Round(g, heads, i, j, least, status, tail) && j < i
    requires j == 0 && least < MAX_COST ==> Leads(g, heads, i, least)
    ensures Round(g, heads[i := heads[j]][j := heads[i]], i, j + 1, least, status, tail)
  {
    assert heads[i := heads[j]][j := heads[i]][i + 1..] == heads[i + 1..];
  }

  lemma RoundDropJ(g: Graph, heads: seq<Head>, i: nat, j: nat, least: int, status: ErrorStatus, tail: seq<Head>)
    requires Round(g, heads, i, j, least, status, tail) && j < i
    requires j == 0 && least < MAX_COST ==> Leads(g, heads, i, least)
    ensures Round(g, Drop(heads, j), i - 1, j, least, status, tail)
  {
    var heads' := Drop(heads, j);
    assert heads'[i..] == heads[i + 1..];
    assert heads'[i - 1] == heads[i];
    if j > 0 {
      assert heads'[0] == heads[0];
    }
  }

  lemma RoundMerged(g: Graph, g': Graph, heads: seq<Head>, heads': seq<Head>, i: nat, j: nat, least: int,
                    status: ErrorStatus, tail: seq<Head>)
    requires Round(g, heads, i, j, least, status, tail) && j < i && Extends(g, g')
    requires least < MAX_COST ==> Leads(g, heads, 0, least)
    requires SameVersions(Drop(heads, i), heads')
    ensures Round(g', heads', i - 1, i, least, status, tail)
  {
    RoundDropI(g, heads, i, j, least, status, tail);
    RoundSame(g, g', Drop(heads, i), heads', i - 1, i, least, status, tail);
  }

  /** Two heads that merge are equally clean and cost the same. */
  lemma MergeableLeads(stack: ParseStack, j: nat, i: nat, least: int)
    requires i < |stack.heads| && j < |stack.heads| && AllIn(stack.nodes, stack.heads)
    ensures stack.CanMerge(j, i) ==>
              (Leads(stack.nodes, stack.heads, i, least) <==> Leads(stack.nodes, stack.heads, j, least))
  {
  }

  /** Compares version i with every earlier one, as the inner loop does: it may drop either,
      merge them, or swap them, each time stepping the counters. */
  method Sift(stack: ParseStack, start: nat, statusI: ErrorStatus, ghost least: nat, ghost rank: Key -> nat)
    returns (i: nat)
    requires stack.Valid(rank) && CostsFit(stack.nodes) && start < |stack.heads| < WRAP
    requires statusI.isInError == !Clean(stack.nodes, stack.heads[start])
    requires !statusI.isInError ==> statusI.cost == CleanCost(stack.nodes, stack.heads[start])
    requires Sifted(stack.nodes, stack.heads, start + 1, least)
    requires least < MAX_COST ==>
               Leads(stack.nodes, stack.heads, start, least) || (start > 0 && Leads(stack.nodes, stack.heads, 0, least))
    modifies stack
    ensures stack.Valid(rank) && CostsFit(stack.nodes) && i <= start
    ensures Extends(old(stack.nodes), stack.nodes) && |stack.heads| <= |old(stack.heads)|
    ensures i < |stack.heads| && Sifted(stack.nodes, stack.heads, i + 1, least)
    ensures least < MAX_COST ==> Leads(stack.nodes, stack.heads, 0, least)
    ensures SameVersions(stack.heads[i + 1..], old(stack.heads)[start + 1..]) && Drawn(stack.heads, old(stack.heads))
  {
    hide Sifted, CompareVersions, Drawn;
    DrawnSame(stack.heads, stack.heads);
    ghost var tail := stack.heads[start + 1..];
    i := start;
    var j: nat := 0;
    ExtendsSelf(stack.nodes);
    RoundStart(stack.nodes, stack.heads, start, least, statusI);
    while j < i
      invariant stack.Valid(rank) && CostsFit(stack.nodes) && Extends(old(stack.nodes), stack.nodes)
      invariant i <= start && |stack.heads| <= |old(stack.heads)| && Drawn(stack.heads, old(stack.heads))
      invariant Round(stack.nodes, stack.heads, i, j, least, statusI, tail)
      decreases i - j
    {
      ghost var g, heads := stack.nodes, stack.heads;
      var statusJ := VersionStatus(stack, j, rank);
      RoundSame(g, g, heads, stack.heads, i, j, least, statusI, tail);
      ghost var marked := stack.heads;
      DrawnSame(marked, heads);
      DrawnThen(marked, heads, old(stack.heads));
      i, j := CompareOnce(stack, i, j, least, statusJ, statusI, tail, rank);
      DrawnThen(stack.heads, marked, old(stack.heads));
      ExtendsTransitive(old(stack.nodes), g, stack.nodes);
    }
    RoundEnd(stack.nodes, stack.heads, i, j, least, statusI, tail);
  }

  lemma ExtendsSelf(g: Graph)
    ensures Extends(g, g)
  {
  }

  lemma RoundStart(g: Graph, heads: seq<Head>, start: nat, least: int, status: ErrorStatus)
    requires start < |heads| && Sifted(g, heads, start + 1, least)
    requires least < MAX_COST ==> Leads(g, heads, start, least) || (start > 0 && Leads(g, heads, 0, least))
    requires status.isInError == !Clean(g, heads[start])
    requires !status.isInError ==> status.cost == CleanCost(g, heads[start])
    ensures Round(g, heads, start, 0, least, status, heads[start + 1..])
  {
  }

  lemma RoundEnd(g: Graph, heads: seq<Head>, i: nat, j: nat, least: int, status: ErrorStatus, tail: seq<Head>)
    requires Round(g, heads, i, j, least, status, tail) && j >= i
    ensures Sifted(g, heads, i + 1, least) && SameVersions(heads[i + 1..], tail)
    ensures least < MAX_COST ==> Leads(g, heads, 0, least)
  {
  }

  /** A merge, as far as the versions are concerned. */
  method TryMerge(stack: ParseStack, j: nat, i: nat, ghost rank: Key -> nat) returns (merged: bool)
    requires stack.Valid(rank) && CostsFit(stack.nodes) && j < i < |stack.heads|
    modifies stack
    ensures stack.Valid(rank) && CostsFit(stack.nodes) && Extends(old(stack.nodes), stack.nodes)
    ensures merged <==> old(stack.CanMerge(j, i))
    ensures merged ==> SameVersions(Drop(old(stack.heads), i), stack.heads)
    ensures !merged ==> stack.nodes == old(stack.nodes) && stack.heads == old(stack.heads)
  {
    ExtendsSelf(stack.nodes);
    merged := stack.Merge(j, i, rank);
  }

  predicate From(h: Head, heads: seq<Head>) { exists u :: 0 <= u < |heads| && SameVersion(h, heads[u]) }

  /** Every head is one of the others, whatever its error mark. */
  predicate Drawn(heads: seq<Head>, others: seq<Head>) { forall v :: 0 <= v < |heads| ==> From(heads[v], others) }

  lemma DrawnSame(heads: seq<Head>, others: seq<Head>)
    requires SameVersions(others, heads)
    ensures Drawn(heads, others)
  {
    forall v | 0 <= v < |heads| ensures From(heads[v], others) {
      assert SameVersion(heads[v], others[v]);
    }
  }

  lemma DrawnDrop(heads: seq<Head>, v: nat)
    requires v < |heads|
    ensures Drawn(Drop(heads, v), heads)
  {
    forall w | 0 <= w < |heads| - 1 ensures From(Drop(heads, v)[w], heads) {
      assert SameVersion(Drop(heads, v)[w], heads[if w < v then w else w + 1]);
    }
  }

  lemma DrawnSwap(heads: seq<Head>, i: nat, j: nat)
    requires i < |heads| && j < |heads|
    ensures Drawn(heads[i := heads[j]][j := heads[i]], heads)
  {
    var swapped := heads[i := heads[j]][j := heads[i]];
    forall w | 0 <= w < |heads| ensures From(swapped[w], heads) {
      assert SameVersion(swapped[w], heads[if w == j then i else if w == i then j else w]);
    }
  }

  lemma DrawnThen(a: seq<Head>, b: seq<Head>, c: seq<Head>)
    requires Drawn(a, b) && Drawn(b, c)
    ensures Drawn(a, c)
  {
    forall v | 0 <= v < |a| ensures From(a[v], c) {
      var w :| 0 <= w < |b| && SameVersion(a[v], b[w]);
      var u :| 0 <= u < |c| && SameVersion(b[w], c[u]);
      assert SameVersion(a[v], c[u]);
    }
  }

  lemma DrawnAfter(heads: seq<Head>, i: nat, j: nat)
    requires i < |heads| && j < |heads|
    ensures Drawn(heads, heads) && Drawn(Drop(heads, i), heads) && Drawn(Drop(heads, j), heads)
    ensures Drawn(heads[i := heads[j]][j := heads[i]], heads)
  {
    DrawnSame(heads, heads);
    DrawnDrop(heads, i);
    DrawnDrop(heads, j);
    DrawnSwap(heads, i, j);
  }

  lemma DrawnMerged(heads: seq<Head>, heads': seq<Head>, i: nat)
    requires i < |heads| && SameVersions(Drop(heads, i), heads')
    ensures Drawn(heads', heads)
  {
    hide Drawn;
    DrawnDrop(heads, i);
    DrawnSame(heads', Drop(heads, i));
    DrawnThen(heads', Drop(heads, i), heads);
  }

  /** The body of the inner loop, counters included. */
  method CompareOnce(stack: ParseStack, i: nat, j: nat, ghost least: int, statusJ: ErrorStatus, statusI: ErrorStatus,
                     ghost tail: seq<Head>, ghost rank: Key -> nat) returns (i': nat, j': nat)
    requires stack.Valid(rank) && CostsFit(stack.nodes) && j < i < |stack.heads| < WRAP
    requires Round(stack.nodes, stack.heads, i, j, least, statusI, tail)
    requires statusJ.isInError == !Clean(stack.nodes, stack.heads[j])
    requires !statusJ.isInError ==> statusJ.cost == CleanCost(stack.nodes, stack.heads[j])
    modifies stack
    ensures stack.Valid(rank) && CostsFit(stack.nodes) && Extends(old(stack.nodes), stack.nodes)
    ensures i' <= i && |stack.heads| <= |old(stack.heads)| && i' - j' < i - j
    ensures Round(stack.nodes, stack.heads, i', j', least, statusI, tail) && Drawn(stack.heads, old(stack.heads))
  {
    hide Drawn, Sifted, Round, Leads, CompareVersions, WellFormed, Ranked, Reads, Inc, Dec, Extends, CostsFit, SameVersions;
    Counters(i);
    Counters(j);
    i', j' := i, j;
    ghost var g, heads := stack.nodes, stack.heads;
    ExtendsSelf(g);
    DrawnAfter(heads, i, j);
    if least < MAX_COST {
      ComparisonLeads(g, heads, i, j, least, statusJ, statusI, tail);
    }
    match CompareVersions(statusJ, statusI) {
      case TakeLeft =>
        RoundDropI(g, heads, i, j, least, statusI, tail);
        stack.RemoveVersion(i);
        i' := Dec(i');
        j' := i';
      case PreferLeft =>
        RoundNext(g, heads, i, j, least, statusI, tail);
        var merged := TryMerge(stack, j, i, rank);
        if merged {
          DrawnMerged(heads, stack.heads, i);
          RoundMerged(g, stack.nodes, heads, stack.heads, i, j, least, statusI, tail);
          i' := Dec(i');
          j' := i';
        }
      case NoPreference =>
        RoundNext(g, heads, i, j, least, statusI, tail);
        var merged := TryMerge(stack, j, i, rank);
        if merged {
          DrawnMerged(heads, stack.heads, i);
          RoundMerged(g, stack.nodes, heads, stack.heads, i, j, least, statusI, tail);
          i' := Dec(i');
          j' := i';
        }
      case PreferRight =>
        MergeableLeads(stack, j, i, least);
        var merged := TryMerge(stack, j, i, rank);
        if merged {
          DrawnMerged(heads, stack.heads, i);
          RoundMerged(g, stack.nodes, heads, stack.heads, i, j, least, statusI, tail);
          i' := Dec(i');
          j' := i';
        } else {
          RoundSwap(g, heads, i, j, least, statusI, tail);
          stack.heads := stack.heads[i := stack.heads[j]][j := stack.heads[i]];
        }
      case TakeRight =>
        RoundDropJ(g, heads, i, j, least, statusI, tail);
        stack.RemoveVersion(j);
        i' := Dec(i');
        j' := Dec(j');
    }
    j' := Inc(j');
  }

  /** LeastClean looks at nothing but the versions, and at the keys of their nodes. */
  lemma {:induction false} LeastCleanSame(g: Graph, g': Graph, heads: seq<Head>, heads': seq<Head>)
    requires forall v :: 0 <= v < |heads| ==> heads[v].node in g
    requires Extends(g, g') && SameVersions(heads, heads')
    ensures LeastClean(g, heads) == LeastClean(g', heads')
    decreases |heads|
  {
    if heads != [] {
      LeastCleanSame(g, g', heads[..|heads| - 1], heads'[..|heads| - 1]);
    }
  }

  lemma {:induction false} LeastCleanFits(g: Graph, heads: seq<Head>)
    requires CostsFit(g) && forall v :: 0 <= v < |heads| ==> heads[v].node in g
    ensures 0 <= LeastClean(g, heads) <= MAX_COST
    ensures forall v :: 0 <= v < |heads| && heads[v].status != Halted && Clean(g, heads[v]) ==>
              LeastClean(g, heads) <= CleanCost(g, heads[v]) < MAX_COST
    decreases |heads|
  {
    if heads != [] {
      LeastCleanFits(g, heads[..|heads| - 1]);
    }
  }

  /** The first loop of condenseStack: versions [0, i) are sifted, the others are what
      remains of the original list from `seen` on. */
  ghost predicate Pruning(g0: Graph, heads0: seq<Head>, seen: nat, g: Graph, heads: seq<Head>, i: nat, least: int) {
    && CostsFit(g0) && CostsFit(g) && Extends(g0, g)
    && (forall v :: 0 <= v < |heads0| ==> heads0[v].node in g0)
    && i <= |heads| && seen <= |heads0| && SameVersions(heads[i..], heads0[seen..])
    && Sifted(g, heads, i, least) && least == LeastClean(g0, heads0[..seen])
    && (least < MAX_COST ==> i > 0 && Leads(g, heads, 0, least))
  }

  /** The next version, and what it adds to the least clean cost. */
  lemma PruningNext(g0: Graph, heads0: seq<Head>, seen: nat, g: Graph, heads: seq<Head>, i: nat, least: int)
    requires Pruning(g0, heads0, seen, g, heads, i, least) && i < |heads|
    ensures seen < |heads0| && SameVersion(heads[i], heads0[seen])
    ensures SameVersions(heads[i + 1..], heads0[seen + 1..])
    ensures heads[i].node in g && heads0[seen].node in g0
    ensures LeastClean(g0, heads0[..seen + 1])
         == if heads[i].status != Halted && Clean(g, heads[i]) && CleanCost(g, heads[i]) < least then CleanCost(g, heads[i])
            else least
  {
    assert SameVersion(heads[i..][0], heads0[seen..][0]);
    assert heads0[..seen + 1][..seen] == heads0[..seen];
    assert heads[i..][1..] == heads[i + 1..] && heads0[seen..][1..] == heads0[seen + 1..];
    assert KeyOf(g[heads[i].node]) == KeyOf(g0[heads0[seen].node]);
  }

  predicate SomeUnhalted(heads: seq<Head>) { exists v :: 0 <= v < |heads| && heads[v].status != Halted }

  lemma UnhaltedNext(heads: seq<Head>, n: nat)
    ensures n < |heads| ==>
      (SomeUnhalted(heads[..n + 1]) <==> SomeUnhalted(heads[..n]) || heads[n].status != Halted)
  {
    if n < |heads| {
      var a, b := heads[..n], heads[..n + 1];
      assert b == a + [heads[n]];
      if v :| 0 <= v < |a| && a[v].status != Halted { assert b[v] == a[v]; }
      if heads[n].status != Halted { assert b[n] == heads[n]; }
    }
  }

  lemma NoneUnhalted(heads: seq<Head>)
    ensures !SomeUnhalted(heads[..0]) && heads[..|heads|] == heads
  {
  }

  lemma PruningStatus(g0: Graph, heads0: seq<Head>, seen: nat, g: Graph, heads: seq<Head>, i: nat, least: int)
    requires Pruning(g0, heads0, seen, g, heads, i, least) && i < |heads|
    ensures seen < |heads0| && heads0[seen].status == heads[i].status
  {
    PruningNext(g0, heads0, seen, g, heads, i, least);
  }

  lemma PruningHalted(g0: Graph, heads0: seq<Head>, seen: nat, g: Graph, heads: seq<Head>, i: nat, least: int)
    requires Pruning(g0, heads0, seen, g, heads, i, least) && i < |heads| && heads[i].status == Halted
    ensures seen < |heads0| && Pruning(g0, heads0, seen + 1, g, Drop(heads, i), i, least)
  {
    PruningNext(g0, heads0, seen, g, heads, i, least);
    assert Drop(heads, i)[i..] == heads[i + 1..];
  }

  /** Before the inner loop: version i has joined the sifted ones. */
  lemma PruningEnter(g0: Graph, heads0: seq<Head>, seen: nat, g: Graph, heads: seq<Head>, heads': seq<Head>, i: nat,
                     least: int, status: ErrorStatus, least': int)
    requires Pruning(g0, heads0, seen, g, heads, i, least) && i < |heads| && heads[i].status != Halted
    requires SameVersions(heads, heads') && heads'[i].node in g
    requires status.isInError == !Clean(g, heads'[i])
    requires !status.isInError ==> status.cost == CleanCost(g, heads'[i])
    requires least' == if !status.isInError && status.cost < least then status.cost else least
    ensures seen < |heads0| && least' == LeastClean(g0, heads0[..seen + 1]) && least' <= MAX_COST
    ensures Sifted(g, heads', i + 1, least') && SameVersions(heads'[i + 1..], heads0[seen + 1..])
    ensures least' < MAX_COST ==> Leads(g, heads', i, least') || (i > 0 && Leads(g, heads', 0, least'))
  {
    PruningNext(g0, heads0, seen, g, heads, i, least);
    LeastCleanFits(g0, heads0[..seen + 1]);
  }

  lemma PruningLeave(g0: Graph, heads0: seq<Head>, seen: nat, g: Graph, heads: seq<Head>, i: nat, least: int, tail: seq<Head>)
    requires CostsFit(g0) && CostsFit(g) && Extends(g0, g) && i < |heads| && seen < |heads0|
    requires forall v :: 0 <= v < |heads0| ==> heads0[v].node in g0
    requires SameVersions(heads[i + 1..], tail) && SameVersions(tail, heads0[seen + 1..])
    requires Sifted(g, heads, i + 1, least) && least == LeastClean(g0, heads0[..seen + 1])
    requires least < MAX_COST ==> Leads(g, heads, 0, least)
    ensures Pruning(g0, heads0, seen + 1, g, heads, i + 1, least)
  {
  }

  /** One round of condenseStack's first loop, on a version that is not halted. */
  method PruneVersion(stack: ParseStack, start: nat, least: nat, ghost rank: Key -> nat, ghost g0: Graph,
                      ghost heads0: seq<Head>, ghost seen: nat)
    returns (i: nat, minErrorCost: nat)
    requires stack.Valid(rank) && CostsFit(stack.nodes) && Extends(g0, stack.nodes)
    requires start < |stack.heads| < WRAP && stack.heads[start].status != Halted
    requires Pruning(g0, heads0, seen, stack.nodes, stack.heads, start, least)
    requires CostsFit(g0) && AllIn(g0, heads0)
    modifies stack
    ensures stack.Valid(rank) && CostsFit(stack.nodes) && Extends(g0, stack.nodes)
    ensures i < |stack.heads| < WRAP && seen < |heads0|
    ensures Pruning(g0, heads0, seen + 1, stack.nodes, stack.heads, i + 1, minErrorCost)
    ensures Drawn(stack.heads, old(stack.heads)) && heads0[seen].status != Halted
  {
    hide Drawn, Pruning, Sifted, Leads, LeastClean, WellFormed, Ranked, Clean, CleanCost, CostsFit, Extends;
    ghost var g, heads := stack.nodes, stack.heads;
    minErrorCost := least;
    var statusI := VersionStatus(stack, start, rank);
    if !statusI.isInError && statusI.cost < minErrorCost {
      minErrorCost := statusI.cost;
    }
    PruningEnter(g0, heads0, seen, g, heads, stack.heads, start, least, statusI, minErrorCost);
    ghost var tail, marked := stack.heads[start + 1..], stack.heads;
    PruningStatus(g0, heads0, seen, g, heads, start, least);
    DrawnSame(marked, heads);
    i := Sift(stack, start, statusI, minErrorCost, rank);
    DrawnThen(stack.heads, marked, heads);
    ExtendsTransitive(g0, g, stack.nodes);
    PruningLeave(g0, heads0, seen, stack.nodes, stack.heads, i, minErrorCost, tail);
  }

  /** The cut to six versions. */
  method CutVersions(stack: ParseStack, ghost least: int, ghost rank: Key -> nat)
    requires stack.Valid(rank) && Sifted(stack.nodes, stack.heads, |stack.heads|, least)
    requires least < MAX_COST ==> |stack.heads| > 0 && Leads(stack.nodes, stack.heads, 0, least)
    modifies stack`heads
    ensures stack.Valid(rank) && |stack.heads| <= MAX_VERSION_COUNT
    ensures Sifted(stack.nodes, stack.heads, |stack.heads|, least)
    ensures least < MAX_COST ==> |stack.heads| > 0 && Leads(stack.nodes, stack.heads, 0, least)
    ensures Drawn(stack.heads, old(stack.heads)) && (stack.heads == [] <==> old(stack.heads) == [])
  {
    hide Drawn, Sifted, Leads, WellFormed, Ranked;
    DrawnSame(stack.heads, stack.heads);
    while |stack.heads| > MAX_VERSION_COUNT
      invariant Drawn(stack.heads, old(stack.heads)) && (stack.heads == [] <==> old(stack.heads) == [])
      invariant stack.Valid(rank) && Sifted(stack.nodes, stack.heads, |stack.heads|, least)
      invariant least < MAX_COST ==> |stack.heads| > 0 && Leads(stack.nodes, stack.heads, 0, least)
      decreases |stack.heads|
    {
      SiftedCut(stack.nodes, stack.heads, least);
      ghost var heads := stack.heads;
      DrawnDrop(heads, MAX_VERSION_COUNT);
      stack.RemoveVersion(MAX_VERSION_COUNT);
      DrawnThen(stack.heads, heads, old(stack.heads));
    }
  }

  /** The first loop of condenseStack, and the cut to six versions.  What is left has no
      halted version, and if any version was clean, version 0 is a clean one of least cost. */
  method Prune(stack: ParseStack, ghost rank: Key -> nat) returns (minErrorCost: nat)
    requires stack.Valid(rank) && CostsFit(stack.nodes) && |stack.heads| < WRAP
    modifies stack
    ensures stack.Valid(rank) && CostsFit(stack.nodes) && Extends(old(stack.nodes), stack.nodes)
    ensures |stack.heads| <= MAX_VERSION_COUNT
    ensures minErrorCost == LeastClean(old(stack.nodes), old(stack.heads)) && minErrorCost <= MAX_COST
    ensures Sifted(stack.nodes, stack.heads, |stack.heads|, minErrorCost)
    ensures minErrorCost < MAX_COST ==> |stack.heads| > 0 && Leads(stack.nodes, stack.heads, 0, minErrorCost)
    ensures Drawn(stack.heads, old(stack.heads))
    ensures stack.heads != [] <==> SomeUnhalted(old(stack.heads))
  {
    hide Drawn, Pruning, Sifted, Leads, LeastClean, WellFormed, Ranked, Clean, CleanCost, CostsFit, Extends, SomeUnhalted;
    ghost var heads0, g0 := stack.heads, stack.nodes;
    minErrorCost := MAX_COST;
    ghost var seen: nat := 0;
    var i: nat := 0;
    ExtendsSelf(g0);
    PruningStart(g0, heads0);
    DrawnSame(heads0, heads0);
    NoneUnhalted(heads0);
    while i < |stack.heads|
      invariant stack.Valid(rank) && CostsFit(stack.nodes) && Extends(g0, stack.nodes)
      invariant i <= |stack.heads| < WRAP && seen <= |heads0|
      invariant Pruning(g0, heads0, seen, stack.nodes, stack.heads, i, minErrorCost) && Drawn(stack.heads, heads0)
      invariant i > 0 <==> SomeUnhalted(heads0[..seen])
      decreases |heads0| - seen
    {
      ghost var heads := stack.heads;
      UnhaltedNext(heads0, seen);
      PruningStatus(g0, heads0, seen, stack.nodes, heads, i, minErrorCost);
      if stack.heads[i].status == Halted {
        DrawnDrop(heads, i);
        PruningHalted(g0, heads0, seen, stack.nodes, stack.heads, i, minErrorCost);
        stack.RemoveVersion(i);
        i := Dec(i);
      } else {
        i, minErrorCost := PruneVersion(stack, i, minErrorCost, rank, g0, heads0, seen);
      }
      DrawnThen(stack.heads, heads, heads0);
      i := Inc(i);
      seen := seen + 1;
    }
    PruningAll(g0, heads0, seen, stack.nodes, stack.heads, i, minErrorCost);
    ghost var pruned := stack.heads;
    PruningEnd(g0, heads0, seen, stack.nodes, stack.heads, i, minErrorCost);
    CutVersions(stack, minErrorCost, rank);
    DrawnThen(stack.heads, pruned, heads0);
  }

  lemma PruningAll(g0: Graph, heads0: seq<Head>, seen: nat, g: Graph, heads: seq<Head>, i: nat, least: int)
    requires Pruning(g0, heads0, seen, g, heads, i, least) && i == |heads|
    ensures seen == |heads0|
  {
    assert |heads[i..]| == |heads0[seen..]|;
  }

  lemma PruningStart(g: Graph, heads: seq<Head>)
    requires CostsFit(g) && AllIn(g, heads)
    ensures Pruning(g, heads, 0, g, heads, 0, MAX_COST)
  {
    ExtendsSelf(g);
  }

  lemma PruningEnd(g0: Graph, heads0: seq<Head>, seen: nat, g: Graph, heads: seq<Head>, i: nat, least: int)
    requires Pruning(g0, heads0, seen, g, heads, i, least) && i == |heads|
    ensures Sifted(g, heads, |heads|, least) && least == LeastClean(g0, heads0) <= MAX_COST
    ensures least < MAX_COST ==> |heads| > 0 && Leads(g, heads, 0, least)
  {
    assert heads0[..seen] == heads0;
    LeastCleanFits(g0, heads0);
  }

  lemma SiftedCut(g: Graph, heads: seq<Head>, least: int)
    requires |heads| > MAX_VERSION_COUNT && Sifted(g, heads, |heads|, least)
    ensures Sifted(g, Drop(heads, MAX_VERSION_COUNT), |heads| - 1, least)
    ensures Leads(g, heads, 0, least) ==> Leads(g, Drop(heads, MAX_VERSION_COUNT), 0, least)
  {
  }

  /** Error recovery, seen from here: from a version and its lookahead to a new stack. */
  type Recovery = (Graph, seq<Head>, nat, Option<Tree>) -> (Graph, seq<Head>)

  /** What the first loop and the cut may leave of a stack: some of its versions, none of them halted, at most six,
      and none only if all were halted; the least clean one, if any was clean, in front. */
  ghost predicate PrunedTo(g0: Graph, heads0: seq<Head>, g: Graph, heads: seq<Head>)
    requires AllIn(g0, heads0)
  {
    var least := LeastClean(g0, heads0);
    && CostsFit(g) && Extends(g0, g) && |heads| <= MAX_VERSION_COUNT && Drawn(heads, heads0)
    && Sifted(g, heads, |heads|, least) && (heads != [] <==> SomeUnhalted(heads0))
    && (least < MAX_COST ==> heads != [] && Leads(g, heads, 0, least))
  }

  function Unpaused(heads: seq<Head>): (r: seq<Head>)
    ensures |r| <= |heads|
    ensures forall v :: 0 <= v < |r| ==> r[v] in heads && r[v].status != Paused
  {
    if heads == [] then [] else
    Unpaused(heads[..|heads| - 1]) + if heads[|heads| - 1].status == Paused then [] else [heads[|heads| - 1]]
  }

  /** A version is resumed when the first one is paused, and not too many parses were accepted yet. */
  predicate Resumes(heads: seq<Head>, acceptCount: nat) {
    heads != [] && heads[0].status == Paused && acceptCount < MAX_VERSION_COUNT
  }

  /** The versions from `from` on that the second loop goes through, without the paused ones. */
  function Swept(heads: seq<Head>, from: nat, n: nat): seq<Head>
    requires from <= n <= |heads|
  {
    heads[..from] + Unpaused(heads[from..n]) + heads[n..]
  }

  function Awake(h: Head): Head { h.(status := Active, lookaheadWhenPaused := None) }

  /** Error recovery of the first version, once it is awake. */
  function Recovered(g: Graph, heads: seq<Head>, handleError: Recovery): (Graph, seq<Head>)
    requires heads != []
  {
    handleError(g, heads[0 := Awake(heads[0])], 0, heads[0].lookaheadWhenPaused)
  }

  /** What the second loop makes of the versions left. */
  function Settled(g: Graph, heads: seq<Head>, acceptCount: nat, handleError: Recovery): (Graph, seq<Head>)
    requires heads != [] ==> |Recovered(g, heads, handleError).1| >= |heads|
  {
    if Resumes(heads, acceptCount) then
      var (g1, heads1) := Recovered(g, heads, handleError);
      (g1, Swept(heads1, 1, |heads|))
    else (g, Unpaused(heads))
  }

  lemma {:induction false} FrontStays(heads: seq<Head>)
    requires heads != [] && heads[0].status != Paused
    ensures Unpaused(heads) != [] && Unpaused(heads)[0] == heads[0]
    decreases |heads|
  {
    if |heads| > 1 { FrontStays(heads[..|heads| - 1]); }
  }

  lemma UnpausedNext(heads: seq<Head>, from: nat, n: nat)
    requires from <= n < |heads|
    ensures Unpaused(heads[from..n + 1])
         == Unpaused(heads[from..n]) + if heads[n].status == Paused then [] else [heads[n]]
  {
    assert heads[from..n + 1][..n - from] == heads[from..n];
  }

  /** The second loop, halfway: n of the versions gone through. */
  lemma SweptNext(heads: seq<Head>, from: nat, n: nat)
    requires from <= n < |heads|
    ensures var i := from + |Unpaused(heads[from..n])|; var swept := Swept(heads, from, n);
      && i < |swept| && swept[i] == heads[n]
      && (heads[n].status != Paused ==> Swept(heads, from, n + 1) == swept)
      && (heads[n].status == Paused ==> Swept(heads, from, n + 1) == Drop(swept, i))
  {
    hide Unpaused;
    UnpausedNext(heads, from, n);
    Middle(heads[..from], Unpaused(heads[from..n]), heads[n], heads[n + 1..]);
    assert heads[n..] == [heads[n]] + heads[n + 1..];
  }

  lemma Middle(a: seq<Head>, b: seq<Head>, x: Head, c: seq<Head>)
    ensures var all := a + b + ([x] + c);
      && |a + b| < |all| && all[|a| + |b|] == x
      && a + (b + [x]) + c == all && a + (b + []) + c == Drop(all, |a| + |b|)
  {
  }

  lemma SweptNone(heads: seq<Head>, from: nat)
    requires from <= |heads|
    ensures Unpaused(heads[from..from]) == [] && Swept(heads, from, from) == heads
  {
    assert heads[from..from] == [] && heads[..from] + [] + heads[from..] == heads;
  }

  lemma SweptAll(heads: seq<Head>)
    ensures Swept(heads, 0, |heads|) == Unpaused(heads)
  {
    assert heads[0..|heads|] == heads && heads[..0] == [] && heads[|heads|..] == [];
  }

  /** The second loop of condenseStack: the paused versions go, but for the first version of all, which is resumed
      if it is paused and not too many parses were accepted. */
  method Settle(stack: ParseStack, acceptCount: nat, handleError: Recovery, least: int) returns (minErrorCost: int)
    requires AllIn(stack.nodes, stack.heads) && 0 < |stack.heads| <= MAX_VERSION_COUNT
    requires |Recovered(stack.nodes, stack.heads, handleError).1| >= |stack.heads|
    modifies stack`nodes, stack`heads
    ensures (stack.nodes, stack.heads) == Settled(old(stack.nodes), old(stack.heads), acceptCount, handleError)
    ensures minErrorCost == if Resumes(old(stack.heads), acceptCount) then HeadCost(old(stack.nodes), old(stack.heads)[0])
                            else least
  {
    hide Unpaused, Swept, HeadCost;
    ghost var g0, heads0 := stack.nodes, stack.heads;
    minErrorCost := least;
    var hasUnpausedVersion := false;
    var i: nat, n := 0, |stack.heads|;
    ghost var from: nat, base, seen: nat := 0, heads0, 0;
    SweptNone(base, 0);
    while i < n
      invariant from <= seen <= |heads0| <= |base| && from <= 1 && i == from + |Unpaused(base[from..seen])| <= seen
      invariant n - i == |heads0| - seen && stack.heads == Swept(base, from, seen) && n <= MAX_VERSION_COUNT
      invariant if from == 1 then
                  && Resumes(heads0, acceptCount) && (stack.nodes, base) == Recovered(g0, heads0, handleError)
                  && hasUnpausedVersion && minErrorCost == HeadCost(g0, heads0[0])
                else
                  && stack.nodes == g0 && base == heads0 && minErrorCost == least
                  && (hasUnpausedVersion <==> i > 0) && (seen > 0 ==> !Resumes(heads0, acceptCount))
      decreases |heads0| - seen
    {
      SweptNext(base, from, seen);
      Counters(i);
      UnpausedNext(base, from, seen);
      if stack.heads[i].status == Paused {
        if !hasUnpausedVersion && acceptCount < MAX_VERSION_COUNT {
          if seen > 0 && heads0[0].status != Paused { FrontStays(heads0[0..seen]); }
          assert seen == 0 && from == 0 && stack.heads == heads0;
          minErrorCost := HeadCost(stack.nodes, stack.heads[i]);
          var lookahead := stack.heads[i].lookaheadWhenPaused;
          stack.heads := stack.heads[i := Awake(stack.heads[i])];
          var recovered := handleError(stack.nodes, stack.heads, i, lookahead);
          stack.nodes, stack.heads := recovered.0, recovered.1;
          hasUnpausedVersion := true;
          from, base := 1, stack.heads;
          SweptNone(base, 1);
        } else {
          stack.RemoveVersion(i);
          i := Dec(i);
          n := n - 1;
        }
      } else {
        hasUnpausedVersion := true;
      }
      i := Inc(i);
      seen := seen + 1;
    }
    SweptAll(heads0);
  }

  lemma ItIsPruned(g0: Graph, heads0: seq<Head>, g: Graph, heads: seq<Head>)
    requires AllIn(g0, heads0) && CostsFit(g) && Extends(g0, g) && |heads| <= MAX_VERSION_COUNT && Drawn(heads, heads0)
    requires var least := LeastClean(g0, heads0);
      && Sifted(g, heads, |heads|, least) && (heads != [] <==> SomeUnhalted(heads0))
      && (least < MAX_COST ==> heads != [] && Leads(g, heads, 0, least))
    ensures PrunedTo(g0, heads0, g, heads)
  {
  }

  lemma RecoversMore(g: Graph, heads: seq<Head>, handleError: Recovery)
    requires forall g, heads, v, t :: |handleError(g, heads, v, t).1| >= |heads|
    requires heads != []
    ensures |Recovered(g, heads, handleError).1| >= |heads|
  {
  }

  lemma NothingSettles(g: Graph, acceptCount: nat, handleError: Recovery)
    ensures Settled(g, [], acceptCount, handleError) == (g, [])
  {
  }

  /** If any unhalted version was clean, nothing is resumed: the result is the least clean cost, version 0 is a clean
      version of that cost, every version is active, and there are at most six.  Whenever nothing is resumed every
      version is active; and a version is resumed only when no version was clean. */
  lemma CleanSettles(g0: Graph, heads0: seq<Head>, g: Graph, heads: seq<Head>, acceptCount: nat, handleError: Recovery)
    requires AllIn(g0, heads0) && PrunedTo(g0, heads0, g, heads)
    requires heads != [] ==> |Recovered(g, heads, handleError).1| >= |heads|
    ensures var least := LeastClean(g0, heads0); var (g', heads') := Settled(g, heads, acceptCount, handleError);
      && (least < MAX_COST ==>
            && !Resumes(heads, acceptCount) && g' == g && 0 < |heads'| <= MAX_VERSION_COUNT
            && heads'[0] == heads[0] && heads'[0].node in g && Leads(g, heads', 0, least) && Extends(g0, g))
      && (!Resumes(heads, acceptCount) ==> forall v :: 0 <= v < |heads'| ==> heads'[v].status == Active)
  {
    hide LeastClean, CostsFit, Extends, Drawn, Recovered;
    var least := LeastClean(g0, heads0);
    if least < MAX_COST { FrontStays(heads); }
  }

  lemma SettledIn(g: Graph, heads: seq<Head>, acceptCount: nat, handleError: Recovery)
    requires AllIn(g, heads) && !Resumes(heads, acceptCount)
    requires heads != [] ==> |Recovered(g, heads, handleError).1| >= |heads|
    ensures var (g', heads') := Settled(g, heads, acceptCount, handleError); g' == g && AllIn(g, heads')
  {
  }

  /** condenseStack.  The stack is pruned, and then settled: the paused versions go, unless the first version is
      paused and fewer than six parses were accepted; then that one is resumed, whatever recovery makes of it.  If any
      unhalted version was clean, version 0 is then a clean one of least cost, and all are active. */
  method CondenseStack(stack: ParseStack, acceptCount: nat, handleError: Recovery, ghost rank: Key -> nat)
    returns (minErrorCost: int)
    requires stack.Valid(rank) && CostsFit(stack.nodes) && |stack.heads| < WRAP
    requires forall g, heads, v, t :: |handleError(g, heads, v, t).1| >= |heads|
    modifies stack
    ensures exists g, heads ::
      && PrunedTo(old(stack.nodes), old(stack.heads), g, heads)
      && (stack.nodes, stack.heads) == Settled(g, heads, acceptCount, handleError)
      && (!Resumes(heads, acceptCount) ==> stack.Valid(rank))
      && minErrorCost == if Resumes(heads, acceptCount) then HeadCost(g, heads[0])
                         else LeastClean(old(stack.nodes), old(stack.heads))
    ensures var least := LeastClean(old(stack.nodes), old(stack.heads));
      least < MAX_COST ==>
        && minErrorCost == least && stack.Valid(rank) && Extends(old(stack.nodes), stack.nodes)
        && 0 < |stack.heads| <= MAX_VERSION_COUNT && Leads(stack.nodes, stack.heads, 0, least)
        && (forall v :: 0 <= v < |stack.heads| ==> stack.heads[v].status == Active)
  {
    hide Recovered, PrunedTo, Settled, HeadCost, LeastClean, WellFormed, Ranked, CostsFit, Sifted, Leads, Drawn, Extends;
    ghost var g0, heads0 := stack.nodes, stack.heads;
    minErrorCost := Prune(stack, rank);
    ghost var g, heads := stack.nodes, stack.heads;
    ItIsPruned(g0, heads0, g, heads);
    if |stack.heads| > 0 {
      RecoversMore(g, heads, handleError);
      minErrorCost := Settle(stack, acceptCount, handleError, minErrorCost);
    } else {
      NothingSettles(g, acceptCount, handleError);
    }
    CleanSettles(g0, heads0, g, heads, acceptCount, handleError);
    if !Resumes(heads, acceptCount) { SettledIn(g, heads, acceptCount, handleError); }
  }
}
