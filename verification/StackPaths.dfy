/** What popping from the stack means (stack.go:255-352, 424-432): the bag of subtree lists
    and end nodes found along the links. */
module StackPaths {
  import opened Trees
  import opened EditSpec
  import opened StackGraph

  datatype Iterator = Iterator(node: NodeRef, subtrees: seq<Tree>, subtreeCount: nat, isPending: bool)

  datatype Action = Action(pop: bool, stop: bool)

  type Callback = Iterator -> Action

  type Bag = multiset<(seq<Tree>, NodeRef)>

  const MAX_ITERATOR_COUNT := 64

  function Reverse(ts: seq<Tree>): (r: seq<Tree>)
    ensures |r| == |ts|
  {
    if ts == [] then [] else Reverse(ts[1..]) + [ts[0]]
  }

  /** One iterator carried across one link.  Extras are collected but not counted; an empty
      link counts. */
  function Across(it: Iterator, link: Link): Iterator {
    match link.subtree
    case None => Iterator(link.node, it.subtrees, it.subtreeCount + 1, false)
    case Some(t) =>
      if t.Extra() then Iterator(link.node, it.subtrees + [t], it.subtreeCount, it.isPending)
      else Iterator(link.node, it.subtrees + [t], it.subtreeCount + 1, it.isPending && link.isPending)
  }

  /** Everything an iterator still has to deliver. */
  ghost function Popped(g: Graph, rank: Key -> nat, cb: Callback, it: Iterator): Bag
    requires WellFormed(g) && Ranked(g, rank) && it.node in g
    decreases rank(KeyOf(g[it.node])), |g[it.node].links| + 1
  {
    (if cb(it).pop then multiset{(Reverse(it.subtrees), it.node)} else multiset{})
    + (if cb(it).stop then multiset{} else PoppedAcross(g, rank, cb, it, 0))
  }

  ghost function PoppedAcross(g: Graph, rank: Key -> nat, cb: Callback, it: Iterator, j: nat): Bag
    requires WellFormed(g) && Ranked(g, rank) && it.node in g && j <= |g[it.node].links|
    decreases rank(KeyOf(g[it.node])), |g[it.node].links| - j
  {
    if j == |g[it.node].links| then multiset{} else
    Popped(g, rank, cb, Across(it, g[it.node].links[j])) + PoppedAcross(g, rank, cb, it, j + 1)
  }

  ghost function PoppedBy(g: Graph, rank: Key -> nat, cb: Callback, its: seq<Iterator>): Bag
    requires WellFormed(g) && Ranked(g, rank) && forall k :: 0 <= k < |its| ==> its[k].node in g
  {
    if its == [] then multiset{} else Popped(g, rank, cb, its[0]) + PoppedBy(g, rank, cb, its[1..])
  }

  lemma {:induction false} PoppedByAppend(g: Graph, rank: Key -> nat, cb: Callback, a: seq<Iterator>, b: seq<Iterator>)
    requires WellFormed(g) && Ranked(g, rank) && forall k :: 0 <= k < |a| ==> a[k].node in g
    requires forall k :: 0 <= k < |b| ==> b[k].node in g
    ensures PoppedBy(g, rank, cb, a + b) == PoppedBy(g, rank, cb, a) + PoppedBy(g, rank, cb, b)
    decreases |a|
  {
    if a == [] {
      assert a + b == b;
    } else {
      assert (a + b)[1..] == a[1..] + b;
      PoppedByAppend(g, rank, cb, a[1..], b);
    }
  }

  lemma PoppedBySplit(g: Graph, rank: Key -> nat, cb: Callback, its: seq<Iterator>, i: nat)
    requires WellFormed(g) && Ranked(g, rank) && i < |its| && forall k :: 0 <= k < |its| ==> its[k].node in g
    ensures PoppedBy(g, rank, cb, its)
         == PoppedBy(g, rank, cb, its[..i] + its[i + 1..]) + Popped(g, rank, cb, its[i])
  {
    assert its == its[..i] + ([its[i]] + its[i + 1..]);
    PoppedByAppend(g, rank, cb, its[..i], [its[i]] + its[i + 1..]);
    PoppedByAppend(g, rank, cb, [its[i]], its[i + 1..]);
    PoppedByAppend(g, rank, cb, its[..i], its[i + 1..]);
  }

  // ---------------------------------------------------------------- what popCount finds

  function CountAction(count: nat): Callback {
    (it: Iterator) => Action(it.subtreeCount == count, it.subtreeCount == count)
  }

  function Counted(link: Link): nat {
    if link.subtree.Some? && link.subtree.value.Extra() then 0 else 1
  }

  /** A path of exactly `count` counted links, ending at the last of them. */
  ghost predicate CountedPath(g: Graph, n: NodeRef, ls: seq<Link>, count: nat, end: NodeRef)
    decreases |ls|
  {
    if count == 0 then ls == [] && end == n
    else ls != [] && n in g && ls[0] in g[n].links && Counted(ls[0]) <= count
         && CountedPath(g, ls[0].node, ls[1..], count - Counted(ls[0]), end)
  }

  function SubtreesOn(ls: seq<Link>): seq<Tree> {
    if ls == [] then []
    else (if ls[0].subtree.Some? then [ls[0].subtree.value] else []) + SubtreesOn(ls[1..])
  }

  lemma AcrossAdds(it: Iterator, link: Link)
    ensures Across(it, link).node == link.node
    ensures Across(it, link).subtreeCount == it.subtreeCount + Counted(link)
    ensures Across(it, link).subtrees == it.subtrees + (if link.subtree.Some? then [link.subtree.value] else [])
  {
  }

  lemma PoppedUncounted(g: Graph, rank: Key -> nat, count: nat, it: Iterator)
    requires WellFormed(g) && Ranked(g, rank) && it.node in g && it.subtreeCount != count
    ensures Popped(g, rank, CountAction(count), it) == PoppedAcross(g, rank, CountAction(count), it, 0)
  {
  }

  lemma Associative<T>(a: seq<T>, b: seq<T>, c: seq<T>)
    ensures a + (b + c) == (a + b) + c
  {
  }

  lemma SubtreesHead(ls: seq<Link>)
    requires ls != []
    ensures SubtreesOn(ls) == (if ls[0].subtree.Some? then [ls[0].subtree.value] else []) + SubtreesOn(ls[1..])
  {
  }

  lemma SubtreesCons(it: Iterator, ls: seq<Link>)
    requires ls != []
    ensures it.subtrees + SubtreesOn(ls) == Across(it, ls[0]).subtrees + SubtreesOn(ls[1..])
  {
    var head := if ls[0].subtree.Some? then [ls[0].subtree.value] else [];
    AcrossAdds(it, ls[0]);
    SubtreesHead(ls);
    hide *;
    Associative(it.subtrees, head, SubtreesOn(ls[1..]));
  }

  /** Every path of `count` counted links is delivered, with its subtrees in reading order. */
  lemma {:induction false} PathsArePopped(g: Graph, rank: Key -> nat, count: nat, it: Iterator, ls: seq<Link>, end: NodeRef)
    requires WellFormed(g) && Ranked(g, rank) && it.node in g && it.subtreeCount <= count
    requires CountedPath(g, it.node, ls, count - it.subtreeCount, end)
    ensures (Reverse(it.subtrees + SubtreesOn(ls)), end) in Popped(g, rank, CountAction(count), it)
    decreases |ls|
  {
    if it.subtreeCount == count {
      assert it.subtrees + SubtreesOn(ls) == it.subtrees;
    } else {
      hide Reverse, Across, SubtreesOn, Popped, PoppedAcross;
      var j :| 0 <= j < |g[it.node].links| && g[it.node].links[j] == ls[0];
      AcrossAdds(it, ls[0]);
      PathsArePopped(g, rank, count, Across(it, ls[0]), ls[1..], end);
      SubtreesCons(it, ls);
      AcrossIncludes(g, rank, CountAction(count), it, 0, j);
      PoppedUncounted(g, rank, count, it);
    }
  }

  lemma {:induction false} AcrossIncludes(g: Graph, rank: Key -> nat, cb: Callback, it: Iterator, k: nat, j: nat)
    requires WellFormed(g) && Ranked(g, rank) && it.node in g && k <= j < |g[it.node].links|
    ensures Popped(g, rank, cb, Across(it, g[it.node].links[j])) <= PoppedAcross(g, rank, cb, it, k)
    decreases j - k
  {
    if k < j {
      AcrossIncludes(g, rank, cb, it, k + 1, j);
    }
  }

  /** Nothing else is delivered. */
  lemma {:induction false} PoppedArePaths(g: Graph, rank: Key -> nat, count: nat, it: Iterator, x: (seq<Tree>, NodeRef))
    returns (ls: seq<Link>)
    requires WellFormed(g) && Ranked(g, rank) && it.node in g && it.subtreeCount <= count
    requires x in Popped(g, rank, CountAction(count), it)
    ensures CountedPath(g, it.node, ls, count - it.subtreeCount, x.1)
    ensures x.0 == Reverse(it.subtrees + SubtreesOn(ls))
    decreases rank(KeyOf(g[it.node])), |g[it.node].links| + 1
  {
    if it.subtreeCount == count {
      ls := [];
      assert it.subtrees + SubtreesOn(ls) == it.subtrees;
    } else {
      ls := AcrossArePaths(g, rank, count, it, 0, x);
    }
  }

  lemma {:induction false} AcrossArePaths(g: Graph, rank: Key -> nat, count: nat, it: Iterator, k: nat, x: (seq<Tree>, NodeRef))
    returns (ls: seq<Link>)
    requires WellFormed(g) && Ranked(g, rank) && it.node in g && it.subtreeCount < count && k <= |g[it.node].links|
    requires x in PoppedAcross(g, rank, CountAction(count), it, k)
    ensures CountedPath(g, it.node, ls, count - it.subtreeCount, x.1)
    ensures x.0 == Reverse(it.subtrees + SubtreesOn(ls))
    decreases rank(KeyOf(g[it.node])), |g[it.node].links| - k
  {
    var link := g[it.node].links[k];
    AcrossAdds(it, link);
    if x in Popped(g, rank, CountAction(count), Across(it, link)) {
      var tail := PoppedArePaths(g, rank, count, Across(it, link), x);
      ls := [link] + tail;
      assert ls[1..] == tail;
      SubtreesCons(it, ls);
    } else {
      ls := AcrossArePaths(g, rank, count, it, k + 1, x);
    }
  }

  /** popCount's bag holds exactly the paths with `count` counted links. */
  lemma PoppedIsExactlyThePaths(g: Graph, rank: Key -> nat, count: nat, n: NodeRef, subtrees: seq<Tree>, end: NodeRef)
    requires WellFormed(g) && Ranked(g, rank) && n in g
    ensures (subtrees, end) in Popped(g, rank, CountAction(count), Iterator(n, [], 0, true))
       <==> exists ls :: CountedPath(g, n, ls, count, end) && subtrees == Reverse(SubtreesOn(ls))
  {
    var it := Iterator(n, [], 0, true);
    forall ls | CountedPath(g, n, ls, count, end) && subtrees == Reverse(SubtreesOn(ls))
      ensures (subtrees, end) in Popped(g, rank, CountAction(count), it)
    {
      PathsArePopped(g, rank, count, it, ls, end);
      assert [] + SubtreesOn(ls) == SubtreesOn(ls);
    }
    if (subtrees, end) in Popped(g, rank, CountAction(count), it) {
      var ls := PoppedArePaths(g, rank, count, it, (subtrees, end));
      assert [] + SubtreesOn(ls) == SubtreesOn(ls);
    }
  }

  // ---------------------------------------------------------------- how many iterators a run needs

  /** The places where a run without a cap ends: where the callback stops it, or no link goes on. */
  ghost function Ends(g: Graph, rank: Key -> nat, cb: Callback, it: Iterator): nat
    requires WellFormed(g) && Ranked(g, rank) && it.node in g
    decreases rank(KeyOf(g[it.node])), |g[it.node].links| + 1
  {
    if cb(it).stop || g[it.node].links == [] then 1 else EndsAcross(g, rank, cb, it, 0)
  }

  ghost function EndsAcross(g: Graph, rank: Key -> nat, cb: Callback, it: Iterator, j: nat): nat
    requires WellFormed(g) && Ranked(g, rank) && it.node in g && j <= |g[it.node].links|
    decreases rank(KeyOf(g[it.node])), |g[it.node].links| - j
  {
    if j == |g[it.node].links| then 0 else
    Ends(g, rank, cb, Across(it, g[it.node].links[j])) + EndsAcross(g, rank, cb, it, j + 1)
  }

  predicate EndsAt(g: Graph, cb: Callback, it: Iterator) { cb(it).stop || it.node !in g || g[it.node].links == [] }

  /** Delivering each end, so that the ends are accounted for like what is popped. */
  function Ending(g: Graph, cb: Callback): Callback { (it: Iterator) => Action(EndsAt(g, cb, it), cb(it).stop) }

  /** Delivering the ends at which nothing is popped. */
  function Short(g: Graph, cb: Callback): Callback { (it: Iterator) => Action(EndsAt(g, cb, it) && !cb(it).pop, cb(it).stop) }

  /** The callback pops at most where a run ends. */
  ghost predicate PopsAtEnds(g: Graph, cb: Callback) { forall it :: cb(it).pop ==> EndsAt(g, cb, it) }

  lemma {:induction false} EndsCounted(g: Graph, rank: Key -> nat, cb: Callback, it: Iterator)
    requires WellFormed(g) && Ranked(g, rank) && it.node in g
    ensures |Popped(g, rank, Ending(g, cb), it)| == Ends(g, rank, cb, it) >= 1
    ensures PopsAtEnds(g, cb) ==>
      |Popped(g, rank, cb, it)| + |Popped(g, rank, Short(g, cb), it)| == Ends(g, rank, cb, it)
    decreases rank(KeyOf(g[it.node])), |g[it.node].links| + 1
  {
    EndsAcrossCounted(g, rank, cb, it, 0);
  }

  lemma {:induction false} EndsAcrossCounted(g: Graph, rank: Key -> nat, cb: Callback, it: Iterator, j: nat)
    requires WellFormed(g) && Ranked(g, rank) && it.node in g && j <= |g[it.node].links|
    ensures |PoppedAcross(g, rank, Ending(g, cb), it, j)| == EndsAcross(g, rank, cb, it, j) >= |g[it.node].links| - j
    ensures PopsAtEnds(g, cb) ==>
      |PoppedAcross(g, rank, cb, it, j)| + |PoppedAcross(g, rank, Short(g, cb), it, j)| == EndsAcross(g, rank, cb, it, j)
    decreases rank(KeyOf(g[it.node])), |g[it.node].links| - j
  {
    if j < |g[it.node].links| {
      EndsCounted(g, rank, cb, Across(it, g[it.node].links[j]));
      EndsAcrossCounted(g, rank, cb, it, j + 1);
    }
  }

  // ---------------------------------------------------------------- accounting for a run

  ghost predicate Placed(g: Graph, its: seq<Iterator>) {
    forall k :: 0 <= k < |its| ==> its[k].node in g
  }

  /** Iterators [i, size) still wait for their turn in this round; the others have already
      moved down a link. */
  ghost predicate Descending(g: Graph, rank: Key -> nat, its: seq<Iterator>, i: nat, size: nat, bound: nat) {
    && Placed(g, its) && i <= size <= |its|
    && (forall k :: 0 <= k < |its| ==> rank(KeyOf(g[its[k].node])) < bound)
    && (forall k :: 0 <= k < |its| && !(i <= k < size) ==> rank(KeyOf(g[its[k].node])) + 1 < bound)
  }

  /** What has been delivered and what is still to come never exceed the whole, and are the
      whole while no link was dropped. */
  predicate Accounts(delivered: Bag, left: Bag, all: Bag, capped: bool) {
    delivered + left <= all && (!capped ==> delivered + left == all)
  }

  function Without(its: seq<Iterator>, i: nat): seq<Iterator>
    requires i < |its|
  {
    its[..i] + its[i + 1..]
  }

  /** The links of one iterator, followed up to (not including) link j, link 0 last. */
  ghost predicate Following(g: Graph, rank: Key -> nat, cb: Callback, its0: seq<Iterator>, its: seq<Iterator>,
                            i: nat, j: nat, capped: bool)
    requires WellFormed(g) && Ranked(g, rank) && Placed(g, its0) && Placed(g, its)
    requires i < |its0| <= |its| && 1 <= j <= |g[its0[i].node].links|
  {
    var it := its0[i];
    && its[..|its0|] == its0
    && (forall k :: |its0| <= k < |its| ==> rank(KeyOf(g[its[k].node])) < rank(KeyOf(g[it.node])))
    && Accounts(PoppedBy(g, rank, cb, Without(its, i)), PoppedAcross(g, rank, cb, it, j),
                PoppedBy(g, rank, cb, Without(its0, i)) + PoppedAcross(g, rank, cb, it, 1), capped)
  }

  lemma FollowingStart(g: Graph, rank: Key -> nat, cb: Callback, its: seq<Iterator>, i: nat)
    requires WellFormed(g) && Ranked(g, rank) && Placed(g, its) && i < |its| && 1 <= |g[its[i].node].links|
    ensures Following(g, rank, cb, its, its, i, 1, false)
  {
  }

  lemma FollowingLink(g: Graph, rank: Key -> nat, cb: Callback, its0: seq<Iterator>, its: seq<Iterator>,
                      i: nat, j: nat, capped: bool)
    requires WellFormed(g) && Ranked(g, rank) && Placed(g, its0) && Placed(g, its)
    requires i < |its0| <= |its| && 1 <= j < |g[its0[i].node].links|
    requires Following(g, rank, cb, its0, its, i, j, capped)
    ensures var its' := its + [Across(its0[i], g[its0[i].node].links[j])];
            Placed(g, its') && Following(g, rank, cb, its0, its', i, j + 1, capped)
    ensures Following(g, rank, cb, its0, its, i, j + 1, true)
  {
    hide Popped;
    var it := its0[i];
    var x := Across(it, g[it.node].links[j]);
    var its' := its + [x];
    AcrossAdds(it, g[it.node].links[j]);
    assert Without(its', i) == Without(its, i) + [x];
    assert [x][1..] == [];
    PoppedByAppend(g, rank, cb, Without(its, i), [x]);
    assert its'[..|its0|] == its[..|its0|];
  }

  lemma FollowingEnd(g: Graph, rank: Key -> nat, cb: Callback, its0: seq<Iterator>, its: seq<Iterator>, i: nat, capped: bool)
    requires WellFormed(g) && Ranked(g, rank) && Placed(g, its0) && Placed(g, its)
    requires i < |its0| <= |its| && 1 <= |g[its0[i].node].links|
    requires Following(g, rank, cb, its0, its, i, |g[its0[i].node].links|, capped)
    ensures var its' := its[i := Across(its0[i], g[its0[i].node].links[0])];
            && Placed(g, its')
            && Accounts(PoppedBy(g, rank, cb, its'), multiset{},
                        PoppedBy(g, rank, cb, Without(its0, i)) + PoppedAcross(g, rank, cb, its0[i], 0), capped)
  {
    hide Popped, PoppedAcross, PoppedBy;
    var it := its0[i];
    var its' := its[i := Across(it, g[it.node].links[0])];
    AcrossAdds(it, g[it.node].links[0]);
    AcrossEnds(g, rank, cb, it);
    PoppedBySplit(g, rank, cb, its', i);
    assert Without(its', i) == Without(its, i) by {
      assert its'[..i] == its[..i] && its'[i + 1..] == its[i + 1..];
    }
    var head, rest := Popped(g, rank, cb, its'[i]), PoppedAcross(g, rank, cb, it, 1);
    var a, b := PoppedBy(g, rank, cb, Without(its, i)), PoppedBy(g, rank, cb, Without(its0, i));
    assert a + multiset{} == a;
    assert (b + rest) + head == b + (head + rest);
    assert (a + head) + multiset{} == a + head;
  }

  lemma AcrossEnds(g: Graph, rank: Key -> nat, cb: Callback, it: Iterator)
    requires WellFormed(g) && Ranked(g, rank) && it.node in g && 1 <= |g[it.node].links|
    ensures Across(it, g[it.node].links[0]).node in g
    ensures PoppedAcross(g, rank, cb, it, 0)
         == Popped(g, rank, cb, Across(it, g[it.node].links[0])) + PoppedAcross(g, rank, cb, it, 1)
    ensures PoppedAcross(g, rank, cb, it, |g[it.node].links|) == multiset{}
  {
  }

  function PopPart(cb: Callback, it: Iterator): Bag {
    if cb(it).pop then multiset{(Reverse(it.subtrees), it.node)} else multiset{}
  }

  lemma AccountsAdd(delivered: Bag, part: Bag, rest: Bag, mid: Bag, left: Bag, all: Bag, capped0: bool, capped1: bool)
    requires Accounts(delivered, rest + (part + mid), all, capped0)
    requires Accounts(left, multiset{}, rest + mid, capped1)
    ensures Accounts(delivered + part, left, all, capped0 || capped1)
  {
    assert delivered + part + (rest + mid) == delivered + (rest + (part + mid));
    assert left + multiset{} == left;
  }

  /** One iterator's turn when it stops: it leaves the list. */
  lemma TurnStops(g: Graph, rank: Key -> nat, cb: Callback, its: seq<Iterator>, i: nat, delivered: Bag, all: Bag, capped: bool)
    requires WellFormed(g) && Ranked(g, rank) && Placed(g, its) && i < |its|
    requires Accounts(delivered, PoppedBy(g, rank, cb, its), all, capped)
    requires cb(its[i]).stop || g[its[i].node].links == []
    ensures Placed(g, Without(its, i))
    ensures Accounts(delivered + PopPart(cb, its[i]), PoppedBy(g, rank, cb, Without(its, i)), all, capped)
  {
    PoppedBySplit(g, rank, cb, its, i);
    assert Popped(g, rank, cb, its[i]) == PopPart(cb, its[i]) + multiset{};
    hide Popped, PoppedBy, PopPart;
    var left := PoppedBy(g, rank, cb, Without(its, i));
    assert left + multiset{} == left;
    AccountsAdd(delivered, PopPart(cb, its[i]), left, multiset{}, left, all, capped, false);
  }

  /** One iterator's turn when it goes on: it and its copies move one link down. */
  lemma TurnFollows(g: Graph, rank: Key -> nat, cb: Callback, its0: seq<Iterator>, its: seq<Iterator>, i: nat,
                    delivered: Bag, all: Bag, capped0: bool, capped1: bool)
    requires WellFormed(g) && Ranked(g, rank) && Placed(g, its0) && Placed(g, its)
    requires i < |its0| <= |its| && 1 <= |g[its0[i].node].links| && !cb(its0[i]).stop
    requires Accounts(delivered, PoppedBy(g, rank, cb, its0), all, capped0)
    requires Following(g, rank, cb, its0, its, i, |g[its0[i].node].links|, capped1)
    ensures var its' := its[i := Across(its0[i], g[its0[i].node].links[0])];
            && Placed(g, its')
            && Accounts(delivered + PopPart(cb, its0[i]), PoppedBy(g, rank, cb, its'), all, capped0 || capped1)
  {
    PoppedBySplit(g, rank, cb, its0, i);
    FollowingEnd(g, rank, cb, its0, its, i, capped1);
    assert Popped(g, rank, cb, its0[i]) == PopPart(cb, its0[i]) + PoppedAcross(g, rank, cb, its0[i], 0);
    hide Popped, PoppedBy, PoppedAcross, PopPart;
    AccountsAdd(delivered, PopPart(cb, its0[i]), PoppedBy(g, rank, cb, Without(its0, i)), PoppedAcross(g, rank, cb, its0[i], 0),
                PoppedBy(g, rank, cb, its[i := Across(its0[i], g[its0[i].node].links[0])]), all, capped0, capped1);
  }

  lemma DescendingTurn(g: Graph, rank: Key -> nat, cb: Callback, its0: seq<Iterator>, its: seq<Iterator>,
                       i: nat, size: nat, bound: nat, capped: bool)
    requires WellFormed(g) && Ranked(g, rank) && Placed(g, its0) && Placed(g, its)
    requires i < |its0| <= |its| && 1 <= |g[its0[i].node].links| && i < size
    requires Descending(g, rank, its0, i, size, bound) && its[i] == its0[i]
    requires Following(g, rank, cb, its0, its, i, |g[its0[i].node].links|, capped)
    ensures Descending(g, rank, its[i := Across(its[i], g[its[i].node].links[0])], i + 1, size, bound)
  {
    hide PoppedBy, PoppedAcross, Accounts;
    AcrossAdds(its0[i], g[its0[i].node].links[0]);
    forall k | 0 <= k < |its0| ensures its[k] == its0[k] {
      assert its[..|its0|][k] == its[k];
    }
  }

  // ---------------------------------------------------------------- a turn, copies and all

  /** Copies of an iterator for links 1 up to n. */
  function Copies(it: Iterator, links: seq<Link>, n: nat): (r: seq<Iterator>)
    requires n == 0 || n < |links|
    ensures |r| == n
  {
    if n == 0 then [] else Copies(it, links, n - 1) + [Across(it, links[n])]
  }

  lemma {:induction false} CopiesFollow(g: Graph, rank: Key -> nat, cb: Callback, its: seq<Iterator>, i: nat, n: nat)
    requires WellFormed(g) && Ranked(g, rank) && Placed(g, its) && i < |its| && n < |g[its[i].node].links|
    ensures var its' := its + Copies(its[i], g[its[i].node].links, n);
      Placed(g, its') && Following(g, rank, cb, its, its', i, n + 1, false)
    decreases n
  {
    hide Following, WellFormed, Ranked, Popped, PoppedBy, PoppedAcross;
    var links := g[its[i].node].links;
    if n == 0 {
      FollowingStart(g, rank, cb, its, i);
      assert its + Copies(its[i], links, 0) == its;
    } else {
      CopiesFollow(g, rank, cb, its, i, n - 1);
      var before := its + Copies(its[i], links, n - 1);
      FollowingLink(g, rank, cb, its, before, i, n, false);
      assert before + [Across(its[i], links[n])] == its + Copies(its[i], links, n);
    }
  }

  lemma {:induction false} RestDropped(g: Graph, rank: Key -> nat, cb: Callback, its0: seq<Iterator>, its: seq<Iterator>,
                                       i: nat, j: nat, capped: bool)
    requires WellFormed(g) && Ranked(g, rank) && Placed(g, its0) && Placed(g, its)
    requires i < |its0| <= |its| && 1 <= j <= |g[its0[i].node].links|
    requires Following(g, rank, cb, its0, its, i, j, capped)
    ensures Following(g, rank, cb, its0, its, i, |g[its0[i].node].links|, capped || j < |g[its0[i].node].links|)
    decreases |g[its0[i].node].links| - j
  {
    hide Following, WellFormed, Ranked, Popped, PoppedBy, PoppedAcross;
    if j < |g[its0[i].node].links| {
      FollowingLink(g, rank, cb, its0, its, i, j, capped);
      RestDropped(g, rank, cb, its0, its, i, j + 1, true);
    }
  }

  /** The list after iterator i's turn: copies at the end, itself one link down. */
  function Turned(its: seq<Iterator>, i: nat, links: seq<Link>, n: nat): seq<Iterator>
    requires i < |its| && n < |links|
  {
    (its + Copies(its[i], links, n))[i := Across(its[i], links[0])]
  }

  /** What a turn with n copies does to the books, whatever is accounted for. */
  lemma TurnCopies(g: Graph, rank: Key -> nat, cb: Callback, its: seq<Iterator>, i: nat, n: nat, delivered: Bag, all: Bag,
                   capped: bool)
    requires WellFormed(g) && Ranked(g, rank) && Placed(g, its) && i < |its| && n < |g[its[i].node].links| && !cb(its[i]).stop
    requires Accounts(delivered, PoppedBy(g, rank, cb, its), all, capped)
    ensures var its' := Turned(its, i, g[its[i].node].links, n);
      && Placed(g, its')
      && Accounts(delivered + PopPart(cb, its[i]), PoppedBy(g, rank, cb, its'), all,
                  capped || n + 1 < |g[its[i].node].links|)
  {
    hide Following, WellFormed, Ranked, Popped, PoppedBy, PoppedAcross, Accounts, PopPart;
    var links := g[its[i].node].links;
    var its1 := its + Copies(its[i], links, n);
    CopiesFollow(g, rank, cb, its, i, n);
    RestDropped(g, rank, cb, its, its1, i, n + 1, false);
    TurnFollows(g, rank, cb, its, its1, i, delivered, all, capped, n + 1 < |links|);
  }

  lemma TurnDescends(g: Graph, rank: Key -> nat, its: seq<Iterator>, i: nat, n: nat, size: nat, bound: nat)
    requires WellFormed(g) && Ranked(g, rank) && Placed(g, its) && i < |its| && n < |g[its[i].node].links| && i < size
    requires Descending(g, rank, its, i, size, bound)
    ensures Descending(g, rank, Turned(its, i, g[its[i].node].links, n), i + 1, size, bound)
  {
    hide Following, WellFormed, Ranked, Popped, PoppedBy, PoppedAcross, Descending;
    var links := g[its[i].node].links;
    var its1 := its + Copies(its[i], links, n);
    var cb := CountAction(0);
    CopiesFollow(g, rank, cb, its, i, n);
    RestDropped(g, rank, cb, its, its1, i, n + 1, false);
    assert its1[i] == its[i];
    DescendingTurn(g, rank, cb, its, its1, i, size, bound, n + 1 < |links|);
  }

  /** Every iterator still has an end to come. */
  lemma {:induction false} EndsAhead(g: Graph, rank: Key -> nat, cb: Callback, its: seq<Iterator>)
    requires WellFormed(g) && Ranked(g, rank) && Placed(g, its)
    ensures |PoppedBy(g, rank, Ending(g, cb), its)| >= |its|
    decreases |its|
  {
    hide Popped, Ending;
    if its != [] {
      EndsCounted(g, rank, cb, its[0]);
      EndsAhead(g, rank, cb, its[1..]);
    }
  }

  /** One that goes on has an end to come for each of its links. */
  lemma RoomForCopies(g: Graph, rank: Key -> nat, cb: Callback, its: seq<Iterator>, i: nat)
    requires WellFormed(g) && Ranked(g, rank) && Placed(g, its) && i < |its| && !EndsAt(g, cb, its[i])
    ensures |its| - 1 + |g[its[i].node].links| <= |PoppedBy(g, rank, Ending(g, cb), its)|
  {
    PoppedBySplit(g, rank, Ending(g, cb), its, i);
    EndsAhead(g, rank, cb, Without(its, i));
    EndsCounted(g, rank, cb, its[i]);
    EndsAcrossCounted(g, rank, cb, its[i], 0);
    hide Popped, PoppedBy, PoppedAcross, EndsAcross;
  }

  lemma Fewer<T>(a: multiset<T>, b: multiset<T>)
    requires a <= b
    ensures |a| <= |b|
  {
    assert b == a + (b - a);
  }

  // ---------------------------------------------------------------- a whole run

  /** How many copies the cap lets an iterator with some links make. */
  function Copied(iterators: nat, links: nat): (n: nat)
    ensures links > 0 ==> n < links
  {
    if links == 0 || iterators >= MAX_ITERATOR_COUNT then 0
    else if links - 1 <= MAX_ITERATOR_COUNT - iterators then links - 1
    else MAX_ITERATOR_COUNT - iterators
  }

  /** The books of a run: what was delivered, which runs have ended, and which of those delivered nothing. */
  ghost predicate Kept(g: Graph, rank: Key -> nat, cb: Callback, start: Iterator, its: seq<Iterator>,
                       delivered: Bag, ended: Bag, short: Bag, capped: bool)
    requires WellFormed(g) && Ranked(g, rank) && Placed(g, its) && start.node in g
  {
    && Accounts(delivered, PoppedBy(g, rank, cb, its), Popped(g, rank, cb, start), capped)
    && Accounts(ended, PoppedBy(g, rank, Ending(g, cb), its), Popped(g, rank, Ending(g, cb), start), capped)
    && Accounts(short, PoppedBy(g, rank, Short(g, cb), its), Popped(g, rank, Short(g, cb), start), capped)
    && (capped ==> |ended| + |its| >= MAX_ITERATOR_COUNT) && (Ends(g, rank, cb, start) <= MAX_ITERATOR_COUNT ==> !capped)
    && (PopsAtEnds(g, cb) ==> |delivered| + |short| == |ended|)
  }

  lemma KeptStart(g: Graph, rank: Key -> nat, cb: Callback, start: Iterator)
    requires WellFormed(g) && Ranked(g, rank) && start.node in g
    ensures Kept(g, rank, cb, start, [start], multiset{}, multiset{}, multiset{}, false)
  {
    hide Popped, PoppedBy, Ending, Short, Ends, WellFormed, Ranked;
    StartAccounts(g, rank, cb, start);
    StartAccounts(g, rank, Ending(g, cb), start);
    StartAccounts(g, rank, Short(g, cb), start);
  }

  lemma StartAccounts(g: Graph, rank: Key -> nat, cb: Callback, start: Iterator)
    requires WellFormed(g) && Ranked(g, rank) && start.node in g
    ensures Accounts(multiset{}, PoppedBy(g, rank, cb, [start]), Popped(g, rank, cb, start), false)
  {
    assert [start][1..] == [];
    hide Popped;
  }

  lemma KeptStops(g: Graph, rank: Key -> nat, cb: Callback, start: Iterator, its: seq<Iterator>, i: nat,
                  delivered: Bag, ended: Bag, short: Bag, capped: bool)
    requires WellFormed(g) && Ranked(g, rank) && Placed(g, its) && start.node in g && i < |its| && EndsAt(g, cb, its[i])
    requires Kept(g, rank, cb, start, its, delivered, ended, short, capped)
    ensures Placed(g, Without(its, i))
    ensures Kept(g, rank, cb, start, Without(its, i), delivered + PopPart(cb, its[i]), ended + PopPart(Ending(g, cb), its[i]),
                 short + PopPart(Short(g, cb), its[i]), capped)
  {
    hide Popped, PoppedBy, Ends, Accounts, PopsAtEnds, WellFormed, Ranked;
    TurnStops(g, rank, cb, its, i, delivered, Popped(g, rank, cb, start), capped);
    TurnStops(g, rank, Ending(g, cb), its, i, ended, Popped(g, rank, Ending(g, cb), start), capped);
    TurnStops(g, rank, Short(g, cb), its, i, short, Popped(g, rank, Short(g, cb), start), capped);
  }

  lemma KeptFollows(g: Graph, rank: Key -> nat, cb: Callback, start: Iterator, its: seq<Iterator>, i: nat,
                    delivered: Bag, ended: Bag, short: Bag, capped: bool)
    requires WellFormed(g) && Ranked(g, rank) && Placed(g, its) && start.node in g && i < |its| && !EndsAt(g, cb, its[i])
    requires Kept(g, rank, cb, start, its, delivered, ended, short, capped)
    ensures var links := g[its[i].node].links; var n := Copied(|its|, |links|); var its' := Turned(its, i, links, n);
      && Placed(g, its')
      && Kept(g, rank, cb, start, its', delivered + PopPart(cb, its[i]), ended, short, capped || n + 1 < |links|)
  {
    hide Popped, PoppedBy, Ends, Accounts, WellFormed, Ranked;
    var n := Copied(|its|, |g[its[i].node].links|);
    TurnCopies(g, rank, cb, its, i, n, delivered, Popped(g, rank, cb, start), capped);
    TurnCopies(g, rank, Ending(g, cb), its, i, n, ended, Popped(g, rank, Ending(g, cb), start), capped);
    TurnCopies(g, rank, Short(g, cb), its, i, n, short, Popped(g, rank, Short(g, cb), start), capped);
    assert ended + multiset{} == ended && short + multiset{} == short;
    RoomForCopies(g, rank, cb, its, i);
    LeftWithin(ended, PoppedBy(g, rank, Ending(g, cb), its), Popped(g, rank, Ending(g, cb), start), capped);
    EndsCounted(g, rank, cb, start);
  }

  lemma LeftWithin(delivered: Bag, left: Bag, all: Bag, capped: bool)
    requires Accounts(delivered, left, all, capped)
    ensures |left| <= |delivered| + |left| <= |all|
  {
    Fewer(delivered + left, all);
  }

  lemma KeptEnd(g: Graph, rank: Key -> nat, cb: Callback, start: Iterator, delivered: Bag, ended: Bag, short: Bag, capped: bool)
    requires WellFormed(g) && Ranked(g, rank) && start.node in g
    requires Kept(g, rank, cb, start, [], delivered, ended, short, capped)
    ensures var all, ends := Popped(g, rank, cb, start), Ends(g, rank, cb, start);
      && delivered <= all && (ends <= MAX_ITERATOR_COUNT ==> delivered == all)
      && (PopsAtEnds(g, cb) ==>
            |all| <= ends && |delivered| + (ends - |all|) >= if ends < MAX_ITERATOR_COUNT then ends else MAX_ITERATOR_COUNT)
  {
    hide Popped, Ends, WellFormed, Ranked, PopsAtEnds;
    EndsCounted(g, rank, cb, start);
    var allShort := Popped(g, rank, Short(g, cb), start);
    assert short + multiset{} == short && ended + multiset{} == ended && delivered + multiset{} == delivered;
    Fewer(short, allShort);
  }

  lemma DescendingFacts(g: Graph, rank: Key -> nat, its: seq<Iterator>, i: nat, size: nat, bound: nat)
    requires Descending(g, rank, its, i, size, bound)
    ensures Placed(g, its) && i <= size <= |its| && forall k :: 0 <= k < |its| ==> rank(KeyOf(g[its[k].node])) < bound
  {
  }

  lemma DescendingStart(g: Graph, rank: Key -> nat, start: Iterator)
    requires start.node in g
    ensures Descending(g, rank, [start], 0, 1, rank(KeyOf(g[start.node])) + 1)
  {
  }

  lemma DescendingStops(g: Graph, rank: Key -> nat, its: seq<Iterator>, i: nat, size: nat, bound: nat)
    requires Descending(g, rank, its, i, size, bound) && i < size
    ensures Descending(g, rank, Without(its, i), i, size - 1, bound)
  {
  }

  /** A round is over when every iterator has had its turn: all are a link further down. */
  lemma RoundEnds(g: Graph, rank: Key -> nat, its: seq<Iterator>, size: nat, bound: nat)
    requires Descending(g, rank, its, size, size, bound) && bound > 0
    ensures Descending(g, rank, its, 0, |its|, bound - 1)
  {
  }
}
