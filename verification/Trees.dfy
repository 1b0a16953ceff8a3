/** Syntax trees as values (subtree_core.go, subtree_inline.go): what a subtree handle
    denotes once reference counts and sharing are forgotten. */
module Trees {
  import opened Lengths

  const SYM_END := 0
  const SYM_ERROR := 0xFFFF
  const SYM_ERROR_REPEAT := 0xFFFE
  const MAX_INLINE := 255

  const COST_PER_RECOVERY := 500
  const COST_PER_MISSING_TREE := 110
  const COST_PER_SKIPPED_TREE := 100
  const COST_PER_SKIPPED_LINE := 30
  const COST_PER_SKIPPED_CHAR := 1

  /** A leaf packed into the handle itself.  Its size extent is not stored. */
  datatype InlineLeaf = InlineLeaf(
    paddingBytes: nat, paddingRows: nat, paddingColumns: nat,
    sizeBytes: nat, lookaheadBytes: nat, symbol: nat, parseState: nat,
    visible: bool, named: bool, extra: bool,
    hasChanges: bool, isMissing: bool, isKeyword: bool)

  /** The fields of a heap node other than its reference count and its children. */
  datatype NodeData = NodeData(
    padding: Length, size: Length, lookaheadBytes: nat, errorCost: int,
    symbol: nat, parseState: nat,
    visible: bool, named: bool, extra: bool,
    fragileLeft: bool, fragileRight: bool, hasChanges: bool,
    hasExternalTokens: bool, hasExternalScannerStateChange: bool, dependsOnColumn: bool,
    isMissing: bool, isKeyword: bool,
    visibleChildCount: nat, namedChildCount: nat, visibleDescendantCount: nat,
    dynamicPrecedence: int, repeatDepth: nat, productionId: nat,
    firstLeafSymbol: nat, firstLeafParseState: nat,
    scannerState: seq<int>, lookaheadChar: int)

  datatype Tree =
    | Inline(leaf: InlineLeaf)
    | Node(data: NodeData, children: seq<Tree>)
  {
    function Padding(): Length {
      match this
      case Inline(l) => Length(l.paddingBytes, Point(l.paddingRows, l.paddingColumns))
      case Node(d, _) => d.padding
    }

    function Size(): Length {
      match this
      case Inline(l) => Length(l.sizeBytes, Point(0, l.sizeBytes))
      case Node(d, _) => d.size
    }

    function Total(): Length { Add(Padding(), Size()) }

    function Lookahead(): nat {
      match this
      case Inline(l) => l.lookaheadBytes
      case Node(d, _) => d.lookaheadBytes
    }

    function HasChanges(): bool {
      match this
      case Inline(l) => l.hasChanges
      case Node(d, _) => d.hasChanges
    }

    function DependsOnColumn(): bool {
      match this
      case Inline(_) => false
      case Node(d, _) => d.dependsOnColumn
    }

    function Children(): seq<Tree> {
      match this
      case Inline(_) => []
      case Node(_, cs) => cs
    }

    function Symbol(): nat {
      match this
      case Inline(l) => l.symbol
      case Node(d, _) => d.symbol
    }

    predicate Visible() {
      match this
      case Inline(l) => l.visible
      case Node(d, _) => d.visible
    }

    predicate Named() {
      match this
      case Inline(l) => l.named
      case Node(d, _) => d.named
    }

    predicate Extra() {
      match this
      case Inline(l) => l.extra
      case Node(d, _) => d.extra
    }

    predicate Missing() {
      match this
      case Inline(l) => l.isMissing
      case Node(d, _) => d.isMissing
    }

    predicate IsError() { Symbol() == SYM_ERROR }

    predicate Fragile() { Node? && (data.fragileLeft || data.fragileRight) }

    function ErrorCost(): int {
      if Missing() then COST_PER_MISSING_TREE + COST_PER_RECOVERY
      else if Inline? then 0 else data.errorCost
    }

    function DynamicPrecedence(): int {
      if Children() == [] then 0 else data.dynamicPrecedence
    }

    function VisibleDescendants(): nat {
      if Children() == [] then 0 else data.visibleDescendantCount
    }

    function ScannerState(): seq<int> {
      if Node? && data.hasExternalTokens && children == [] then data.scannerState else []
    }
  }

  /** A leaf qualifies for the inline form only if every extent fits its field. */
  predicate CanInline(padding: Length, size: Length, lookahead: nat) {
    && padding.bytes < MAX_INLINE
    && padding.extent.row < 16
    && padding.extent.column < MAX_INLINE
    && size.bytes < MAX_INLINE
    && size.extent.row == 0
    && size.extent.column < MAX_INLINE
    && lookahead < 16
  }

  /** The heap node an inline leaf turns into when it no longer fits. */
  function Spilled(l: InlineLeaf, padding: Length, size: Length, lookahead: nat): NodeData {
    NodeData(padding, size, lookahead, 0, l.symbol, l.parseState,
             l.visible, l.named, l.extra, false, false, false, false, false, false,
             l.isMissing, l.isKeyword, 0, 0, 0, 0, 0, 0, 0, 0, [], 0)
  }

  /** Number of bytes a list of siblings spans. */
  function Bytes(cs: seq<Tree>): nat {
    if cs == [] then 0 else cs[0].Total().bytes + Bytes(cs[1..])
  }

  /** A tree is byte-consistent when at every level a parent spans exactly its children
      and starts with its first child's padding. */
  ghost predicate Consistent(t: Tree) {
    match t
    case Inline(_) => true
    case Node(d, cs) =>
      && (cs != [] ==> Spans(t))
      && forall i :: 0 <= i < |cs| ==> Consistent(cs[i])
  }

  predicate Spans(t: Tree)
    requires t.Children() != []
  {
    && t.Total().bytes == Bytes(t.Children())
    && t.Padding().bytes == t.Children()[0].Padding().bytes
  }

  ghost predicate AllConsistent(cs: seq<Tree>) {
    forall i :: 0 <= i < |cs| ==> Consistent(cs[i])
  }
}
