/** Parse tables (language.go:157-179) and the iterator over the symbols a state accepts
    (lookahead.go): dense rows for the large states, grouped lists for the small ones. */
module Lookaheads {

  /** actionCount gives the number of actions of a table entry. */
  datatype Tables = Tables(symbolCount: nat, tokenCount: nat, largeStateCount: nat, parseTable: seq<nat>,
                           smallParseTable: seq<nat>, smallParseTableMap: seq<nat>, actionCount: nat -> nat)

  /** A symbol and the table value it is looked up to. */
  datatype Entry = Entry(symbol: nat, value: nat)

  // ---------------------------------------------------------------- what a table row says

  /** The stretch of symbols that share a value. */
  function Stretch(data: seq<nat>, from: nat, upto: nat, value: nat): (r: seq<Entry>)
    requires from <= upto <= |data|
    ensures |r| == upto - from
    ensures forall j :: 0 <= j < |r| ==> r[j] == Entry(data[from + j], value)
    decreases upto - from
  {
    if from == upto then [] else [Entry(data[from], value)] + Stretch(data, from + 1, upto, value)
  }

  /** Groups are a value, a symbol count and that many symbols.  Each group has a symbol, a value other
      than zero, and only terminals or only non-terminals. */
  predicate Coded(t: Tables, pos: nat, groups: nat)
    decreases groups
  {
    var data := t.smallParseTable;
    if groups == 0 then pos <= |data| else
    && pos + 2 <= |data| && data[pos] != 0 && data[pos + 1] > 0 && pos + 2 + data[pos + 1] <= |data|
    && (forall k :: pos + 2 <= k < pos + 2 + data[pos + 1] ==> (data[k] < t.tokenCount <==> data[pos + 2] < t.tokenCount))
    && Coded(t, pos + 2 + data[pos + 1], groups - 1)
  }

  function Groups(t: Tables, pos: nat, groups: nat): seq<Entry>
    requires Coded(t, pos, groups)
    decreases groups
  {
    var data := t.smallParseTable;
    if groups == 0 then [] else
    Stretch(data, pos + 2, pos + 2 + data[pos + 1], data[pos]) + Groups(t, pos + 2 + data[pos + 1], groups - 1)
  }

  /** The symbols of a dense row with a value, from one symbol on. */
  function Row(t: Tables, base: nat, symbol: nat): seq<Entry>
    requires base + t.symbolCount <= |t.parseTable|
    decreases t.symbolCount - symbol
  {
    if symbol >= t.symbolCount then [] else
    (if t.parseTable[base + symbol] != 0 then [Entry(symbol, t.parseTable[base + symbol])] else [])
    + Row(t, base, symbol + 1)
  }

  predicate Small(t: Tables, state: nat) { state >= t.largeStateCount }

  predicate HasState(t: Tables, state: nat) {
    if Small(t, state) then
      && state - t.largeStateCount < |t.smallParseTableMap|
      && var index := t.smallParseTableMap[state - t.largeStateCount];
         index < |t.smallParseTable| && Coded(t, index + 1, t.smallParseTable[index])
    else (state + 1) * t.symbolCount <= |t.parseTable|
  }

  lemma RowFits(t: Tables, state: nat)
    requires HasState(t, state) && !Small(t, state)
    ensures state * t.symbolCount + t.symbolCount <= |t.parseTable|
  {
  }

  /** All the entries of a state. */
  function Entries(t: Tables, state: nat): seq<Entry>
    requires HasState(t, state)
  {
    if Small(t, state) then
      var index := t.smallParseTableMap[state - t.largeStateCount];
      Groups(t, index + 1, t.smallParseTable[index])
    else
      RowFits(t, state);
      Row(t, state * t.symbolCount, 0)
  }

  /** No symbol listed twice. */
  predicate RepeatFree(es: seq<Entry>) {
    forall i, j :: 0 <= i < j < |es| ==> es[i].symbol != es[j].symbol
  }

  function ValueIn(es: seq<Entry>, symbol: nat): nat {
    if es == [] then 0 else if es[0].symbol == symbol then es[0].value else ValueIn(es[1..], symbol)
  }

  lemma {:induction false} ValueInAppend(a: seq<Entry>, b: seq<Entry>, symbol: nat)
    requires forall i :: 0 <= i < |a| ==> a[i].value != 0
    ensures ValueIn(a + b, symbol) == if ValueIn(a, symbol) != 0 then ValueIn(a, symbol) else ValueIn(b, symbol)
    decreases |a|
  {
    if a == [] {
      assert a + b == b;
    } else {
      assert (a + b)[0] == a[0] && (a + b)[1..] == a[1..] + b;
      ValueInAppend(a[1..], b, symbol);
    }
  }

  predicate Within(data: seq<nat>, from: nat, upto: nat, symbol: nat)
    requires upto <= |data|
  {
    exists k :: from <= k < upto && data[k] == symbol
  }

  lemma {:induction false} ValueInStretch(data: seq<nat>, from: nat, upto: nat, value: nat, symbol: nat)
    requires from <= upto <= |data|
    ensures ValueIn(Stretch(data, from, upto, value), symbol)
         == if Within(data, from, upto, symbol) then value else 0
    decreases upto - from
  {
    if from < upto {
      ValueInStretch(data, from + 1, upto, value, symbol);
      assert Stretch(data, from, upto, value)[1..] == Stretch(data, from + 1, upto, value);
      if Within(data, from, upto, symbol) {
        var k :| from <= k < upto && data[k] == symbol;
        assert k == from || from + 1 <= k;
      }
    }
  }

  /** lookup, over the groups of a small state. */
  method LookupSmall(t: Tables, start: nat, groups: nat, symbol: nat) returns (value: nat)
    requires Coded(t, start, groups)
    ensures value == ValueIn(Groups(t, start, groups), symbol)
  {
    hide ValueIn, Stretch;
    var data := t.smallParseTable;
    var pos: nat, left: nat := start, groups;
    ghost var all := ValueIn(Groups(t, start, groups), symbol);
    while left > 0
      invariant left <= groups && Coded(t, pos, left) && ValueIn(Groups(t, pos, left), symbol) == all
      decreases left
    {
      var sectionValue, symbolCount := data[pos], data[pos + 1];
      ValueInGroup(t, pos, left, symbol);
      var first := pos + 2;
      pos := first;
      var j := 0;
      while j < symbolCount
        invariant 0 <= j <= symbolCount && pos == first + j
        invariant forall k :: first <= k < pos ==> data[k] != symbol
      {
        if data[pos] == symbol { return sectionValue; }
        pos := pos + 1;
        j := j + 1;
      }
      left := left - 1;
    }
    GroupsEnd(t, pos, symbol);
    return 0;
  }

  lemma GroupsEnd(t: Tables, pos: nat, symbol: nat)
    requires Coded(t, pos, 0)
    ensures ValueIn(Groups(t, pos, 0), symbol) == 0
  {
  }

  lemma ValueInGroup(t: Tables, pos: nat, groups: nat, symbol: nat)
    requires groups > 0 && Coded(t, pos, groups)
    ensures var data := t.smallParseTable;
      var first, end := pos + 2, pos + 2 + data[pos + 1];
      ValueIn(Groups(t, pos, groups), symbol)
      == if Within(data, first, end, symbol) then data[pos] else ValueIn(Groups(t, end, groups - 1), symbol)
  {
    hide ValueIn;
    var data := t.smallParseTable;
    var end := pos + 2 + data[pos + 1];
    ValueInStretch(data, pos + 2, end, data[pos], symbol);
    ValueInAppend(Stretch(data, pos + 2, end, data[pos]), Groups(t, end, groups - 1), symbol);
  }

  lemma {:induction false} ValueInRow(t: Tables, base: nat, from: nat, symbol: nat)
    requires base + t.symbolCount <= |t.parseTable|
    ensures ValueIn(Row(t, base, from), symbol)
         == if from <= symbol < t.symbolCount then t.parseTable[base + symbol] else 0
    decreases t.symbolCount - from
  {
    if from < t.symbolCount {
      ValueInRow(t, base, from + 1, symbol);
      var head := if t.parseTable[base + from] != 0 then [Entry(from, t.parseTable[base + from])] else [];
      ValueInAppend(head, Row(t, base, from + 1), symbol);
      if head != [] { assert head[1..] == []; }
    }
  }

  /** lookup: the value of a symbol in a state, zero for none. */
  method Lookup(t: Tables, state: nat, symbol: nat) returns (value: nat)
    requires HasState(t, state) && symbol < t.symbolCount
    ensures value == ValueIn(Entries(t, state), symbol)
  {
    hide ValueIn;
    if state >= t.largeStateCount {
      var index := t.smallParseTableMap[state - t.largeStateCount];
      value := LookupSmall(t, index + 1, t.smallParseTable[index], symbol);
    } else {
      RowFits(t, state);
      ValueInRow(t, state * t.symbolCount, 0, symbol);
      value := t.parseTable[state * t.symbolCount + symbol];
    }
  }

  // ---------------------------------------------------------------- the iterator

  /** The next entry of a stretch. */
  lemma StretchFirst(t: Tables, from: nat, upto: nat, value: nat, rest: seq<Entry>)
    requires from < upto <= |t.smallParseTable|
    ensures var es := Stretch(t.smallParseTable, from, upto, value) + rest;
      && es != [] && es[0] == Entry(t.smallParseTable[from], value)
      && es[1..] == Stretch(t.smallParseTable, from + 1, upto, value) + rest
  {
    var data := t.smallParseTable;
    assert Stretch(data, from, upto, value) == [Entry(data[from], value)] + Stretch(data, from + 1, upto, value);
  }

  /** Past the end of a stretch come the groups, the next one first. */
  lemma {:induction false} GroupNext(t: Tables, upto: nat, value: nat, groups: nat)
    requires Coded(t, upto, groups) && upto <= |t.smallParseTable|
    ensures Stretch(t.smallParseTable, upto, upto, value) + Groups(t, upto, groups) == Groups(t, upto, groups)
    ensures groups == 0 ==> Groups(t, upto, groups) == []
    ensures groups > 0 ==>
      var data := t.smallParseTable;
      var end := upto + 2 + data[upto + 1];
      Groups(t, upto, groups) == Stretch(data, upto + 2, end, data[upto]) + Groups(t, end, groups - 1)
  {
    assert Stretch(t.smallParseTable, upto, upto, value) == [];
  }

  lemma {:induction false} RowStep(t: Tables, base: nat, symbol: nat)
    requires base + t.symbolCount <= |t.parseTable|
    ensures symbol >= t.symbolCount ==> Row(t, base, symbol) == []
    ensures symbol < t.symbolCount && t.parseTable[base + symbol] == 0 ==> Row(t, base, symbol) == Row(t, base, symbol + 1)
    ensures symbol < t.symbolCount && t.parseTable[base + symbol] != 0 ==>
      Row(t, base, symbol) == [Entry(symbol, t.parseTable[base + symbol])] + Row(t, base, symbol + 1)
  {
  }

  lemma CodedStep(t: Tables, pos: nat, groups: nat)
    requires Coded(t, pos, groups) && groups > 0
    ensures var data := t.smallParseTable;
      && pos + 2 <= |data| && data[pos + 1] > 0
      && var end := pos + 2 + data[pos + 1];
      && end <= |data| && Coded(t, end, groups - 1)
      && forall k :: pos + 2 <= k < end ==> (data[k] < t.tokenCount <==> data[pos + 2] < t.tokenCount)
  {
  }

  /** The next group's first symbol, and what is left behind it. */
  lemma GroupEntered(t: Tables, upto: nat, value: nat, groups: nat)
    requires Coded(t, upto, groups) && groups > 0 && upto <= |t.smallParseTable|
    ensures var data := t.smallParseTable;
      && upto + 2 <= |data| && data[upto + 1] > 0
      && var first, end := upto + 2, upto + 2 + data[upto + 1];
      && first < end <= |data| && Coded(t, end, groups - 1)
      && (forall k :: first <= k < end ==> (data[k] < t.tokenCount <==> data[first] < t.tokenCount))
      && var rest := Stretch(data, upto, upto, value) + Groups(t, upto, groups);
      rest != [] && rest[0] == Entry(data[first], data[upto])
      && rest[1..] == Stretch(data, first + 1, end, data[upto]) + Groups(t, end, groups - 1)
  {
    hide Stretch, Groups, Coded;
    CodedStep(t, upto, groups);
    GroupNext(t, upto, value, groups);
    var data := t.smallParseTable;
    var end := upto + 2 + data[upto + 1];
    StretchFirst(t, upto + 2, end, data[upto], Groups(t, end, groups - 1));
  }

  datatype Phase = Unstarted | Positioned | Done

  class LookaheadIterator {
    const tables: Tables
    const isSmallState: bool
    var pos: nat
    var groupEndPos: nat
    var tableValue: nat
    var groupCount: nat
    var phase: Phase
    var symbol: nat
    var nextState: nat
    var actionCount: nat

    ghost predicate Valid()
      reads this
    {
      if phase == Done then true
      else if isSmallState then
        && pos < groupEndPos <= |tables.smallParseTable| && Coded(tables, groupEndPos, groupCount)
        && (phase == Unstarted ==> pos + 1 == groupEndPos)
        && (phase == Positioned ==> Classified(symbol) && SameKind())
      else
        && pos + tables.symbolCount <= |tables.parseTable|
        && (phase == Positioned ==> symbol < tables.symbolCount)
    }

    /** The rest of the current group is terminals exactly if its first symbol was one. */
    ghost predicate SameKind()
      reads this
      requires groupEndPos <= |tables.smallParseTable|
    {
      forall k :: pos <= k < groupEndPos ==> (tables.smallParseTable[k] < tables.tokenCount <==> symbol < tables.tokenCount)
    }

    /** The entries still to come. */
    ghost function Rest(): seq<Entry>
      reads this
      requires Valid()
    {
      if phase == Done then []
      else if isSmallState then
        Stretch(tables.smallParseTable, pos + 1, groupEndPos, tableValue) + Groups(tables, groupEndPos, groupCount)
      else Row(tables, pos, if phase == Unstarted then 0 else symbol + 1)
    }

    /** What a caller reads beside the symbol: the number of actions of a terminal, the next state of
        a non-terminal. */
    ghost predicate Classified(s: nat)
      reads `tableValue, `actionCount, `nextState
    {
      if s < tables.tokenCount then actionCount == tables.actionCount(tableValue) && nextState == 0
      else actionCount == 0 && nextState == tableValue
    }

    constructor (t: Tables, state: nat)
      requires HasState(t, state)
      ensures Valid() && Rest() == Entries(t, state) && tables == t
    {
      tables, isSmallState := t, state >= t.largeStateCount;
      phase, symbol := Unstarted, 0xFFFF;
      nextState, actionCount, tableValue := 0, 0, 0;
      if state >= t.largeStateCount {
        var index := t.smallParseTableMap[state - t.largeStateCount];
        pos, groupEndPos, groupCount := index, index + 1, t.smallParseTable[index];
      } else {
        pos, groupEndPos, groupCount := state * t.symbolCount, 0, 0;
      }
      new;
      if state >= t.largeStateCount {
        assert Stretch(tables.smallParseTable, pos + 1, groupEndPos, tableValue) == [];
        assert [] + Groups(tables, groupEndPos, groupCount) == Groups(tables, groupEndPos, groupCount);
      } else {
        RowFits(t, state);
      }
    }

    /** next: moves to the next entry, if there is one. */
    method Next() returns (found: bool)
      requires Valid()
      modifies this
      ensures Valid() && found == (old(Rest()) != [])
      ensures found ==> Entry(symbol, tableValue) == old(Rest())[0] && Rest() == old(Rest())[1..] && Classified(symbol)
      ensures !found ==> Rest() == []
    {
      if phase == Done { return false; }
      if isSmallState {
        found := NextSmall();
      } else {
        found := NextDense();
      }
    }

    method NextSmall() returns (found: bool)
      requires Valid() && isSmallState && phase != Done
      modifies this
      ensures Valid() && found == (old(Rest()) != [])
      ensures found ==> Entry(symbol, tableValue) == old(Rest())[0] && Rest() == old(Rest())[1..] && Classified(symbol)
      ensures !found ==> Rest() == []
    {
      hide Stretch, Groups, Coded, Classified, SameKind;
      if pos + 1 == groupEndPos {
        GroupNext(tables, groupEndPos, tableValue, groupCount);
        if groupCount == 0 {
          pos, phase := pos + 1, Done;
          return false;
        }
        EnterGroup();
      } else {
        StepInGroup();
      }
      return true;
    }

    /** The first symbol of the next group, with the group's value and class. */
    method EnterGroup()
      requires Valid() && isSmallState && phase != Done && pos + 1 == groupEndPos && groupCount > 0
      modifies this
      ensures Valid() && Classified(symbol) && old(Rest()) != []
      ensures Entry(symbol, tableValue) == old(Rest())[0] && Rest() == old(Rest())[1..]
    {
      hide Stretch, Groups, Coded, Classified;
      GroupEntered(tables, groupEndPos, tableValue, groupCount);
      var data := tables.smallParseTable;
      var at := pos + 3;
      tableValue, symbol := data[pos + 1], data[at];
      Classify();
      pos, groupEndPos, groupCount, phase := at, at + data[pos + 2], groupCount - 1, Positioned;
    }

    /** The next symbol of the group at hand; its class is the first symbol's. */
    method StepInGroup()
      requires Valid() && isSmallState && phase == Positioned && pos + 1 < groupEndPos
      modifies this
      ensures Valid() && Classified(symbol) && old(Rest()) != []
      ensures Entry(symbol, tableValue) == old(Rest())[0] && Rest() == old(Rest())[1..]
    {
      hide Stretch, Groups, Coded;
      StretchFirst(tables, pos + 1, groupEndPos, tableValue, Groups(tables, groupEndPos, groupCount));
      pos := pos + 1;
      symbol := tables.smallParseTable[pos];
    }

    method NextDense() returns (found: bool)
      requires Valid() && !isSmallState && phase != Done
      modifies this
      ensures Valid() && found == (old(Rest()) != [])
      ensures found ==> Entry(symbol, tableValue) == old(Rest())[0] && Rest() == old(Rest())[1..] && Classified(symbol)
      ensures !found ==> Rest() == []
    {
      hide Row;
      ghost var rest := Rest();
      var rowBase: nat, s: nat := pos, 0;
      if phase != Unstarted { s := symbol + 1; }
      while s < tables.symbolCount && tables.parseTable[rowBase + s] == 0
        invariant Row(tables, rowBase, s) == rest
        modifies {}
        decreases tables.symbolCount - s
      {
        RowStep(tables, rowBase, s);
        s := s + 1;
      }
      RowStep(tables, rowBase, s);
      if s >= tables.symbolCount {
        phase := Done;
        return false;
      }
      symbol, tableValue, phase := s, tables.parseTable[rowBase + s], Positioned;
      Classify();
      return true;
    }

    method Classify()
      modifies this`actionCount, this`nextState
      ensures Classified(symbol)
    {
      if symbol < tables.tokenCount {
        actionCount, nextState := tables.actionCount(tableValue), 0;
      } else {
        actionCount, nextState := 0, tableValue;
      }
    }
  }

  // ---------------------------------------------------------------- the iterator lists the table

  lemma {:induction false} ListedValue(es: seq<Entry>, i: nat)
    requires RepeatFree(es) && i < |es|
    ensures ValueIn(es, es[i].symbol) == es[i].value
    decreases |es|
  {
    if i > 0 {
      assert es[1..][i - 1] == es[i];
      ListedValue(es[1..], i - 1);
    }
  }

  lemma {:induction false} ValueListed(es: seq<Entry>, symbol: nat)
    requires ValueIn(es, symbol) != 0
    ensures Entry(symbol, ValueIn(es, symbol)) in es
    decreases |es|
  {
    if es[0].symbol != symbol {
      ValueListed(es[1..], symbol);
    }
  }

  lemma {:induction false} GroupValues(t: Tables, pos: nat, groups: nat)
    requires Coded(t, pos, groups)
    ensures forall i :: 0 <= i < |Groups(t, pos, groups)| ==> Groups(t, pos, groups)[i].value != 0
    decreases groups
  {
    if groups > 0 {
      GroupValues(t, pos + 2 + t.smallParseTable[pos + 1], groups - 1);
    }
  }

  lemma {:induction false} RowValues(t: Tables, base: nat, from: nat)
    requires base + t.symbolCount <= |t.parseTable|
    ensures var r := Row(t, base, from);
      RepeatFree(r) && forall i :: 0 <= i < |r| ==> r[i].value != 0 && from <= r[i].symbol < t.symbolCount
    decreases t.symbolCount - from
  {
    if from < t.symbolCount {
      RowValues(t, base, from + 1);
    }
  }

  /** Listing a state's lookaheads gives each symbol with a value exactly once, with the value lookup
      gives it, and then stops. */
  method ListLookaheads(t: Tables, state: nat) returns (list: seq<Entry>)
    requires HasState(t, state) && (Small(t, state) ==> RepeatFree(Entries(t, state)))
    ensures RepeatFree(list)
    ensures forall symbol :: ValueIn(Entries(t, state), symbol) != 0 <==>
              Entry(symbol, ValueIn(Entries(t, state), symbol)) in list
    ensures forall e :: e in list ==> e.value != 0 && e.value == ValueIn(Entries(t, state), e.symbol)
  {
    hide *;
    ghost var all := Entries(t, state);
    var it := new LookaheadIterator(t, state);
    list := [];
    var more := it.Next();
    while more
      invariant fresh(it) && it.Valid()
      invariant more ==> list + [Entry(it.symbol, it.tableValue)] + it.Rest() == all
      invariant !more ==> list == all
      decreases |all| - |list|, more
    {
      list := list + [Entry(it.symbol, it.tableValue)];
      ghost var rest := it.Rest();
      more := it.Next();
      if more {
        assert rest == [rest[0]] + rest[1..];
      } else {
        assert list + [] == list;
      }
    }
    EntriesListed(t, state);
  }

  lemma EntriesListed(t: Tables, state: nat)
    requires HasState(t, state) && (Small(t, state) ==> RepeatFree(Entries(t, state)))
    ensures var es := Entries(t, state);
      && RepeatFree(es)
      && (forall symbol :: ValueIn(es, symbol) != 0 <==> Entry(symbol, ValueIn(es, symbol)) in es)
      && (forall e :: e in es ==> e.value != 0 && e.value == ValueIn(es, e.symbol))
  {
    var es := Entries(t, state);
    if Small(t, state) {
      var index := t.smallParseTableMap[state - t.largeStateCount];
      GroupValues(t, index + 1, t.smallParseTable[index]);
    } else {
      RowFits(t, state);
      RowValues(t, state * t.symbolCount, 0);
    }
    hide ValueIn, Entries;
    forall e | e in es ensures e.value != 0 && e.value == ValueIn(es, e.symbol) {
      var i :| 0 <= i < |es| && es[i] == e;
      ListedValue(es, i);
    }
    forall symbol ensures ValueIn(es, symbol) != 0 <==> Entry(symbol, ValueIn(es, symbol)) in es {
      if ValueIn(es, symbol) != 0 { ValueListed(es, symbol); }
    }
  }
}
