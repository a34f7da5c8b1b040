/** Splitting a group by colour: what every rank holds, sends and computes.

  The ranks sort their (colour, key, rank) items across the group, compare colours with
  their neighbours to find the borders between the new groups, count positions with a
  segmented scan in both directions, and sort the results back to the ranks that
  contributed the items.  A colour is a string; an integer colour is the string of length
  one that holds it. */
module SplitModel {
  import opened Confluence
  import opened AsyncNet
  import opened Rounds
  import opened Groups
  import opened Bitonic
  import opened Lex
  import opened GroupSort
  import C = Collectives

  /** What a rank contributes: its colour and key, its rank in the parent, its endpoint name. */
  datatype Item = Item(color: CString, key: int, rank: nat, name: CString)

  /** A message of the segmented scan: number of groups begun, whether to stop counting, and
      the number of ranks counted. */
  datatype Scan = Scan(color: int, flag: int, count: int)

  /** The result for one item, on its way back to the rank that contributed it. */
  datatype Chain = Chain(src: nat, rank: int, size: int, id: int, count: int, left: CString, right: CString)

  /** The buffers of one rank: its item, its result, its right-going and left-going data, and the
      string lengths that size the others. */
  datatype Holder = Holder(item: Item, chain: Chain, right: Scan, left: Scan, lengths: C.Vec)

  datatype Msg = ItemMsg(item: Item) | ScanMsg(scan: Scan) | ChainMsg(chain: Chain) | LengthMsg(lengths: C.Vec)

  const NO_ITEM := Item([], 0, 0, [])
  const NO_SCAN := Scan(0, 0, 0)
  const NO_CHAIN := Chain(0, 0, 0, 0, 0, [], [])

  function ItemOf(m: Msg): Item { if m.ItemMsg? then m.item else NO_ITEM }

  function ScanOf(m: Msg): Scan { if m.ScanMsg? then m.scan else NO_SCAN }

  function ChainOf(m: Msg): Chain { if m.ChainMsg? then m.chain else NO_CHAIN }

  function LengthsOf(m: Msg): C.Vec { if m.LengthMsg? then m.lengths else [] }

  // ----- the sizes of the buffers -----

  function SendLengths(v: Holder): Msg { LengthMsg(v.lengths) }

  function MergeLengths(v: Holder, l: Option<Msg>, r: Option<Msg>): Holder {
    v.(lengths := C.MergeMax(v.lengths,
         if l.Some? then Some(LengthsOf(l.value)) else None, if r.Some? then Some(LengthsOf(r.value)) else None))
  }

  /** The longest strings of all ranks are determined first. */
  function LengthKind(): Kind<Holder, Msg> { Kind(true, SendLengths, SendLengths, MergeLengths) }

  // ----- comparisons -----

  function CmpInt(a: int, b: int): int {
    if a != b then (if a > b then 1 else -1) else 0
  }

  /** By colour, then key, then rank. */
  function CmpItem(a: Item, b: Item): int {
    if LexCmp(a.color, b.color) != 0 then LexCmp(a.color, b.color)
    else if a.key != b.key then CmpInt(a.key, b.key)
    else CmpInt(a.rank, b.rank)
  }

  /** By the rank to return to. */
  function CmpSrc(a: Chain, b: Chain): int {
    CmpInt(a.src, b.src)
  }

  // ----- sorting items, and sorting results back -----

  function GetItem(v: Holder): Item { v.item }

  function PutItem(v: Holder, t: Item): Holder { v.(item := t) }

  function SendItem(v: Holder): Msg { ItemMsg(v.item) }

  function ItemLens(): Lens<Holder, Item, Msg> { Lens(GetItem, PutItem, SendItem, ItemOf) }

  function GetChain(v: Holder): Chain { v.chain }

  function PutChain(v: Holder, t: Chain): Holder { v.(chain := t) }

  function SendChain(v: Holder): Msg { ChainMsg(v.chain) }

  function ChainLens(): Lens<Holder, Chain, Msg> { Lens(GetChain, PutChain, SendChain, ChainOf) }

  // ----- borders between groups -----

  function BorderFlag(border: bool): Scan {
    if border then Scan(1, 1, 1) else Scan(0, 0, 1)
  }

  /** A rank without a neighbour of the same colour on its left begins a group, one without
      such a neighbour on its right ends one.  The neighbours' names are kept in the result. */
  function FindBorders(v: Holder, l: Option<Msg>, r: Option<Msg>): Holder {
    var first := l.None? || LexCmp(ItemOf(l.value).color, v.item.color) != 0;
    var last := r.None? || LexCmp(ItemOf(r.value).color, v.item.color) != 0;
    v.(chain := v.chain.(
         src := v.item.rank,
         left := if l.Some? then ItemOf(l.value).name else v.chain.left,
         right := if r.Some? then ItemOf(r.value).name else v.chain.right),
       right := BorderFlag(first),
       left := BorderFlag(last))
  }

  function BorderKind(): Kind<Holder, Msg> { Kind(true, SendItem, SendItem, FindBorders) }

  // ----- the segmented scan -----

  /** Add what comes from farther away, unless a border has been passed. */
  function Comb(far: Scan, near: Scan): Scan {
    Scan(near.color + far.color,
      if near.flag != 1 then far.flag else near.flag,
      if near.flag != 1 then near.count + far.count else near.count)
  }

  function SendRightScan(v: Holder): Msg { ScanMsg(v.right) }

  function SendLeftScan(v: Holder): Msg { ScanMsg(v.left) }

  function MergeScan(v: Holder, l: Option<Msg>, r: Option<Msg>): Holder {
    v.(right := if l.Some? then Comb(ScanOf(l.value), v.right) else v.right,
       left := if r.Some? then Comb(ScanOf(r.value), v.left) else v.left)
  }

  function ScanKind(): Kind<Holder, Msg> { Kind(true, SendLeftScan, SendRightScan, MergeScan) }

  /** Position and size in the new group, number of the group and number of groups. */
  function Finish(v: Holder): Holder {
    v.(chain := v.chain.(
         rank := v.right.count - 1,
         size := v.right.count + v.left.count - 1,
         id := v.right.color - 1,
         count := v.right.color + v.left.color - 1))
  }

  // ----- the whole split -----

  function SplitMiddle(id: nat, member: seq<nat>): (rounds: seq<Round<Holder, Msg>>)
    ensures forall k :: 0 <= k < |rounds| ==> rounds[k].member == member
  {
    [HopRound(member, id, BorderKind(), 0)] + HopRounds(member, id, ScanKind(), 0) + [Local(member, Finish)]
  }

  function SplitRounds(id: nat, member: seq<nat>): seq<Round<Holder, Msg>> {
    HopRounds(member, id, LengthKind(), 0)
    + SortRounds(ItemLens(), CmpItem, id, member, true)
    + SplitMiddle(id, member)
    + SortRounds(ChainLens(), CmpSrc, id, member, true)
  }

  /** What the caller of the split gets: size, rank and the names of the neighbours in the new
      group, from which that group is built. */
  datatype NewGroup = NewGroup(size: int, rank: int, left: Option<CString>, right: Option<CString>)

  function Outcome(v: Holder): NewGroup {
    NewGroup(v.chain.size, v.chain.rank,
      if v.chain.rank > 0 then Some(v.chain.left) else None,
      if v.chain.rank < v.chain.size - 1 then Some(v.chain.right) else None)
  }

  /** The communication code of one rank in a split. */
  method SplitCode(g: Lwgrp) returns (code: seq<Instr<Holder, Msg>>)
    requires g.Valid()
    ensures code == Program(SplitRounds(g.id, g.peers), g.peers[g.rank], false)
  {
    hide Program, SortRounds, HopRounds;
    assert Part(g, 0, g.Size()) == g.peers;
    ghost var me := g.peers[g.rank];
    var lengths := HopCode(g, LengthKind(), false);
    var items := SortCode(ItemLens(), CmpItem, g, 0, g.Size(), true);
    var borders := RoundCode(g, BorderKind(), 0, 1);
    var scan := HopCode(g, ScanKind(), false);
    var finish := [MergeInstr(Local(g.peers, Finish), g.rank)];
    var back := SortCode(ChainLens(), CmpSrc, g, 0, g.Size(), true);
    code := lengths + items + borders + scan + finish + back;
    MiddleProgram(g);
    ghost var a, b := HopRounds(g.peers, g.id, LengthKind(), 0), SortRounds(ItemLens(), CmpItem, g.id, g.peers, true);
    ghost var c, d := SplitMiddle(g.id, g.peers), SortRounds(ChainLens(), CmpSrc, g.id, g.peers, true);
    ProgramAppend(a, b, me, false);
    ProgramAppend(a + b, c, me, false);
    ProgramAppend(a + b + c, d, me, false);
    assert code == lengths + items + (borders + scan + finish) + back;
  }

  lemma MiddleProgram(g: Lwgrp)
    requires g.Valid()
    ensures Program(SplitMiddle(g.id, g.peers), g.peers[g.rank], false) ==
            CodeAt(HopRound(g.peers, g.id, BorderKind(), 0), g.rank)
            + Program(HopRounds(g.peers, g.id, ScanKind(), 0), g.peers[g.rank], false)
            + [MergeInstr(Local(g.peers, Finish), g.rank)]
  {
    hide CodeAt, HopRounds;
    var me := g.peers[g.rank];
    var border, finish := HopRound(g.peers, g.id, BorderKind(), 0), Local(g.peers, Finish);
    PosUnique(g.peers, g.rank);
    ProgramAppend([border] + HopRounds(g.peers, g.id, ScanKind(), 0), [finish], me, false);
    ProgramAppend([border], HopRounds(g.peers, g.id, ScanKind(), 0), me, false);
    OneProgram(border, me);
    OneProgram(finish, me);
    LocalCode(finish, g.rank);
  }

  lemma LocalCode<V, M>(rd: Round<V, M>, i: nat)
    requires rd.Local? && i < |rd.member|
    ensures CodeAt(rd, i) == [MergeInstr(rd, i)]
  {
  }
}
