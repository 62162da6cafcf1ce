/**
 Planning reads where some registers are optional (models.py): optional registers join a
 required read that fetches their words anyway, and never change which words are fetched.
 */
module BlockPlan {
  import opened Base
  import opened ReadPlan

  function Select(registers: seq<Register>, optional: bool): seq<Register> {
    if registers == [] then []
    else if registers[0].optional == optional then [registers[0]] + Select(registers[1..], optional)
    else Select(registers[1..], optional)
  }

  lemma {:induction false} Selected(registers: seq<Register>, optional: bool)
    ensures forall x :: x in Select(registers, optional) <==> x in registers && x.optional == optional
  {
    if registers != [] {
      Selected(registers[1..], optional);
      assert registers == [registers[0]] + registers[1..];
    }
  }

  /** Whether the block already fetches every word of the register. */
  predicate Contains(block: Block, register: Register)
    requires block.registers != []
  {
    block.Start() <= register.address && register.End() <= block.Start() + block.Count()
  }

  predicate NoneEmpty(blocks: seq<Block>) {
    forall b :: b in blocks ==> b.registers != []
  }

  /** The first block, from index i on, that already fetches the register. */
  function HomeFrom(blocks: seq<Block>, register: Register, i: nat): (home: Option<nat>)
    requires i <= |blocks| && NoneEmpty(blocks)
    ensures home.Some? ==> i <= home.value < |blocks| && Contains(blocks[home.value], register)
    ensures forall k :: i <= k < (if home.Some? then home.value else |blocks|) ==> !Contains(blocks[k], register)
    decreases |blocks| - i
  {
    if i == |blocks| then None
    else if Contains(blocks[i], register) then Some(i)
    else HomeFrom(blocks, register, i + 1)
  }

  function Home(blocks: seq<Block>, register: Register): Option<nat>
    requires NoneEmpty(blocks)
  {
    HomeFrom(blocks, register, 0)
  }

  datatype Placing = Placing(joined: seq<seq<Register>>, apart: seq<Register>)

  /** Puts each optional register into its home, or apart where it has none. */
  function Place(blocks: seq<Block>, p: Placing, optional: seq<Register>): (r: Placing)
    requires NoneEmpty(blocks) && |p.joined| == |blocks|
    ensures |r.joined| == |blocks|
    decreases |optional|
  {
    if optional == [] then p
    else Place(blocks, PlaceOne(blocks, p, optional[0]), optional[1..])
  }

  function PlaceOne(blocks: seq<Block>, p: Placing, register: Register): (r: Placing)
    requires NoneEmpty(blocks) && |p.joined| == |blocks|
    ensures |r.joined| == |blocks|
  {
    match Home(blocks, register)
    case None => p.(apart := p.apart + [register])
    case Some(home) => p.(joined := p.joined[home := p.joined[home] + [register]])
  }

  function SortedBlocks(joined: seq<seq<Register>>): (r: seq<Block>)
    ensures |r| == |joined|
    ensures forall i :: 0 <= i < |r| ==> r[i].registers == SortByAddress(joined[i])
  {
    if joined == [] then [] else [Block(SortByAddress(joined[0]))] + SortedBlocks(joined[1..])
  }

  /** The required reads with the optional registers they already fetch. */
  function Placed(registers: seq<Register>, avoid: set<int>, maxGap: nat): (r: Placing)
    ensures |r.joined| == |GroupOf(Select(registers, false), avoid, maxGap)|
  {
    var blocks := GroupOf(Select(registers, false), avoid, maxGap);
    GroupReadsOk(Select(registers, false), avoid, maxGap);
    Place(blocks, Placing(Contents(blocks), []), Select(registers, true))
  }

  function PlanOf(registers: seq<Register>, avoid: set<int>, maxGap: nat, isolateOptional: bool): seq<Block> {
    var required := Select(registers, false);
    var optional := Select(registers, true);
    if optional == [] || required == [] then GroupOf(registers, avoid, maxGap)
    else if isolateOptional then GroupOf(required, avoid, maxGap) + GroupOf(optional, avoid, maxGap)
    else
      var placed := Placed(registers, avoid, maxGap);
      SortedBlocks(placed.joined) + GroupOf(placed.apart, avoid, maxGap)
  }

  method PlanBlocks(registers: seq<Register>, avoid: set<int>, maxGap: nat, isolateOptional: bool)
    returns (blocks: seq<Block>)
    ensures blocks == PlanOf(registers, avoid, maxGap, isolateOptional)
    ensures forall b :: b in blocks ==> b.registers != [] && b.Count() <= MAX_REGISTERS_PER_READ
  {
    PlanReadsOk(registers, avoid, maxGap, isolateOptional);
    var required := Select(registers, false);
    var optional := Select(registers, true);
    if optional == [] || required == [] {
      blocks := Group(registers, avoid, maxGap);
      return;
    }
    var requiredBlocks := Group(required, avoid, maxGap);
    if isolateOptional {
      var alone := Group(optional, avoid, maxGap);
      return requiredBlocks + alone;
    }
    var joined := Contents(requiredBlocks);
    var apart: seq<Register> := [];
    for i := 0 to |optional|
      invariant |joined| == |requiredBlocks|
      invariant Place(requiredBlocks, Placing(joined, apart), optional[i..]) == Placed(registers, avoid, maxGap)
    {
      var register := optional[i];
      assert optional[i..][0] == register && optional[i..][1..] == optional[i + 1..];
      var home := Home(requiredBlocks, register);
      if home.None? {
        apart := apart + [register];
      } else {
        joined := joined[home.value := joined[home.value] + [register]];
      }
    }
    assert optional[|optional|..] == [];
    var others := Group(apart, avoid, maxGap);
    blocks := SortedBlocks(joined) + others;
  }

  lemma {:induction false} SelectSplits(registers: seq<Register>)
    ensures multiset(registers) == multiset(Select(registers, false)) + multiset(Select(registers, true))
  {
    if registers != [] {
      SelectSplits(registers[1..]);
      assert registers == [registers[0]] + registers[1..];
    }
  }

  function Concat(rows: seq<seq<Register>>): seq<Register> {
    if rows == [] then [] else rows[0] + Concat(rows[1..])
  }

  lemma {:induction false} ConcatUpdate(rows: seq<seq<Register>>, i: nat, r: Register)
    requires i < |rows|
    ensures multiset(Concat(rows[i := rows[i] + [r]])) == multiset(Concat(rows)) + multiset{r}
  {
    var rows' := rows[i := rows[i] + [r]];
    if i == 0 {
      assert rows'[1..] == rows[1..];
    } else {
      ConcatUpdate(rows[1..], i - 1, r);
      assert rows'[1..] == rows[1..][i - 1 := rows[1..][i - 1] + [r]];
    }
  }

  lemma {:induction false} ContentsConcat(blocks: seq<Block>)
    ensures Concat(Contents(blocks)) == Flatten(blocks)
  {
    if blocks != [] {
      ContentsConcat(blocks[1..]);
      assert Contents(blocks)[1..] == Contents(blocks[1..]);
    }
  }

  lemma {:induction false} SortedBlocksKeep(rows: seq<seq<Register>>)
    ensures multiset(Flatten(SortedBlocks(rows))) == multiset(Concat(rows))
  {
    if rows != [] {
      SortKeeps(rows[0]);
      SortedBlocksKeep(rows[1..]);
      assert SortedBlocks(rows)[1..] == SortedBlocks(rows[1..]);
    }
  }

  lemma PlaceOneKeeps(blocks: seq<Block>, p: Placing, r: Register)
    requires NoneEmpty(blocks) && |p.joined| == |blocks|
    ensures var q := PlaceOne(blocks, p, r);
            multiset(Concat(q.joined)) + multiset(q.apart)
            == multiset(Concat(p.joined)) + multiset(p.apart) + multiset{r}
  {
    var home := Home(blocks, r);
    if home.Some? {
      ConcatUpdate(p.joined, home.value, r);
    }
  }

  lemma {:induction false} PlaceKeeps(blocks: seq<Block>, p: Placing, optional: seq<Register>)
    requires NoneEmpty(blocks) && |p.joined| == |blocks|
    ensures var r := Place(blocks, p, optional);
            multiset(Concat(r.joined)) + multiset(r.apart)
            == multiset(Concat(p.joined)) + multiset(p.apart) + multiset(optional)
    decreases |optional|
  {
    if optional != [] {
      PlaceOneKeeps(blocks, p, optional[0]);
      PlaceKeeps(blocks, PlaceOne(blocks, p, optional[0]), optional[1..]);
      assert optional == [optional[0]] + optional[1..];
    }
  }

  lemma GroupKeeps(registers: seq<Register>, avoid: set<int>, maxGap: nat)
    ensures multiset(Flatten(GroupOf(registers, avoid, maxGap))) == multiset(registers)
  {
    GroupReadsOk(registers, avoid, maxGap);
    SortKeeps(registers);
  }

  lemma PlacedKeeps(registers: seq<Register>, avoid: set<int>, maxGap: nat)
    ensures var placed := Placed(registers, avoid, maxGap);
            multiset(Concat(placed.joined)) + multiset(placed.apart)
            == multiset(Select(registers, false)) + multiset(Select(registers, true))
  {
    var required := Select(registers, false);
    var blocks := GroupOf(required, avoid, maxGap);
    GroupReadsShort(required, avoid, maxGap);
    GroupKeeps(required, avoid, maxGap);
    ContentsConcat(blocks);
    PlaceKeeps(blocks, Placing(Contents(blocks), []), Select(registers, true));
  }

  /** The plan reads every register in exactly one block, as often as it was asked for. */
  lemma PlanKeepsRegisters(registers: seq<Register>, avoid: set<int>, maxGap: nat, isolateOptional: bool)
    ensures multiset(Flatten(PlanOf(registers, avoid, maxGap, isolateOptional))) == multiset(registers)
  {
    var required := Select(registers, false);
    var optional := Select(registers, true);
    SelectSplits(registers);
    if optional == [] || required == [] {
      GroupKeeps(registers, avoid, maxGap);
    } else if isolateOptional {
      GroupKeeps(required, avoid, maxGap);
      GroupKeeps(optional, avoid, maxGap);
      FlattenConcat(GroupOf(required, avoid, maxGap), GroupOf(optional, avoid, maxGap));
    } else {
      var placed := Placed(registers, avoid, maxGap);
      PlacedKeeps(registers, avoid, maxGap);
      SortedBlocksKeep(placed.joined);
      GroupKeeps(placed.apart, avoid, maxGap);
      FlattenConcat(SortedBlocks(placed.joined), GroupOf(placed.apart, avoid, maxGap));
    }
  }

  /** A row holds its block's registers and otherwise only optional ones it fetches anyway. */
  ghost predicate RowOf(block: Block, row: seq<Register>)
    requires block.registers != []
  {
    && (forall r :: r in block.registers ==> r in row)
    && (forall r :: r in row ==> r in block.registers || (r.optional && Contains(block, r)))
  }

  lemma {:induction false} PlaceRows(blocks: seq<Block>, p: Placing, optional: seq<Register>)
    requires NoneEmpty(blocks) && |p.joined| == |blocks|
    requires forall i :: 0 <= i < |blocks| ==> RowOf(blocks[i], p.joined[i])
    requires forall r :: r in optional ==> r.optional
    ensures forall i :: 0 <= i < |blocks| ==> RowOf(blocks[i], Place(blocks, p, optional).joined[i])
    decreases |optional|
  {
    if optional != [] {
      var q := PlaceOne(blocks, p, optional[0]);
      assert optional[0] in optional;
      forall i | 0 <= i < |blocks|
        ensures RowOf(blocks[i], q.joined[i])
      {
        assert RowOf(blocks[i], p.joined[i]);
      }
      PlaceRows(blocks, q, optional[1..]);
    }
  }

  /** Optional registers change neither what a read covers nor where it lies. */
  lemma RowReadOk(block: Block, row: seq<Register>, avoid: set<int>, maxGap: nat)
    requires ReadOk(block.registers, avoid, maxGap) && RowOf(block, row)
    ensures ReadOk(row, avoid, maxGap)
    ensures MinAddress(row) == block.Start() && MaxEnd(row) == MaxEnd(block.registers)
  {
    MinAddressIs(block.registers);
    MaxEndIs(block.registers);
    assert block.registers[0] in row;
    MinAddressIs(row);
    MaxEndIs(row);
    forall a | Covered(block.registers, a)
      ensures Covered(row, a)
    {
      var r :| r in block.registers && r.Covers(a);
      assert r in row;
    }
    forall a | MinAddress(row) <= a && a + maxGap < MaxEnd(row)
      ensures Window(row, a, maxGap)
    {
      assert Window(block.registers, a, maxGap);
    }
  }

  lemma SortReadOk(s: seq<Register>, avoid: set<int>, maxGap: nat)
    requires ReadOk(s, avoid, maxGap)
    ensures ReadOk(SortByAddress(s), avoid, maxGap)
    ensures MinAddress(SortByAddress(s)) == MinAddress(s) && MaxEnd(SortByAddress(s)) == MaxEnd(s)
    ensures AllIn(s, SortByAddress(s))
  {
    var t := SortByAddress(s);
    SortIsSorted(s);
    assert s[0] in t;
    MinAddressIs(s);
    MaxEndIs(s);
    MinAddressIs(t);
    MaxEndIs(t);
    assert forall a :: Covered(s, a) <==> Covered(t, a);
    forall a | MinAddress(t) <= a && a + maxGap < MaxEnd(t)
      ensures Window(t, a, maxGap)
    {
      assert Window(s, a, maxGap);
    }
  }

  lemma PlacedRows(registers: seq<Register>, avoid: set<int>, maxGap: nat)
    ensures var blocks := GroupOf(Select(registers, false), avoid, maxGap);
            && NoneEmpty(blocks)
            && forall k :: 0 <= k < |blocks| ==> RowOf(blocks[k], Placed(registers, avoid, maxGap).joined[k])
  {
    var blocks := GroupOf(Select(registers, false), avoid, maxGap);
    GroupReadsShort(Select(registers, false), avoid, maxGap);
    forall k | 0 <= k < |blocks|
      ensures RowOf(blocks[k], Contents(blocks)[k])
    {
    }
    Selected(registers, true);
    PlaceRows(blocks, Placing(Contents(blocks), []), Select(registers, true));
  }

  lemma PlannedAt(registers: seq<Register>, avoid: set<int>, maxGap: nat, i: nat)
    requires i < |GroupOf(Select(registers, false), avoid, maxGap)| && Select(registers, true) != []
    ensures var planned := PlanOf(registers, avoid, maxGap, false);
            i < |planned| && planned[i] == Block(SortByAddress(Placed(registers, avoid, maxGap).joined[i]))
  {
  }

  /** Each required read keeps its place and length when optional registers join it, and
      stays legal. */
  lemma PlanKeepsRequiredReads(registers: seq<Register>, avoid: set<int>, maxGap: nat, i: nat)
    requires i < |GroupOf(Select(registers, false), avoid, maxGap)| && Select(registers, true) != []
    ensures var planned := PlanOf(registers, avoid, maxGap, false);
            var required := GroupOf(Select(registers, false), avoid, maxGap)[i];
            && i < |planned|
            && ReadOk(planned[i].registers, avoid, maxGap)
            && required.registers != []
            && planned[i].Start() == required.Start()
            && planned[i].Count() == required.Count()
            && forall r :: r in required.registers ==> r in planned[i].registers
  {
    var block := GroupOf(Select(registers, false), avoid, maxGap)[i];
    var row := Placed(registers, avoid, maxGap).joined[i];
    GroupReadsOk(Select(registers, false), avoid, maxGap);
    PlacedRows(registers, avoid, maxGap);
    PlannedAt(registers, avoid, maxGap, i);
    RowStaysInPlace(block, row, avoid, maxGap);
  }

  lemma RowStaysInPlace(block: Block, row: seq<Register>, avoid: set<int>, maxGap: nat)
    requires ReadOk(block.registers, avoid, maxGap) && RowOf(block, row)
    ensures var planned := Block(SortByAddress(row));
            && ReadOk(planned.registers, avoid, maxGap)
            && planned.Start() == block.Start() && planned.Count() == block.Count()
            && AllIn(block.registers, planned.registers)
  {
    RowReadOk(block, row, avoid, maxGap);
    SortReadOk(row, avoid, maxGap);
  }

  /** A read of registers of one kind: either none of them is optional or all are. */
  ghost predicate OneKind(b: Block) {
    (forall r :: r in b.registers ==> !r.optional) || (forall r :: r in b.registers ==> r.optional)
  }

  lemma {:induction false} FlattenHolds(blocks: seq<Block>)
    ensures forall b, r :: b in blocks && r in b.registers ==> r in Flatten(blocks)
  {
    if blocks != [] {
      FlattenHolds(blocks[1..]);
      assert blocks == [blocks[0]] + blocks[1..];
    }
  }

  lemma GroupHoldsOnly(registers: seq<Register>, avoid: set<int>, maxGap: nat)
    ensures forall b, r :: b in GroupOf(registers, avoid, maxGap) && r in b.registers ==> r in registers
  {
    GroupReadsOk(registers, avoid, maxGap);
    SortIsSorted(registers);
    FlattenHolds(GroupOf(registers, avoid, maxGap));
  }

  /** Isolated, optional registers share no read with required ones, whose reads are those of
      a plan for them alone. */
  lemma IsolatedReadsAreOfOneKind(registers: seq<Register>, avoid: set<int>, maxGap: nat)
    ensures forall b :: b in PlanOf(registers, avoid, maxGap, true) ==> OneKind(b)
    ensures Select(registers, false) != [] && Select(registers, true) != [] ==>
              var alone := PlanOf(Select(registers, false), avoid, maxGap, true);
              var planned := PlanOf(registers, avoid, maxGap, true);
              && |alone| <= |planned| && planned[..|alone|] == alone
              && forall k, r :: |alone| <= k < |planned| && r in planned[k].registers ==> r.optional
  {
    var required, optional := Select(registers, false), Select(registers, true);
    GroupHoldsOnly(required, avoid, maxGap);
    GroupHoldsOnly(optional, avoid, maxGap);
    Selected(registers, false);
    Selected(registers, true);
    if optional == [] || required == [] {
      GroupHoldsOnly(registers, avoid, maxGap);
      SelectedIsAll(registers);
    } else {
      SelectedTwice(registers);
      IsolatedParts(registers, avoid, maxGap);
    }
  }

  /** With one kind only, the selection of it is all there is. */
  lemma SelectedIsAll(registers: seq<Register>)
    ensures Select(registers, true) == [] ==> forall r :: r in registers ==> !r.optional
    ensures Select(registers, false) == [] ==> forall r :: r in registers ==> r.optional
  {
    Selected(registers, true);
    Selected(registers, false);
  }

  lemma {:induction false} SelectedTwice(registers: seq<Register>)
    ensures Select(Select(registers, false), true) == []
  {
    if registers != [] {
      SelectedTwice(registers[1..]);
      if !registers[0].optional {
        var rest := Select(registers[1..], false);
        assert ([registers[0]] + rest)[1..] == rest;
      }
    }
  }

  lemma IsolatedParts(registers: seq<Register>, avoid: set<int>, maxGap: nat)
    requires Select(registers, false) != [] && Select(registers, true) != []
    requires Select(Select(registers, false), true) == []
    ensures PlanOf(Select(registers, false), avoid, maxGap, true) == GroupOf(Select(registers, false), avoid, maxGap)
    ensures PlanOf(registers, avoid, maxGap, true)
         == GroupOf(Select(registers, false), avoid, maxGap) + GroupOf(Select(registers, true), avoid, maxGap)
  {
  }

  /** No read of a plan is longer than one response, touches an address to avoid outside
      the registers it reads, or runs over more than maxGap unwanted words. */
  lemma PlanReadsOk(registers: seq<Register>, avoid: set<int>, maxGap: nat, isolateOptional: bool)
    ensures forall b :: b in PlanOf(registers, avoid, maxGap, isolateOptional) ==> ReadOk(b.registers, avoid, maxGap)
  {
    var required := Select(registers, false);
    var optional := Select(registers, true);
    GroupReadsOk(registers, avoid, maxGap);
    GroupReadsOk(required, avoid, maxGap);
    GroupReadsOk(optional, avoid, maxGap);
    if optional != [] && required != [] && !isolateOptional {
      var placed := Placed(registers, avoid, maxGap);
      GroupReadsOk(placed.apart, avoid, maxGap);
      var planned := PlanOf(registers, avoid, maxGap, false);
      forall i | 0 <= i < |planned|
        ensures ReadOk(planned[i].registers, avoid, maxGap)
      {
        if i < |placed.joined| {
          PlanKeepsRequiredReads(registers, avoid, maxGap, i);
        } else {
          assert planned[i] in GroupOf(placed.apart, avoid, maxGap);
        }
      }
    }
  }

  /** An optional register goes to the first required read that already fetches it, and to
      a read of its own only where none does. */
  lemma {:induction false} PlaceFindsHome(blocks: seq<Block>, p: Placing, optional: seq<Register>, r: Register)
    requires NoneEmpty(blocks) && |p.joined| == |blocks|
    ensures r in Place(blocks, p, optional).apart <==> r in p.apart || (r in optional && Home(blocks, r).None?)
    ensures forall i :: 0 <= i < |blocks| ==>
              (r in Place(blocks, p, optional).joined[i] <==>
               r in p.joined[i] || (r in optional && Home(blocks, r) == Some(i)))
    decreases |optional|
  {
    if optional != [] {
      PlaceFindsHome(blocks, PlaceOne(blocks, p, optional[0]), optional[1..], r);
      assert optional == [optional[0]] + optional[1..];
    }
  }

  lemma OptionalNeverWidens(registers: seq<Register>, avoid: set<int>, maxGap: nat, r: Register)
    requires r in registers && r.optional
    ensures var blocks := GroupOf(Select(registers, false), avoid, maxGap);
            && NoneEmpty(blocks)
            && (r in Placed(registers, avoid, maxGap).apart <==> Home(blocks, r).None?)
            && forall i :: 0 <= i < |blocks| ==>
                 (r in Placed(registers, avoid, maxGap).joined[i] <==> Home(blocks, r) == Some(i))
  {
    var required := Select(registers, false);
    var blocks := GroupOf(required, avoid, maxGap);
    GroupReadsOk(required, avoid, maxGap);
    PlaceFindsHome(blocks, Placing(Contents(blocks), []), Select(registers, true), r);
    Selected(registers, true);
    Selected(registers, false);
    SortIsSorted(required);
    ContentsAre(blocks);
    forall i | 0 <= i < |blocks|
      ensures r !in Contents(blocks)[i]
    {
      assert Contents(blocks)[i] in Contents(blocks);
    }
  }

  // ---------------------------------------------------------------------------
  // How few reads
  // ---------------------------------------------------------------------------

  /** Whether a read already fetches every word of the register. */
  predicate Houses(read: seq<Register>, register: Register) {
    read != [] && MinAddress(read) <= register.address && register.End() <= MaxEnd(read)
  }

  predicate Housed(reads_: seq<seq<Register>>, register: Register) {
    exists s :: s in reads_ && Houses(s, register)
  }

  /** The optional registers that none of the required reads fetches anyway. */
  function Homeless(optional: seq<Register>, reads_: seq<seq<Register>>): seq<Register> {
    if optional == [] then []
    else if Housed(reads_, optional[0]) then Homeless(optional[1..], reads_)
    else [optional[0]] + Homeless(optional[1..], reads_)
  }

  /** A plan by the same rule, with the required registers grouped freely: an optional
      register that a required read fetches anyway joins it, the others are apart. */
  ghost predicate Rival(forRequired: seq<seq<Register>>, forApart: seq<seq<Register>>, registers: seq<Register>,
                        avoid: set<int>, maxGap: nat) {
    && Fetches(forRequired, Select(registers, false), avoid, maxGap)
    && Fetches(forApart, Homeless(Select(registers, true), forRequired), avoid, maxGap)
  }

  /** Whether no plan by the rule needs fewer reads. */
  ghost predicate Fewest(registers: seq<Register>, avoid: set<int>, maxGap: nat) {
    forall forRequired, forApart :: Rival(forRequired, forApart, registers, avoid, maxGap) ==>
      |PlanOf(registers, avoid, maxGap, false)| <= |forRequired| + |forApart|
  }

  lemma HomeMeansHoused(blocks: seq<Block>, register: Register)
    requires NoneEmpty(blocks)
    ensures Home(blocks, register).Some? <==> Housed(Contents(blocks), register)
  {
    var home := Home(blocks, register);
    if home.Some? {
      assert Contents(blocks)[home.value] == blocks[home.value].registers;
      assert Houses(Contents(blocks)[home.value], register);
    } else {
      forall s | s in Contents(blocks)
        ensures !Houses(s, register)
      {
        var k :| 0 <= k < |blocks| && Contents(blocks)[k] == s;
        assert !Contains(blocks[k], register);
      }
    }
  }

  lemma {:induction false} ApartIsHomeless(blocks: seq<Block>, p: Placing, optional: seq<Register>)
    requires NoneEmpty(blocks) && |p.joined| == |blocks|
    ensures Place(blocks, p, optional).apart == p.apart + Homeless(optional, Contents(blocks))
    decreases |optional|
  {
    if optional == [] {
      assert p.apart + [] == p.apart;
    } else {
      var x, q := optional[0], PlaceOne(blocks, p, optional[0]);
      var rest := Homeless(optional[1..], Contents(blocks));
      HomeMeansHoused(blocks, x);
      ApartIsHomeless(blocks, q, optional[1..]);
      assert q.apart + rest == p.apart + (if Housed(Contents(blocks), x) then rest else [x] + rest);
    }
  }

  /** The plan's own reads obey the rule, and are as many as the plan has. */
  lemma PlanIsRival(registers: seq<Register>, avoid: set<int>, maxGap: nat)
    requires Select(registers, false) != [] && Select(registers, true) != []
    ensures var forRequired := Contents(GroupOf(Select(registers, false), avoid, maxGap));
            var forApart := Contents(GroupOf(Homeless(Select(registers, true), forRequired), avoid, maxGap));
            && Rival(forRequired, forApart, registers, avoid, maxGap)
            && |PlanOf(registers, avoid, maxGap, false)| == |forRequired| + |forApart|
            && Placed(registers, avoid, maxGap).apart == Homeless(Select(registers, true), forRequired)
  {
    var required, optional := Select(registers, false), Select(registers, true);
    var blocks := GroupOf(required, avoid, maxGap);
    GroupReadsOk(required, avoid, maxGap);
    ApartIsHomeless(blocks, Placing(Contents(blocks), []), optional);
    assert [] + Homeless(optional, Contents(blocks)) == Homeless(optional, Contents(blocks));
    GroupFetches(required, avoid, maxGap);
    GroupFetches(Homeless(optional, Contents(blocks)), avoid, maxGap);
  }

  /** No plan fetches the required registers in fewer reads, so a plan exceeds another by
      no more than its reads apart, and by nothing where every optional register has a
      home. */
  lemma RequiredReadsAreFewest(registers: seq<Register>, avoid: set<int>, maxGap: nat,
                               forRequired: seq<seq<Register>>, forApart: seq<seq<Register>>)
    requires Select(registers, false) != [] && Select(registers, true) != []
    requires Rival(forRequired, forApart, registers, avoid, maxGap)
    ensures |GroupOf(Select(registers, false), avoid, maxGap)| <= |forRequired|
    ensures |PlanOf(registers, avoid, maxGap, false)|
         <= |forRequired| + |forApart| + |GroupOf(Placed(registers, avoid, maxGap).apart, avoid, maxGap)|
    ensures Placed(registers, avoid, maxGap).apart == [] ==>
              |PlanOf(registers, avoid, maxGap, false)| <= |forRequired| + |forApart|
  {
    GroupIsFewest(Select(registers, false), forRequired, avoid, maxGap);
    PlanIsRival(registers, avoid, maxGap);
  }

  lemma {:induction false} SelectAll(registers: seq<Register>, optional: bool)
    requires Select(registers, !optional) == []
    ensures Select(registers, optional) == registers
  {
    if registers != [] {
      SelectAll(registers[1..], optional);
      assert registers == [registers[0]] + registers[1..];
    }
  }

  /** Where optional registers always stay apart, and where there are none or nothing else,
      no plan needs fewer reads. */
  lemma IsolatedPlanIsFewest(registers: seq<Register>, avoid: set<int>, maxGap: nat,
                             forRequired: seq<seq<Register>>, forOptional: seq<seq<Register>>)
    requires Fetches(forRequired, Select(registers, false), avoid, maxGap)
    requires Fetches(forOptional, Select(registers, true), avoid, maxGap)
    ensures |PlanOf(registers, avoid, maxGap, true)| <= |forRequired| + |forOptional|
  {
    var required, optional := Select(registers, false), Select(registers, true);
    if optional == [] {
      SelectAll(registers, false);
      GroupIsFewest(registers, forRequired, avoid, maxGap);
    } else if required == [] {
      SelectAll(registers, true);
      GroupIsFewest(registers, forOptional, avoid, maxGap);
    } else {
      GroupIsFewest(required, forRequired, avoid, maxGap);
      GroupIsFewest(optional, forOptional, avoid, maxGap);
    }
  }

  // ---------------------------------------------------------------------------
  // Exactly when a plan has the fewest reads
  // ---------------------------------------------------------------------------

  /** The registers that lie between two addresses. */
  function Between(registers: seq<Register>, lo: int, hi: int): (r: seq<Register>)
    ensures forall x :: x in r <==> x in registers && lo <= x.address && x.End() <= hi
  {
    if registers == [] then []
    else (if lo <= registers[0].address && registers[0].End() <= hi then [registers[0]] else [])
         + Between(registers[1..], lo, hi)
  }

  /** What lies from one of the registers to another. */
  predicate IsWindow(read: seq<Register>, registers: seq<Register>) {
    exists g, h :: g in registers && h in registers && read == Between(registers, g.address, h.End())
  }

  /** Whether no choice of windows on the required registers beats the greedy reads of
      these, each with what is left of the optional registers read apart. There are finitely
      many windows, and only choices of fewer reads are looked at. */
  ghost predicate NoWindowsPay(registers: seq<Register>, avoid: set<int>, maxGap: nat) {
    var required, optional := Select(registers, false), Select(registers, true);
    var greedy := Contents(GroupOf(required, avoid, maxGap));
    var fewest := |greedy| + |GroupOf(Homeless(optional, greedy), avoid, maxGap)|;
    forall windows: seq<seq<Register>> ::
      |windows| < fewest
      && (forall s :: s in windows ==> IsWindow(s, required))
      && Fetches(windows, required, avoid, maxGap) ==>
        fewest <= |windows| + |GroupOf(Homeless(optional, windows), avoid, maxGap)|
  }

  /** A legal read is no longer for holding all the registers it runs over. */
  function Filled(read: seq<Register>, registers: seq<Register>): seq<Register> {
    if read == [] then [] else Between(registers, MinAddress(read), MaxEnd(read))
  }

  lemma FilledReadOk(read: seq<Register>, registers: seq<Register>, avoid: set<int>, maxGap: nat)
    requires Legal(read, registers, avoid, maxGap)
    ensures var filled := Filled(read, registers);
            && filled != [] && ReadOk(filled, avoid, maxGap) && IsWindow(filled, registers)
            && MinAddress(filled) == MinAddress(read) && MaxEnd(filled) == MaxEnd(read)
            && AllIn(read, filled) && AllIn(filled, registers)
  {
    var filled := Filled(read, registers);
    MinAddressIs(read);
    MaxEndIs(read);
    assert forall r :: r in read ==> r in filled;
    assert read[0] in filled;
    MinAddressIs(filled);
    MaxEndIs(filled);
    assert forall a :: Covered(read, a) ==> Covered(filled, a);
    forall a | MinAddress(filled) <= a && a + maxGap < MaxEnd(filled)
      ensures Window(filled, a, maxGap)
    {
      assert Window(read, a, maxGap);
    }
  }

  function AllFilled(reads_: seq<seq<Register>>, registers: seq<Register>): seq<seq<Register>> {
    seq(|reads_|, i requires 0 <= i < |reads_| => Filled(reads_[i], registers))
  }

  lemma AllFilledFetch(reads_: seq<seq<Register>>, registers: seq<Register>, avoid: set<int>, maxGap: nat)
    requires forall s :: s in reads_ ==> Legal(s, registers, avoid, maxGap)
    ensures forall s :: s in AllFilled(reads_, registers) ==> Legal(s, registers, avoid, maxGap)
    ensures forall s :: s in reads_ ==> exists f :: f in AllFilled(reads_, registers) && AllIn(s, f)
  {
    var filled := AllFilled(reads_, registers);
    forall i | 0 <= i < |filled|
      ensures Legal(filled[i], registers, avoid, maxGap) && AllIn(reads_[i], filled[i])
    {
      assert reads_[i] in reads_;
      FilledReadOk(reads_[i], registers, avoid, maxGap);
    }
    forall s | s in reads_
      ensures exists f :: f in filled && AllIn(s, f)
    {
      var i :| 0 <= i < |reads_| && reads_[i] == s;
      assert filled[i] in filled;
    }
  }

  lemma {:induction false} SameHomes(optional: seq<Register>, a: seq<seq<Register>>, b: seq<seq<Register>>)
    requires |a| == |b|
    requires forall i :: 0 <= i < |a| ==>
               a[i] != [] && b[i] != [] && MinAddress(a[i]) == MinAddress(b[i]) && MaxEnd(a[i]) == MaxEnd(b[i])
    ensures Homeless(optional, a) == Homeless(optional, b)
  {
    if optional != [] {
      SameHomes(optional[1..], a, b);
      forall i | 0 <= i < |a|
        ensures Houses(a[i], optional[0]) == Houses(b[i], optional[0])
      {
      }
      assert forall i :: 0 <= i < |a| ==> a[i] in a && b[i] in b;
    }
  }

  /** A plan has the fewest reads exactly when no windows pay: a rival's reads can be
      taken to be windows, and the best that is left for its other registers is what the
      greedy pass makes of them. */
  lemma PlanIsFewestIff(registers: seq<Register>, avoid: set<int>, maxGap: nat)
    requires Select(registers, false) != [] && Select(registers, true) != []
    ensures Fewest(registers, avoid, maxGap) <==> NoWindowsPay(registers, avoid, maxGap)
  {
    var required, optional := Select(registers, false), Select(registers, true);
    var fewest := |PlanOf(registers, avoid, maxGap, false)|;
    PlanIsRival(registers, avoid, maxGap);
    if Fewest(registers, avoid, maxGap) {
      forall windows: seq<seq<Register>> | Fetches(windows, required, avoid, maxGap)
        ensures fewest <= |windows| + |GroupOf(Homeless(optional, windows), avoid, maxGap)|
      {
        var left := Homeless(optional, windows);
        GroupFetches(left, avoid, maxGap);
        assert Rival(windows, Contents(GroupOf(left, avoid, maxGap)), registers, avoid, maxGap);
      }
    }
    if NoWindowsPay(registers, avoid, maxGap) {
      forall forRequired, forApart | Rival(forRequired, forApart, registers, avoid, maxGap)
        ensures fewest <= |forRequired| + |forApart|
      {
        WindowsReplaceReads(registers, avoid, maxGap, forRequired, forApart);
      }
    }
  }

  lemma FilledHomes(reads_: seq<seq<Register>>, registers: seq<Register>, optional: seq<Register>, avoid: set<int>,
                    maxGap: nat)
    requires forall s :: s in reads_ ==> Legal(s, registers, avoid, maxGap)
    ensures Homeless(optional, AllFilled(reads_, registers)) == Homeless(optional, reads_)
  {
    var windows := AllFilled(reads_, registers);
    forall i | 0 <= i < |windows|
      ensures windows[i] != [] && MinAddress(windows[i]) == MinAddress(reads_[i])
              && MaxEnd(windows[i]) == MaxEnd(reads_[i])
    {
      assert reads_[i] in reads_;
      FilledReadOk(reads_[i], registers, avoid, maxGap);
    }
    SameHomes(optional, windows, reads_);
  }

  lemma FetchesIsLegal(reads_: seq<seq<Register>>, registers: seq<Register>, avoid: set<int>, maxGap: nat)
    requires Fetches(reads_, registers, avoid, maxGap)
    ensures forall s :: s in reads_ ==> Legal(s, registers, avoid, maxGap)
  {
  }

  lemma LegalFetches(reads_: seq<seq<Register>>, registers: seq<Register>, avoid: set<int>, maxGap: nat)
    requires forall s :: s in reads_ ==> Legal(s, registers, avoid, maxGap)
    requires forall r :: r in registers ==> exists s :: s in reads_ && r in s
    ensures Fetches(reads_, registers, avoid, maxGap)
  {
    forall s | s in reads_
      ensures ReadOk(s, avoid, maxGap) && forall r :: r in s ==> r in registers
    {
      assert Legal(s, registers, avoid, maxGap);
    }
  }

  lemma WindowHolds(reads_: seq<seq<Register>>, windows: seq<seq<Register>>, r: Register)
    requires forall s :: s in reads_ ==> exists f :: f in windows && AllIn(s, f)
    requires exists s :: s in reads_ && r in s
    ensures exists f :: f in windows && r in f
  {
    var s :| s in reads_ && r in s;
    var f :| f in windows && AllIn(s, f);
  }

  /** Once filled, a read may be taken for any other over the same words. */
  lemma WindowsFetch(reads_: seq<seq<Register>>, registers: seq<Register>, avoid: set<int>, maxGap: nat)
    requires Fetches(reads_, registers, avoid, maxGap)
    ensures Fetches(AllFilled(reads_, registers), registers, avoid, maxGap)
  {
    var windows := AllFilled(reads_, registers);
    FetchesIsLegal(reads_, registers, avoid, maxGap);
    AllFilledFetch(reads_, registers, avoid, maxGap);
    forall r | r in registers
      ensures exists f :: f in windows && r in f
    {
      WindowHolds(reads_, windows, r);
    }
    LegalFetches(windows, registers, avoid, maxGap);
  }

  lemma FilledAreWindows(reads_: seq<seq<Register>>, registers: seq<Register>, avoid: set<int>, maxGap: nat)
    requires forall s :: s in reads_ ==> Legal(s, registers, avoid, maxGap)
    ensures forall s :: s in AllFilled(reads_, registers) ==> IsWindow(s, registers)
  {
    forall i | 0 <= i < |reads_|
      ensures IsWindow(AllFilled(reads_, registers)[i], registers)
    {
      assert reads_[i] in reads_;
      FilledReadOk(reads_[i], registers, avoid, maxGap);
    }
  }

  lemma WindowsReplaceReads(registers: seq<Register>, avoid: set<int>, maxGap: nat,
                            forRequired: seq<seq<Register>>, forApart: seq<seq<Register>>)
    requires Select(registers, false) != [] && Select(registers, true) != []
    requires NoWindowsPay(registers, avoid, maxGap) && Rival(forRequired, forApart, registers, avoid, maxGap)
    ensures |PlanOf(registers, avoid, maxGap, false)| <= |forRequired| + |forApart|
  {
    var required, optional := Select(registers, false), Select(registers, true);
    PlanIsRival(registers, avoid, maxGap);
    WindowsFetch(forRequired, required, avoid, maxGap);
    FetchesIsLegal(forRequired, required, avoid, maxGap);
    FilledAreWindows(forRequired, required, avoid, maxGap);
    FilledHomes(forRequired, required, optional, avoid, maxGap);
    GroupIsFewest(Homeless(optional, forRequired), forApart, avoid, maxGap);
  }

  // ---------------------------------------------------------------------------
  // A plan that could do with fewer reads
  // ---------------------------------------------------------------------------

  function Word(address: int, optional: bool): Register {
    Register("", address, Uint16, optional)
  }

  const MAX_REGISTER_GAP := 48

  /** Four required words and an optional one between the last two. */
  ghost predicate Spread(a: Register, b: Register, c: Register, d: Register, o: Register) {
    && a == Word(0, false) && b == Word(49, false) && c == Word(98, false) && d == Word(126, false)
    && o == Word(110, true)
  }

  /** The greedy pass closes its first read as late as it can, which leaves the optional
      register between two reads; closing it earlier would house it. */
  lemma RegroupingSavesARead(a: Register, b: Register, c: Register, d: Register, o: Register)
    requires Spread(a, b, c, d, o)
    ensures !Fewest([a, b, c, d, o], {}, MAX_REGISTER_GAP)
  {
    PlanNeedsThree(a, b, c, d, o);
    TwoReadsDo(a, b, c, d, o);
    Beaten([a, b, c, d, o], [[a, b], [c, d]], []);
  }

  lemma Beaten(registers: seq<Register>, forRequired: seq<seq<Register>>, forApart: seq<seq<Register>>)
    requires Rival(forRequired, forApart, registers, {}, MAX_REGISTER_GAP)
    requires |forRequired| + |forApart| < |PlanOf(registers, {}, MAX_REGISTER_GAP, false)|
    ensures !Fewest(registers, {}, MAX_REGISTER_GAP)
  {
  }

  lemma TwoReadsDo(a: Register, b: Register, c: Register, d: Register, o: Register)
    requires Spread(a, b, c, d, o)
    ensures Rival([[a, b], [c, d]], [], [a, b, c, d, o], {}, MAX_REGISTER_GAP)
  {
    PairReadOk(a, b);
    PairReadOk(c, d);
    PairsFetch(a, b, c, d);
    PairHouses([a, b], c, d, o);
    WordsAre(a, b, c, d, o);
    HousedRival([a, b, c, d, o], [[a, b], [c, d]]);
  }

  lemma HousedRival(registers: seq<Register>, forRequired: seq<seq<Register>>)
    requires Fetches(forRequired, Select(registers, false), {}, MAX_REGISTER_GAP)
    requires Homeless(Select(registers, true), forRequired) == []
    ensures Rival(forRequired, [], registers, {}, MAX_REGISTER_GAP)
  {
  }

  lemma WordsAre(a: Register, b: Register, c: Register, d: Register, o: Register)
    requires Spread(a, b, c, d, o)
    ensures Select([a, b, c, d, o], false) == [a, b, c, d] && Select([a, b, c, d, o], true) == [o]
  {
    WordsSelected([a, b, c, d], o, false);
    WordsSelected([a, b, c, d], o, true);
    assert [a, b, c, d] + [o] == [a, b, c, d, o];
  }

  lemma {:induction false} WordsSelected(required: seq<Register>, o: Register, optional: bool)
    requires o.optional && forall i :: 0 <= i < |required| ==> !required[i].optional
    ensures Select(required + [o], optional) == if optional then [o] else required
  {
    if required == [] {
      assert (required + [o])[1..] == [];
    } else {
      assert (required + [o])[1..] == required[1..] + [o];
      WordsSelected(required[1..], o, optional);
      assert [required[0]] + required[1..] == required;
    }
  }

  lemma PairReadOk(g: Register, h: Register)
    requires g.dataType.Uint16? && h.dataType.Uint16? && g.address < h.address <= g.address + 1 + MAX_REGISTER_GAP
    ensures ReadOk([g, h], {}, MAX_REGISTER_GAP)
  {
    SingleReadOk(g, {}, MAX_REGISTER_GAP);
    JoinReadOk([g], h, {}, MAX_REGISTER_GAP);
    assert [g] + [h] == [g, h];
  }

  lemma PairsFetch(a: Register, b: Register, c: Register, d: Register)
    requires ReadOk([a, b], {}, MAX_REGISTER_GAP) && ReadOk([c, d], {}, MAX_REGISTER_GAP)
    ensures Fetches([[a, b], [c, d]], [a, b, c, d], {}, MAX_REGISTER_GAP)
  {
    var reads_ := [[a, b], [c, d]];
    assert reads_[0] in reads_ && reads_[1] in reads_;
    assert a in reads_[0] && b in reads_[0] && c in reads_[1] && d in reads_[1];
  }

  lemma PairHouses(other: seq<Register>, c: Register, d: Register, o: Register)
    requires c == Word(98, false) && d == Word(126, false) && o == Word(110, true)
    ensures Homeless([o], [other, [c, d]]) == []
  {
    var two := [c, d];
    var reads_ := [other, two];
    assert two[1..] == [d];
    assert Houses(two, o) && reads_[1] in reads_;
    assert [o][1..] == [] && [o][0] == o;
  }

  lemma PlanNeedsThree(a: Register, b: Register, c: Register, d: Register, o: Register)
    requires Spread(a, b, c, d, o)
    ensures |PlanOf([a, b, c, d, o], {}, MAX_REGISTER_GAP, false)| == 3
  {
    WordsAre(a, b, c, d, o);
    PlanIsRival([a, b, c, d, o], {}, MAX_REGISTER_GAP);
    GreedyReads(a, b, c, d);
    LeftApart(a, b, c, d, o);
    OnlyOne(o);
  }

  lemma LeftApart(a: Register, b: Register, c: Register, d: Register, o: Register)
    requires Spread(a, b, c, d, o)
    ensures Contents([Block([a] + [b] + [c]), Block([d])]) == [[a] + [b] + [c], [d]]
    ensures Homeless([o], [[a] + [b] + [c], [d]]) == [o]
  {
    var blocks := [Block([a] + [b] + [c]), Block([d])];
    assert |Contents(blocks)| == 2 && Contents(blocks)[0] == blocks[0].registers;
    JoinStaysShort([a], b);
    JoinStaysShort([a] + [b], c);
    assert !Houses([a] + [b] + [c], o) && !Houses([d], o);
    assert [o][1..] == [] && [o][0] == o && [o] + [] == [o];
  }

  lemma OnlyOne(r: Register)
    ensures |GroupOf([r], {}, MAX_REGISTER_GAP)| == 1
  {
    SortedPrefix(r, []);
    PassJoinsNext([], r, [], {}, MAX_REGISTER_GAP);
    assert [r] + [] == [r];
  }

  lemma SortedPrefix(r: Register, rest: seq<Register>)
    requires SortByAddress(rest) == rest && (rest == [] || r.address <= rest[0].address)
    ensures SortByAddress([r] + rest) == [r] + rest
  {
    assert ([r] + rest)[1..] == rest;
  }

  lemma WordsSorted(a: Register, b: Register, c: Register, d: Register)
    requires a.address <= b.address <= c.address <= d.address
    ensures SortByAddress([a, b, c, d]) == [a, b, c, d]
  {
    var r3 := [d];
    var r2 := [c] + r3;
    var r1 := [b] + r2;
    assert r3 + [] == r3 && [a] + r1 == [a, b, c, d];
    SortedPrefix(d, []);
    SortedPrefix(c, r3);
    SortedPrefix(b, r2);
    SortedPrefix(a, r1);
  }

  lemma NearJoins(current: seq<Register>, next: Register, reach: int)
    requires current != [] && MaxEnd(current) == reach
    requires next.address - reach <= MAX_REGISTER_GAP && next.End() - current[0].address <= MAX_REGISTERS_PER_READ
    ensures !Breaks(current, next, {}, MAX_REGISTER_GAP)
  {
  }

  lemma FarBreaks(current: seq<Register>, next: Register)
    requires current != [] && next.End() - current[0].address > MAX_REGISTERS_PER_READ
    ensures Breaks(current, next, {}, MAX_REGISTER_GAP)
  {
  }

  lemma GreedyReads(a: Register, b: Register, c: Register, d: Register)
    requires a == Word(0, false) && b == Word(49, false) && c == Word(98, false) && d == Word(126, false)
    ensures GroupOf([a, b, c, d], {}, MAX_REGISTER_GAP) == [Block([a] + [b] + [c]), Block([d])]
  {
    WordsSorted(a, b, c, d);
    JoinStaysShort([a], b);
    NearJoins([a], b, 1);
    NearJoins([a] + [b], c, 50);
    FarBreaks([a] + [b] + [c], d);
    PassRuns(a, b, c, d);
  }

  lemma PassRuns(a: Register, b: Register, c: Register, d: Register)
    requires !Breaks([a], b, {}, MAX_REGISTER_GAP) && !Breaks([a] + [b], c, {}, MAX_REGISTER_GAP)
    requires Breaks([a] + [b] + [c], d, {}, MAX_REGISTER_GAP)
    ensures GroupFrom([], [a, b, c, d], {}, MAX_REGISTER_GAP) == [Block([a] + [b] + [c]), Block([d])]
  {
    PassJoinsNext([], a, [b, c, d], {}, MAX_REGISTER_GAP);
    PassJoinsNext([a], b, [c, d], {}, MAX_REGISTER_GAP);
    PassJoinsNext([a] + [b], c, [d], {}, MAX_REGISTER_GAP);
    PassBreaksAt([a] + [b] + [c], d, [], {}, MAX_REGISTER_GAP);
    assert [d] + [] == [d] && [c] + [d] == [c, d] && [b] + [c, d] == [b, c, d];
    assert [a] + [b, c, d] == [a, b, c, d] && [] + [a] == [a];
  }
}
