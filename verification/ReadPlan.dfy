/**
 Grouping registers into Modbus reads (models.py).

 What a read may look like is stated word by word in ReadOk, without reference to the
 order in which the greedy pass meets the registers. The greedy pass is then shown to
 build only such reads, and no more of them than any other way to cover the registers.
 */
module ReadPlan {
  const MAX_REGISTERS_PER_READ := 125

  datatype RegisterType = Uint16 | Uint32 | Int32 | Float32 | Serial {
    function Size(): nat {
      match this
      case Uint16 => 1
      case Uint32 => 2
      case Int32 => 2
      case Float32 => 2
      case Serial => 8
    }
  }

  datatype Register = Register(key: string, address: int, dataType: RegisterType, optional: bool) {
    function Size(): nat {
      dataType.Size()
    }

    /** The address just past this register. */
    function End(): int {
      address + Size()
    }

    predicate Covers(a: int) {
      address <= a < End()
    }
  }

  datatype Block = Block(registers: seq<Register>) {
    function Start(): int
      requires registers != []
    {
      MinAddress(registers)
    }

    function Count(): int
      requires registers != []
    {
      MaxEnd(registers) - Start()
    }

    /** The words of one register within this block's response. */
    function RegistersFor(raw: seq<int>, register: Register): seq<int>
      requires register in registers
    {
      MinAddressIs(registers);
      var index := register.address - Start();
      Slice(raw, index, index + register.Size())
    }
  }

  function MinAddress(s: seq<Register>): int
    requires s != []
  {
    if |s| == 1 then s[0].address
    else var rest := MinAddress(s[1..]); if s[0].address <= rest then s[0].address else rest
  }

  function MaxEnd(s: seq<Register>): int
    requires s != []
  {
    if |s| == 1 then s[0].End()
    else var rest := MaxEnd(s[1..]); if s[0].End() >= rest then s[0].End() else rest
  }

  /** A Python slice whose start is not negative: it stops at the end of the sequence. */
  function Slice(s: seq<int>, from: nat, to: nat): seq<int> {
    if to <= from || |s| <= from then [] else if |s| <= to then s[from..] else s[from..to]
  }

  lemma {:induction false} MinAddressIs(s: seq<Register>)
    requires s != []
    ensures forall r :: r in s ==> MinAddress(s) <= r.address
    ensures exists r :: r in s && r.address == MinAddress(s)
  {
    if |s| == 1 {
      assert s[0] in s;
    } else {
      MinAddressIs(s[1..]);
      assert s == [s[0]] + s[1..];
      var r :| r in s[1..] && r.address == MinAddress(s[1..]);
      assert r in s && s[0] in s;
    }
  }

  lemma {:induction false} MaxEndIs(s: seq<Register>)
    requires s != []
    ensures forall r :: r in s ==> r.End() <= MaxEnd(s)
    ensures exists r :: r in s && r.End() == MaxEnd(s)
  {
    if |s| == 1 {
      assert s[0] in s;
    } else {
      MaxEndIs(s[1..]);
      assert s == [s[0]] + s[1..];
      var r :| r in s[1..] && r.End() == MaxEnd(s[1..]);
      assert r in s && s[0] in s;
    }
  }

  // ---------------------------------------------------------------------------
  // What a read may look like
  // ---------------------------------------------------------------------------

  predicate Covered(s: seq<Register>, a: int) {
    exists r :: r in s && r.Covers(a)
  }

  /** Whether s may be fetched by one read: within 125 words, touching an
      address to avoid only inside a register that is wanted, and never running over
      more than maxGap unwanted words in a row. */
  ghost predicate ReadOk(s: seq<Register>, avoid: set<int>, maxGap: nat) {
    && s != []
    && MaxEnd(s) - MinAddress(s) <= 125
    && (forall a :: a in avoid && MinAddress(s) <= a < MaxEnd(s) ==> Covered(s, a))
    && (forall a {:trigger Window(s, a, maxGap)} ::
          MinAddress(s) <= a && a + maxGap < MaxEnd(s) ==> Window(s, a, maxGap))
  }

  /** Whether one of the maxGap + 1 words from a on is wanted. */
  ghost predicate Window(s: seq<Register>, a: int, maxGap: nat) {
    exists b :: a <= b <= a + maxGap && Covered(s, b)
  }

  // ---------------------------------------------------------------------------
  // Sorting
  // ---------------------------------------------------------------------------

  predicate Sorted(s: seq<Register>) {
    forall i, j :: 0 <= i < j < |s| ==> s[i].address <= s[j].address
  }

  function Insert(x: Register, s: seq<Register>): seq<Register> {
    if s == [] || x.address <= s[0].address then [x] + s else [s[0]] + Insert(x, s[1..])
  }

  lemma {:induction false} InsertKeeps(x: Register, s: seq<Register>)
    ensures multiset(Insert(x, s)) == multiset(s) + multiset{x}
  {
    if s != [] && s[0].address < x.address {
      InsertKeeps(x, s[1..]);
      assert s == [s[0]] + s[1..];
    }
  }

  lemma {:induction false} InsertSorted(x: Register, s: seq<Register>)
    requires Sorted(s)
    ensures Sorted(Insert(x, s))
    ensures forall y :: y in Insert(x, s) <==> y == x || y in s
  {
    if s != [] && s[0].address < x.address {
      InsertSorted(x, s[1..]);
      var rest := Insert(x, s[1..]);
      assert s == [s[0]] + s[1..];
      forall i | 0 <= i < |rest|
        ensures s[0].address <= rest[i].address
      {
        assert rest[i] in rest;
        assert rest[i] == x || rest[i] in s[1..];
      }
    }
  }

  /** Python's sorted by address: stable, as registers at one address keep their order. */
  function SortByAddress(s: seq<Register>): seq<Register> {
    if s == [] then [] else Insert(s[0], SortByAddress(s[1..]))
  }

  lemma {:induction false} SortIsSorted(s: seq<Register>)
    ensures Sorted(SortByAddress(s))
    ensures forall y :: y in SortByAddress(s) <==> y in s
  {
    if s != [] {
      SortIsSorted(s[1..]);
      InsertSorted(s[0], SortByAddress(s[1..]));
      assert s == [s[0]] + s[1..];
    }
  }

  lemma {:induction false} SortKeeps(s: seq<Register>)
    ensures multiset(SortByAddress(s)) == multiset(s)
  {
    if s != [] {
      SortKeeps(s[1..]);
      InsertKeeps(s[0], SortByAddress(s[1..]));
      assert s == [s[0]] + s[1..];
    }
  }

  // ---------------------------------------------------------------------------
  // The greedy pass
  // ---------------------------------------------------------------------------

  /** Whether next cannot join the read that current is. */
  predicate Breaks(current: seq<Register>, next: Register, avoid: set<int>, maxGap: nat)
    requires current != []
  {
    var reach := MaxEnd(current);
    || next.address - reach > maxGap
    || next.End() - current[0].address > MAX_REGISTERS_PER_READ
    || exists a :: a in avoid && reach <= a < next.address
  }

  /** What the pass still adds to the blocks once it has collected current. */
  function GroupFrom(current: seq<Register>, rest: seq<Register>, avoid: set<int>, maxGap: nat): seq<Block>
    decreases |rest|
  {
    if rest == [] then (if current == [] then [] else [Block(current)])
    else if current != [] && Breaks(current, rest[0], avoid, maxGap) then
      [Block(current)] + GroupFrom([rest[0]], rest[1..], avoid, maxGap)
    else
      GroupFrom(current + [rest[0]], rest[1..], avoid, maxGap)
  }

  function GroupOf(registers: seq<Register>, avoid: set<int>, maxGap: nat): seq<Block> {
    GroupFrom([], SortByAddress(registers), avoid, maxGap)
  }

  lemma PassJoinsNext(current: seq<Register>, next: Register, rest: seq<Register>, avoid: set<int>, maxGap: nat)
    requires current != [] ==> !Breaks(current, next, avoid, maxGap)
    ensures GroupFrom(current, [next] + rest, avoid, maxGap) == GroupFrom(current + [next], rest, avoid, maxGap)
  {
    assert ([next] + rest)[1..] == rest;
  }

  lemma PassBreaksAt(current: seq<Register>, next: Register, rest: seq<Register>, avoid: set<int>, maxGap: nat)
    requires current != [] && Breaks(current, next, avoid, maxGap)
    ensures GroupFrom(current, [next] + rest, avoid, maxGap)
         == [Block(current)] + GroupFrom([next], rest, avoid, maxGap)
  {
    assert ([next] + rest)[1..] == rest;
  }

  /** One step of the pass with the blocks it has built, and what that leaves to add. */
  lemma PassSteps(blocks: seq<Block>, current: seq<Register>, next: Register, rest: seq<Register>, avoid: set<int>,
                  maxGap: nat)
    ensures blocks + GroupFrom(current, [next] + rest, avoid, maxGap)
         == if current != [] && Breaks(current, next, avoid, maxGap) then
              (blocks + [Block(current)]) + GroupFrom([next], rest, avoid, maxGap)
            else blocks + GroupFrom(current + [next], rest, avoid, maxGap)
  {
    if current != [] && Breaks(current, next, avoid, maxGap) {
      PassBreaksAt(current, next, rest, avoid, maxGap);
    } else {
      PassJoinsNext(current, next, rest, avoid, maxGap);
    }
  }

  method Group(registers: seq<Register>, avoid: set<int>, maxGap: nat) returns (blocks: seq<Block>)
    ensures blocks == GroupOf(registers, avoid, maxGap)
    ensures forall b :: b in blocks ==> b.registers != [] && b.Count() <= MAX_REGISTERS_PER_READ
  {
    blocks := [];
    var current: seq<Register> := [];
    var sorted := SortByAddress(registers);
    ghost var result := GroupOf(registers, avoid, maxGap);
    assert sorted[0..] == sorted;
    for i := 0 to |sorted|
      invariant blocks + GroupFrom(current, sorted[i..], avoid, maxGap) == result
    {
      var register := sorted[i];
      assert sorted[i..] == [register] + sorted[i + 1..];
      PassSteps(blocks, current, register, sorted[i + 1..], avoid, maxGap);
      if current != [] {
        var reach := MaxEnd(current);
        var gap := register.address - reach;
        var span := register.End() - current[0].address;
        var crosses := exists a :: a in avoid && reach <= a < register.address;
        if gap > maxGap || span > MAX_REGISTERS_PER_READ || crosses {
          blocks := blocks + [Block(current)];
          current := [];
          assert [] + [register] == [register];
        }
      }
      current := current + [register];
    }
    assert sorted[|sorted|..] == [];
    if current != [] {
      blocks := blocks + [Block(current)];
    }
    assert blocks == result;
    GroupReadsShort(registers, avoid, maxGap);
  }

  /** Building a read of the pass never raises. */
  lemma GroupReadsShort(registers: seq<Register>, avoid: set<int>, maxGap: nat)
    ensures forall b :: b in GroupOf(registers, avoid, maxGap) ==>
              b.registers != [] && b.Count() <= MAX_REGISTERS_PER_READ
  {
    GroupReadsOk(registers, avoid, maxGap);
  }

  // ---------------------------------------------------------------------------
  // Every register ends up in exactly one legal read
  // ---------------------------------------------------------------------------

  function Flatten(blocks: seq<Block>): seq<Register> {
    if blocks == [] then [] else blocks[0].registers + Flatten(blocks[1..])
  }

  lemma {:induction false} FlattenConcat(a: seq<Block>, b: seq<Block>)
    ensures Flatten(a + b) == Flatten(a) + Flatten(b)
  {
    if a == [] {
      assert a + b == b;
    } else {
      FlattenConcat(a[1..], b);
      assert (a + b)[1..] == a[1..] + b && (a + b)[0] == a[0];
      var head, tail := a[0].registers, Flatten(a[1..]);
      assert head + (tail + Flatten(b)) == (head + tail) + Flatten(b);
    }
  }

  lemma {:induction false} GroupFromFlattens(current: seq<Register>, rest: seq<Register>, avoid: set<int>, maxGap: nat)
    ensures Flatten(GroupFrom(current, rest, avoid, maxGap)) == current + rest
    decreases |rest|
  {
    if rest == [] {
      if current != [] {
        assert Flatten([Block(current)]) == current + Flatten([]);
      }
    } else if current != [] && Breaks(current, rest[0], avoid, maxGap) {
      GroupFromFlattens([rest[0]], rest[1..], avoid, maxGap);
      var tail := GroupFrom([rest[0]], rest[1..], avoid, maxGap);
      assert ([Block(current)] + tail)[1..] == tail;
      assert rest == [rest[0]] + rest[1..];
    } else {
      GroupFromFlattens(current + [rest[0]], rest[1..], avoid, maxGap);
      assert current + rest == (current + [rest[0]]) + rest[1..];
    }
  }

  /** Registers that come in address order, as the pass meets them. */
  ghost predicate InOrder(current: seq<Register>, rest: seq<Register>) {
    && Sorted(rest)
    && (current != [] ==> forall r :: r in current ==> current[0].address <= r.address)
    && forall r, n :: r in current && n in rest ==> r.address <= n.address
  }

  lemma JoinKeepsOrder(current: seq<Register>, rest: seq<Register>)
    requires InOrder(current, rest) && rest != []
    ensures InOrder(current + [rest[0]], rest[1..]) && InOrder([rest[0]], rest[1..])
    ensures current != [] ==> current[0].address <= rest[0].address
  {
    assert forall n :: n in rest[1..] ==> n in rest;
    assert rest[0] in rest;
  }

  /** One register joins a legal read where the pass finds nothing against it. */
  lemma JoinReadOk(current: seq<Register>, next: Register, avoid: set<int>, maxGap: nat)
    requires ReadOk(current, avoid, maxGap) && !Breaks(current, next, avoid, maxGap)
    requires forall r :: r in current ==> current[0].address <= r.address <= next.address
    ensures ReadOk(current + [next], avoid, maxGap)
  {
    var s := current + [next];
    MinAddressIs(current);
    MaxEndIs(current);
    MinAddressIs(s);
    MaxEndIs(s);
    assert forall r :: r in s <==> r in current || r == next;
    var reach := MaxEnd(current);
    assert current[0] in current && MinAddress(s) == MinAddress(current) == current[0].address;
    assert MaxEnd(s) == if reach >= next.End() then reach else next.End();
    var last :| last in current && last.End() == reach;
    assert last.Covers(reach - 1) && Covered(s, reach - 1);
    forall a | a in avoid && MinAddress(s) <= a < MaxEnd(s)
      ensures Covered(s, a)
    {
      if a < reach {
        assert Covered(current, a);
      } else {
        assert next.Covers(a);
      }
    }
    forall a | MinAddress(s) <= a && a + maxGap < MaxEnd(s)
      ensures Window(s, a, maxGap)
    {
      var e := a + maxGap;
      if e < reach {
        assert Window(current, a, maxGap);
        var b :| a <= b <= a + maxGap && Covered(current, b);
        assert Covered(s, b);
      } else if next.address <= e {
        assert next.Covers(e) && Covered(s, e);
      } else {
        assert a <= reach - 1 <= e;
      }
    }
  }

  lemma SingleReadOk(r: Register, avoid: set<int>, maxGap: nat)
    ensures ReadOk([r], avoid, maxGap)
  {
    assert MinAddress([r]) == r.address && MaxEnd([r]) == r.End() && r in [r];
    forall a | r.address <= a < r.End()
      ensures Covered([r], a) && Window([r], a, maxGap)
    {
      assert r.Covers(a) && Covered([r], a);
    }
  }

  lemma {:induction false} GroupFromReadsOk(current: seq<Register>, rest: seq<Register>, avoid: set<int>, maxGap: nat)
    requires InOrder(current, rest)
    requires current != [] ==> ReadOk(current, avoid, maxGap)
    ensures forall b :: b in GroupFrom(current, rest, avoid, maxGap) ==> ReadOk(b.registers, avoid, maxGap)
    decreases |rest|
  {
    if rest != [] {
      JoinKeepsOrder(current, rest);
      SingleReadOk(rest[0], avoid, maxGap);
      if current != [] && Breaks(current, rest[0], avoid, maxGap) {
        GroupFromReadsOk([rest[0]], rest[1..], avoid, maxGap);
      } else {
        if current == [] {
          assert current + [rest[0]] == [rest[0]];
        } else {
          assert rest[0] in rest;
          JoinReadOk(current, rest[0], avoid, maxGap);
        }
        GroupFromReadsOk(current + [rest[0]], rest[1..], avoid, maxGap);
      }
    }
  }

  /** Every read of the pass is legal, in particular short enough that building it never
      raises, and the reads hold exactly the registers, in address order. */
  lemma GroupReadsOk(registers: seq<Register>, avoid: set<int>, maxGap: nat)
    ensures forall b :: b in GroupOf(registers, avoid, maxGap) ==> ReadOk(b.registers, avoid, maxGap)
    ensures Flatten(GroupOf(registers, avoid, maxGap)) == SortByAddress(registers)
  {
    SortIsSorted(registers);
    GroupFromReadsOk([], SortByAddress(registers), avoid, maxGap);
    GroupFromFlattens([], SortByAddress(registers), avoid, maxGap);
    assert [] + SortByAddress(registers) == SortByAddress(registers);
  }

  // ---------------------------------------------------------------------------
  // No cover needs fewer reads
  // ---------------------------------------------------------------------------

  /** No legal read made of the given registers holds both. */
  ghost predicate Apart(all: seq<Register>, g: Register, h: Register, avoid: set<int>, maxGap: nat) {
    forall s: seq<Register> :: (forall r :: r in s ==> r in all) && g in s && h in s ==> !ReadOk(s, avoid, maxGap)
  }

  /** The registers that open a read after the one that current is. */
  function Later(current: seq<Register>, rest: seq<Register>, avoid: set<int>, maxGap: nat): seq<Register>
    requires current != []
    decreases |rest|
  {
    if rest == [] then []
    else if Breaks(current, rest[0], avoid, maxGap) then
      [rest[0]] + Later([rest[0]], rest[1..], avoid, maxGap)
    else
      Later(current + [rest[0]], rest[1..], avoid, maxGap)
  }

  lemma {:induction false} LaterCounts(current: seq<Register>, rest: seq<Register>, avoid: set<int>, maxGap: nat)
    requires current != []
    ensures |GroupFrom(current, rest, avoid, maxGap)| == 1 + |Later(current, rest, avoid, maxGap)|
    decreases |rest|
  {
    if rest != [] {
      if Breaks(current, rest[0], avoid, maxGap) {
        LaterCounts([rest[0]], rest[1..], avoid, maxGap);
      } else {
        LaterCounts(current + [rest[0]], rest[1..], avoid, maxGap);
      }
    }
  }

  ghost predicate ApartFromAll(all: seq<Register>, g: Register, ls: seq<Register>, avoid: set<int>, maxGap: nat) {
    forall l :: l in ls ==> Apart(all, g, l, avoid, maxGap)
  }

  ghost predicate PairwiseApart(all: seq<Register>, ls: seq<Register>, avoid: set<int>, maxGap: nat) {
    ls == [] || (ApartFromAll(all, ls[0], ls[1..], avoid, maxGap) && PairwiseApart(all, ls[1..], avoid, maxGap))
  }

  /** Where the pass breaks a read, its first register can share none with any later
      register that reaches at least as far as the next one. */
  lemma BreakSeparates(all: seq<Register>, before: seq<Register>, current: seq<Register>, rest: seq<Register>,
                       y: Register, avoid: set<int>, maxGap: nat)
    requires all == before + current + rest && current != [] && rest != []
    requires forall r, n :: r in before + current && n in rest ==> r.address <= n.address
    requires forall n :: n in rest ==> rest[0].address <= n.address
    requires before != [] ==> MaxEnd(before) < current[0].End()
    requires Breaks(current, rest[0], avoid, maxGap)
    requires y in rest && rest[0].End() <= y.End()
    ensures Apart(all, current[0], y, avoid, maxGap)
  {
    var g, h := current[0], rest[0];
    var reach := MaxEnd(current);
    MaxEndIs(current);
    assert g in current && h in rest;
    if before != [] {
      MaxEndIs(before);
    }
    forall s: seq<Register> | (forall r :: r in s ==> r in all) && g in s && y in s
      ensures !ReadOk(s, avoid, maxGap)
    {
      MinAddressIs(s);
      MaxEndIs(s);
      forall a | reach <= a < h.address
        ensures !Covered(s, a)
      {
        forall r | r in s
          ensures !r.Covers(a)
        {
          assert r in before || r in current || r in rest;
        }
      }
      assert g.End() <= reach;
      if h.address - reach > maxGap {
        assert !Window(s, reach, maxGap);
      } else if h.End() - g.address <= MAX_REGISTERS_PER_READ {
        var a :| a in avoid && reach <= a < h.address;
        assert !Covered(s, a);
      }
    }
  }

  /** A register the pass breaks at reaches further than every register before it. */
  lemma BreakReaches(before: seq<Register>, current: seq<Register>, next: Register, avoid: set<int>, maxGap: nat)
    requires current != [] && MaxEnd(current) - current[0].address <= MAX_REGISTERS_PER_READ
    requires before != [] ==> MaxEnd(before) < current[0].End()
    requires Breaks(current, next, avoid, maxGap)
    ensures MaxEnd(before + current) < next.End()
  {
    MaxEndIs(before + current);
    MaxEndIs(current);
    assert current[0] in current;
    if before != [] {
      MaxEndIs(before);
    }
  }

  /** The registers that open the reads still to come reach at least as far as next. */
  lemma {:induction false} LaterReaches(current: seq<Register>, rest: seq<Register>, avoid: set<int>, maxGap: nat)
    requires InOrder(current, rest) && current != []
    requires MaxEnd(current) - current[0].address <= MAX_REGISTERS_PER_READ
    ensures forall l :: l in Later(current, rest, avoid, maxGap) ==> l in rest && current[0].End() <= l.End()
    decreases |rest|
  {
    if rest != [] {
      JoinKeepsOrder(current, rest);
      if Breaks(current, rest[0], avoid, maxGap) {
        BreakReaches([], current, rest[0], avoid, maxGap);
        assert [] + current == current;
        MaxEndIs(current);
        assert current[0] in current;
        LaterReaches([rest[0]], rest[1..], avoid, maxGap);
      } else {
        JoinStaysShort(current, rest[0]);
        LaterReaches(current + [rest[0]], rest[1..], avoid, maxGap);
      }
    }
  }

  ghost predicate Precede(before: seq<Register>, rest: seq<Register>) {
    forall r, n :: r in before && n in rest ==> r.address <= n.address
  }

  /** Where the pass stands: reads before are closed, current is open, rest is to come. */
  ghost predicate Pass(all: seq<Register>, before: seq<Register>, current: seq<Register>, rest: seq<Register>) {
    && all == before + current + rest
    && current != []
    && InOrder(current, rest)
    && Precede(before, rest)
    && MaxEnd(current) - current[0].address <= MAX_REGISTERS_PER_READ
    && (before != [] ==> MaxEnd(before) < current[0].End())
  }

  lemma PassBreaks(all: seq<Register>, before: seq<Register>, current: seq<Register>, rest: seq<Register>,
                   avoid: set<int>, maxGap: nat)
    requires Pass(all, before, current, rest) && rest != []
    requires Breaks(current, rest[0], avoid, maxGap)
    ensures Pass(all, before + current, [rest[0]], rest[1..])
  {
    JoinKeepsOrder(current, rest);
    BreakReaches(before, current, rest[0], avoid, maxGap);
    assert Precede(before + current, rest[1..]);
    assert rest == [rest[0]] + rest[1..];
  }

  lemma PassJoins(all: seq<Register>, before: seq<Register>, current: seq<Register>, rest: seq<Register>,
                  avoid: set<int>, maxGap: nat)
    requires Pass(all, before, current, rest) && rest != []
    requires !Breaks(current, rest[0], avoid, maxGap)
    ensures Pass(all, before, current + [rest[0]], rest[1..])
  {
    JoinKeepsOrder(current, rest);
    PrecedeTail(before, rest);
    JoinStaysShort(current, rest[0]);
    OneMore(before, current, rest);
  }

  lemma PrecedeTail(before: seq<Register>, rest: seq<Register>)
    requires Precede(before, rest) && rest != []
    ensures Precede(before, rest[1..])
  {
    assert forall n :: n in rest[1..] ==> n in rest;
  }

  lemma OneMore(before: seq<Register>, current: seq<Register>, rest: seq<Register>)
    requires rest != []
    ensures before + current + rest == before + (current + [rest[0]]) + rest[1..]
  {
    assert rest == [rest[0]] + rest[1..];
  }

  lemma LeaderApartFromLater(all: seq<Register>, before: seq<Register>, current: seq<Register>, rest: seq<Register>,
                             avoid: set<int>, maxGap: nat)
    requires Pass(all, before, current, rest) && rest != []
    requires Breaks(current, rest[0], avoid, maxGap)
    ensures ApartFromAll(all, current[0], [rest[0]] + Later([rest[0]], rest[1..], avoid, maxGap), avoid, maxGap)
  {
    JoinKeepsOrder(current, rest);
    LaterReaches([rest[0]], rest[1..], avoid, maxGap);
    forall l | l in [rest[0]] + Later([rest[0]], rest[1..], avoid, maxGap)
      ensures Apart(all, current[0], l, avoid, maxGap)
    {
      BreakSeparates(all, before, current, rest, l, avoid, maxGap);
    }
  }

  lemma PairwiseApartCons(all: seq<Register>, g: Register, ls: seq<Register>, avoid: set<int>, maxGap: nat)
    requires ApartFromAll(all, g, ls, avoid, maxGap) && PairwiseApart(all, ls, avoid, maxGap)
    ensures PairwiseApart(all, [g] + ls, avoid, maxGap)
  {
    assert ([g] + ls)[1..] == ls;
  }

  /** No legal read holds two of the registers that open the greedy reads. */
  lemma {:induction false} LeadersApart(all: seq<Register>, before: seq<Register>, current: seq<Register>,
                                        rest: seq<Register>, avoid: set<int>, maxGap: nat)
    requires Pass(all, before, current, rest)
    ensures PairwiseApart(all, [current[0]] + Later(current, rest, avoid, maxGap), avoid, maxGap)
    decreases |rest|
  {
    if rest == [] {
      PairwiseApartCons(all, current[0], [], avoid, maxGap);
    } else if Breaks(current, rest[0], avoid, maxGap) {
      PassBreaks(all, before, current, rest, avoid, maxGap);
      LeadersApart(all, before + current, [rest[0]], rest[1..], avoid, maxGap);
      LeaderApartFromLater(all, before, current, rest, avoid, maxGap);
      PairwiseApartCons(all, current[0], [rest[0]] + Later([rest[0]], rest[1..], avoid, maxGap), avoid, maxGap);
    } else {
      PassJoins(all, before, current, rest, avoid, maxGap);
      LeadersApart(all, before, current + [rest[0]], rest[1..], avoid, maxGap);
    }
  }

  lemma JoinStaysShort(current: seq<Register>, next: Register)
    requires current != []
    ensures MaxEnd(current + [next]) == if MaxEnd(current) >= next.End() then MaxEnd(current) else next.End()
  {
    MaxEndIs(current + [next]);
    MaxEndIs(current);
  }

  ghost predicate AllIn(part: seq<Register>, whole: seq<Register>) {
    forall r :: r in part ==> r in whole
  }

  /** A legal read made of the given registers. */
  ghost predicate Legal(read: seq<Register>, registers: seq<Register>, avoid: set<int>, maxGap: nat) {
    ReadOk(read, avoid, maxGap) && AllIn(read, registers)
  }

  ghost predicate Held(r: Register, cover: seq<seq<Register>>) {
    exists s :: s in cover && r in s
  }

  lemma WithoutOne(cover: seq<seq<Register>>, c: nat)
    requires c < |cover|
    ensures var others := cover[..c] + cover[c + 1..];
            && |others| == |cover| - 1
            && (forall t :: t in others ==> t in cover)
            && (forall t :: t in cover ==> t == cover[c] || t in others)
  {
    assert cover == cover[..c] + [cover[c]] + cover[c + 1..];
  }

  lemma ApartIsElsewhere(all: seq<Register>, l: Register, m: Register, cover: seq<seq<Register>>, c: nat,
                         others: seq<seq<Register>>, avoid: set<int>, maxGap: nat)
    requires Apart(all, l, m, avoid, maxGap) && c < |cover| && l in cover[c] && Legal(cover[c], all, avoid, maxGap)
    requires Held(m, cover) && forall t :: t in cover ==> t == cover[c] || t in others
    ensures Held(m, others)
  {
    var t :| t in cover && m in t;
  }

  /** Registers of which no two share a legal read need a read each. */
  lemma {:induction false} ApartNeedsReads(all: seq<Register>, ls: seq<Register>, cover: seq<seq<Register>>,
                                           avoid: set<int>, maxGap: nat)
    requires PairwiseApart(all, ls, avoid, maxGap)
    requires forall s :: s in cover ==> Legal(s, all, avoid, maxGap)
    requires forall l :: l in ls ==> Held(l, cover)
    ensures |ls| <= |cover|
  {
    if ls != [] {
      assert ls[0] in ls && forall m :: m in ls[1..] ==> m in ls;
      var s :| s in cover && ls[0] in s;
      var c :| 0 <= c < |cover| && cover[c] == s;
      var others := cover[..c] + cover[c + 1..];
      WithoutOne(cover, c);
      forall m | m in ls[1..]
        ensures Held(m, others)
      {
        ApartIsElsewhere(all, ls[0], m, cover, c, others, avoid, maxGap);
      }
      ApartNeedsReads(all, ls[1..], others, avoid, maxGap);
    }
  }

  /** A way to fetch the registers: legal reads made of them, each register in one. */
  ghost predicate Fetches(cover: seq<seq<Register>>, registers: seq<Register>, avoid: set<int>, maxGap: nat) {
    && (forall s :: s in cover ==> ReadOk(s, avoid, maxGap) && forall r :: r in s ==> r in registers)
    && (forall r :: r in registers ==> exists s :: s in cover && r in s)
  }

  /** The greedy pass uses the fewest reads: whatever reads fetch the registers, in
      whatever grouping, there are at least as many of them. */
  lemma GroupIsFewest(registers: seq<Register>, cover: seq<seq<Register>>, avoid: set<int>, maxGap: nat)
    requires Fetches(cover, registers, avoid, maxGap)
    ensures |GroupOf(registers, avoid, maxGap)| <= |cover|
  {
    var all := SortByAddress(registers);
    SortIsSorted(registers);
    if all != [] {
      PassStarts(all);
      LeadersApart(all, [], [all[0]], all[1..], avoid, maxGap);
      LaterCounts([all[0]], all[1..], avoid, maxGap);
      LaterReaches([all[0]], all[1..], avoid, maxGap);
      PassJoinsNext([], all[0], all[1..], avoid, maxGap);
      assert [all[0]] + all[1..] == all && [] + [all[0]] == [all[0]];
      var ls := [all[0]] + Later([all[0]], all[1..], avoid, maxGap);
      forall l | l in ls
        ensures Held(l, cover)
      {
        assert l in all && l in registers;
      }
      forall s | s in cover
        ensures Legal(s, all, avoid, maxGap)
      {
      }
      ApartNeedsReads(all, ls, cover, avoid, maxGap);
    }
  }

  /** The pass starts with the first register open and the others to come. */
  lemma PassStarts(all: seq<Register>)
    requires all != [] && Sorted(all)
    ensures Pass(all, [], [all[0]], all[1..])
  {
    assert all == [] + [all[0]] + all[1..];
    assert MaxEnd([all[0]]) == all[0].End();
  }

  function Contents(blocks: seq<Block>): (r: seq<seq<Register>>)
    ensures |r| == |blocks|
    ensures forall i :: 0 <= i < |r| ==> r[i] == blocks[i].registers
  {
    if blocks == [] then [] else [blocks[0].registers] + Contents(blocks[1..])
  }

  lemma {:induction false} ContentsAre(blocks: seq<Block>)
    ensures forall s :: s in Contents(blocks) ==> exists b :: b in blocks && b.registers == s
    ensures forall r :: r in Flatten(blocks) <==> exists s :: s in Contents(blocks) && r in s
  {
    if blocks != [] {
      ContentsAre(blocks[1..]);
      assert blocks == [blocks[0]] + blocks[1..];
      assert Contents(blocks)[0] == blocks[0].registers;
      assert Contents(blocks)[1..] == Contents(blocks[1..]);
      forall s | s in Contents(blocks[1..])
        ensures s in Contents(blocks)
      {
      }
    }
  }

  /** The greedy reads are themselves such a way, so the bound is met. */
  lemma GroupFetches(registers: seq<Register>, avoid: set<int>, maxGap: nat)
    ensures Fetches(Contents(GroupOf(registers, avoid, maxGap)), registers, avoid, maxGap)
  {
    var blocks := GroupOf(registers, avoid, maxGap);
    GroupReadsOk(registers, avoid, maxGap);
    SortIsSorted(registers);
    ContentsAre(blocks);
    forall s, r | s in Contents(blocks) && r in s
      ensures r in registers
    {
      assert r in Flatten(blocks);
    }
  }

  // ---------------------------------------------------------------------------
  // Reading in blocks agrees with reading one by one
  // ---------------------------------------------------------------------------

  /** What a device with the given words answers to a read. */
  function Answer(memory: int -> int, start: int, count: nat): (raw: seq<int>)
    ensures |raw| == count
  {
    seq(count, i => memory(start + i))
  }

  /** A register cut out of its block's response is the register read alone. */
  lemma BlockReadAgrees(block: Block, register: Register, memory: int -> int)
    requires register in block.registers
    ensures block.Count() >= 0
    ensures block.RegistersFor(Answer(memory, block.Start(), block.Count()), register)
         == Answer(memory, register.address, register.Size())
  {
    MinAddressIs(block.registers);
    MaxEndIs(block.registers);
  }
}
