/** A small-step meaning for the generated program: the part of the 6809 the
    listing uses (A, X, S, the carry flag and 64 KiB of memory), run one
    instruction at a time. The theorems say what text-screen memory holds
    once the program reaches its idle loop. */
module Machine {
  import opened Text
  import opened ScreenLayout
  import opened Asm

  const MemSize := 0x10000

  /** `pc` indexes the instruction list; `carry` is the C flag, the only flag
      a branch of the listing reads. */
  datatype Cpu = Cpu(pc: nat, a: int, x: int, s: int, carry: bool, mem: seq<int>)

  predicate Valid(st: Cpu) {
    |st.mem| == MemSize && 0 <= st.x < 0x10000 && 0 <= st.a < 0x100
  }

  /** Index of the first `Label(name)` at or after i, or |prog| if none. */
  function LabelFrom(prog: seq<Instr>, name: string, i: nat): (j: nat)
    requires i <= |prog|
    ensures i <= j <= |prog|
    ensures j < |prog| ==> prog[j] == Label(name)
    ensures forall k :: i <= k < j ==> prog[k] != Label(name)
    decreases |prog| - i
  {
    if i == |prog| then |prog| else if prog[i] == Label(name) then i else LabelFrom(prog, name, i + 1)
  }

  function LabelAt(prog: seq<Instr>, name: string): nat {
    LabelFrom(prog, name, 0)
  }

  predicate IsJump(ins: Instr) {
    ins.BranchLower? || ins.Branch?
  }

  /** The effect of an instruction that does not jump. Directives and labels
      only advance `pc`; `LDA` keeps the low 8 bits of its operand and
      `LDX`/`LDS` the low 16; `STA ,X+` stores A at X and increments X modulo
      2^16; `CMPX` sets C when X is below the operand (an unsigned borrow). */
  function Effect(ins: Instr, st: Cpu): (r: Cpu)
    requires Valid(st) && !IsJump(ins)
    ensures Valid(r) && r.pc == st.pc + 1
  {
    match ins
    case LoadS(v) => st.(pc := st.pc + 1, s := v % 0x10000)
    case LoadX(v) => st.(pc := st.pc + 1, x := v % 0x10000)
    case LoadA(v) => st.(pc := st.pc + 1, a := v % 0x100)
    case StoreAPostInc => st.(pc := st.pc + 1, mem := st.mem[st.x := st.a], x := (st.x + 1) % 0x10000)
    case CompareX(v) => st.(pc := st.pc + 1, carry := st.x < v % 0x10000)
    case Origin(_) => st.(pc := st.pc + 1)
    case Label(_) => st.(pc := st.pc + 1)
    case Bytes(_) => st.(pc := st.pc + 1)
  }

  /** One instruction: `BLO` jumps to its label when C is set, `BRA` always;
      any other instruction has its Effect. A `pc` past the end stays put. */
  function Step(prog: seq<Instr>, st: Cpu): (r: Cpu)
    requires Valid(st)
    ensures Valid(r)
  {
    if st.pc >= |prog| then st
    else match prog[st.pc]
      case BranchLower(t) => if st.carry then st.(pc := LabelAt(prog, t)) else st.(pc := st.pc + 1)
      case Branch(t) => st.(pc := LabelAt(prog, t))
      case _ => Effect(prog[st.pc], st)
  }

  /** n instructions from `st`. */
  function Run(prog: seq<Instr>, st: Cpu, n: nat): (r: Cpu)
    requires Valid(st)
    ensures Valid(r)
    decreases n
  {
    if n == 0 then st else Run(prog, Step(prog, st), n - 1)
  }

  /** Running m then n instructions is running m + n. */
  lemma {:induction false} RunAdd(prog: seq<Instr>, st: Cpu, m: nat, n: nat)
    requires Valid(st)
    ensures Run(prog, st, m + n) == Run(prog, Run(prog, st, m), n)
    decreases m
  {
    if m > 0 {
      RunAdd(prog, Step(prog, st), m - 1, n);
    }
  }

  lemma {:induction false} RunAdd4(prog: seq<Instr>, st: Cpu, a: nat, b: nat, c: nat, d: nat)
    requires Valid(st)
    ensures Run(prog, st, a + b + c + d) == Run(prog, Run(prog, Run(prog, Run(prog, st, a), b), c), d)
  {
    RunAdd(prog, st, a, b + c + d);
    RunAdd(prog, Run(prog, st, a), b, c + d);
    RunAdd(prog, Run(prog, Run(prog, st, a), b), c, d);
    assert a + b + c + d == a + (b + c + d);
    assert b + c + d == b + (c + d);
  }

  /** `code` sits in `prog` from position p on. */
  predicate At(prog: seq<Instr>, p: nat, code: seq<Instr>) {
    p + |code| <= |prog| && forall i :: 0 <= i < |code| ==> prog[p + i] == code[i]
  }

  lemma {:induction false} AtTail(prog: seq<Instr>, p: nat, code: seq<Instr>)
    requires At(prog, p, code) && code != []
    ensures prog[p] == code[0] && At(prog, p + 1, code[1..])
  {
    assert prog[p + 0] == code[0];
    forall i | 0 <= i < |code| - 1
      ensures prog[p + 1 + i] == code[1..][i]
    {
      assert prog[p + (i + 1)] == code[i + 1];
    }
  }

  /** Code without jumps. */
  predicate Straight(code: seq<Instr>) {
    forall i :: 0 <= i < |code| ==> !IsJump(code[i])
  }

  /** The Effect of each instruction of straight-line code in turn. */
  function ExecAll(code: seq<Instr>, st: Cpu): (r: Cpu)
    requires Valid(st) && Straight(code)
    ensures Valid(r) && r.pc == st.pc + |code|
    decreases code
  {
    if code == [] then st else ExecAll(code[1..], Effect(code[0], st))
  }

  /** Running straight-line code that sits at `pc` is executing it. */
  lemma {:induction false} RunStraight(prog: seq<Instr>, st: Cpu, code: seq<Instr>)
    requires Valid(st) && At(prog, st.pc, code) && Straight(code)
    ensures Run(prog, st, |code|) == ExecAll(code, st)
    decreases code
  {
    if code != [] {
      AtTail(prog, st.pc, code);
      assert Step(prog, st) == Effect(code[0], st);
      RunStraight(prog, Effect(code[0], st), code[1..]);
    }
  }

  lemma {:induction false} ExecAppend(a: seq<Instr>, b: seq<Instr>, st: Cpu)
    requires Valid(st) && Straight(a + b)
    ensures Straight(a) && Straight(b)
    ensures ExecAll(a + b, st) == ExecAll(b, ExecAll(a, st))
    decreases a
  {
    assert forall i :: 0 <= i < |a| ==> a[i] == (a + b)[i];
    assert forall i :: 0 <= i < |b| ==> b[i] == (a + b)[|a| + i];
    if a != [] {
      assert (a + b)[1..] == a[1..] + b;
      ExecAppend(a[1..], b, Effect(a[0], st));
    } else {
      assert a + b == b;
    }
  }

  // ---------------------------------------------------------------------
  // Memory effects

  /** Memory with [lo, hi) set to v, one byte after the other. */
  function Fill(mem: seq<int>, lo: nat, hi: int, v: int): (r: seq<int>)
    requires hi <= |mem|
    ensures |r| == |mem|
    decreases hi - lo
  {
    if lo >= hi then mem else Fill(mem[lo := v], lo + 1, hi, v)
  }

  lemma {:induction false} FillAt(mem: seq<int>, lo: nat, hi: int, v: int, i: nat)
    requires hi <= |mem| && i < |mem|
    ensures Fill(mem, lo, hi, v)[i] == if lo <= i < hi then v else mem[i]
    decreases hi - lo
  {
    if lo < hi {
      FillAt(mem[lo := v], lo + 1, hi, v, i);
    }
  }

  /** Memory with the low bytes of the characters of `line` stored from
      `addr` on, left to right. */
  function PaintLine(mem: seq<int>, addr: nat, line: string): (r: seq<int>)
    requires addr + |line| <= |mem|
    ensures |r| == |mem|
    decreases line
  {
    if line == [] then mem else PaintLine(mem[addr := line[0] as int % 0x100], addr + 1, line[1..])
  }

  lemma {:induction false} PaintLineAt(mem: seq<int>, addr: nat, line: string, i: nat)
    requires addr + |line| <= |mem| && i < |mem|
    ensures PaintLine(mem, addr, line)[i] ==
      if addr <= i < addr + |line| then line[i - addr] as int % 0x100 else mem[i]
    decreases line
  {
    if line != [] {
      PaintLineAt(mem[addr := line[0] as int % 0x100], addr + 1, line[1..], i);
      if addr + 1 <= i < addr + |line| {
        assert line[1..][i - (addr + 1)] == line[i - addr];
      }
    }
  }

  /** A grid whose rows fit the screen window row by row. */
  predicate FitsScreen(grid: seq<string>) {
    |grid| <= Height && forall r :: 0 <= r < |grid| ==> |grid[r]| <= Width
  }

  /** Memory after painting rows 0 .. n-1 in order, skipping blank rows. */
  function PaintRows(mem: seq<int>, grid: seq<string>, n: nat): (r: seq<int>)
    requires |mem| == MemSize && FitsScreen(grid) && n <= |grid|
    ensures |r| == |mem|
  {
    if n == 0 then mem
    else
      var before := PaintRows(mem, grid, n - 1);
      if AllSpace(grid[n - 1]) then before
      else
        assert RowAddress(n - 1) + |grid[n - 1]| <= 0x600;
        PaintLine(before, RowAddress(n - 1), grid[n - 1])
  }

  /** Painting rows 0 .. n-1 touches nothing outside their window. */
  lemma {:induction false} PaintRowsOutside(mem: seq<int>, grid: seq<string>, n: nat, i: nat)
    requires |mem| == MemSize && FitsScreen(grid) && n <= |grid| && i < MemSize
    requires i < 0x400 || 0x400 + 32 * n <= i
    ensures PaintRows(mem, grid, n)[i] == mem[i]
  {
    if n > 0 {
      PaintRowsOutside(mem, grid, n - 1, i);
      if !AllSpace(grid[n - 1]) {
        PaintLineAt(PaintRows(mem, grid, n - 1), RowAddress(n - 1), grid[n - 1], i);
      }
    }
  }

  /** Column c of row r shows the row's c-th character, unless the row is
      blank or shorter; then the byte that was there before. */
  lemma {:induction false} PaintRowsCell(mem: seq<int>, grid: seq<string>, n: nat, r: nat, c: nat)
    requires |mem| == MemSize && FitsScreen(grid) && r < n <= |grid| && c < 32
    ensures PaintRows(mem, grid, n)[RowAddress(r) + c] ==
      if !AllSpace(grid[r]) && c < |grid[r]| then grid[r][c] as int % 0x100 else mem[RowAddress(r) + c]
  {
    var i := RowAddress(r) + c;
    var before := PaintRows(mem, grid, n - 1);
    if r == n - 1 {
      PaintRowsOutside(mem, grid, n - 1, i);
      if !AllSpace(grid[r]) {
        PaintLineAt(before, RowAddress(r), grid[r], i);
      }
    } else {
      PaintRowsCell(mem, grid, n - 1, r, c);
      if !AllSpace(grid[n - 1]) {
        PaintLineAt(before, RowAddress(n - 1), grid[n - 1], i);
      }
    }
  }

  // ---------------------------------------------------------------------
  // Running the pieces of the program

  /** The clear loop, entered at its label with A = $20: after 4 steps per
      byte it has stored a space at every address from X up to `limit` and
      falls through with X = limit. */
  lemma {:induction false} ClearLoop(prog: seq<Instr>, st: Cpu, limit: int)
    requires Valid(st) && 9 <= |prog|
    requires prog[5] == Label(ClearLabel) && prog[6] == StoreAPostInc
    requires prog[7] == CompareX(limit) && prog[8] == BranchLower(ClearLabel)
    requires LabelAt(prog, ClearLabel) == 5
    requires st.pc == 5 && st.a == SpaceCode && st.x < limit <= 0xFFFF
    ensures var r := Run(prog, st, 4 * (limit - st.x));
      r.pc == 9 && r.x == limit && r.a == SpaceCode && r.mem == Fill(st.mem, st.x, limit, SpaceCode)
    decreases limit - st.x
  {
    var st1 := Step(prog, st);
    assert st1 == st.(pc := 6);
    var st2 := Step(prog, st1);
    assert st2 == st.(pc := 7, mem := st.mem[st.x := SpaceCode], x := st.x + 1);
    var st3 := Step(prog, st2);
    assert st3 == st2.(pc := 8, carry := st.x + 1 < limit);
    var st4 := Step(prog, st3);
    assert Run(prog, st, 4) == st4 by {
      assert Run(prog, st3, 1) == st4;
      assert Run(prog, st2, 2) == st4;
      assert Run(prog, st1, 3) == st4;
    }
    if st.x + 1 < limit {
      assert st4 == st3.(pc := 5);
      ClearLoop(prog, st4, limit);
      RunAdd(prog, st, 4, 4 * (limit - st4.x));
    } else {
      assert st4 == st3.(pc := 9);
    }
  }

  /** The stores of one line leave X after the line and the line's bytes
      in memory from the old X on. */
  lemma {:induction false} ExecStores(line: string, st: Cpu)
    requires Valid(st) && st.x + |line| < 0x10000
    ensures Straight(CharStores(line))
    ensures ExecAll(CharStores(line), st).x == st.x + |line|
    ensures ExecAll(CharStores(line), st).mem == PaintLine(st.mem, st.x, line)
    decreases line
  {
    CharStoresAreStores(line);
    if line != [] {
      var c := line[0] as int % 0x100;
      var head := [LoadA(line[0] as int), StoreAPostInc];
      assert CharStores(line) == head + CharStores(line[1..]);
      ExecAppend(head, CharStores(line[1..]), st);
      var st1 := Effect(LoadA(line[0] as int), st);
      var st2 := Effect(StoreAPostInc, st1);
      assert st2 == st.(pc := st.pc + 2, a := c, mem := st.mem[st.x := c], x := st.x + 1);
      assert ExecAll(head, st) == st2 by {
        assert head[1..] == [StoreAPostInc];
        assert ExecAll(head, st) == ExecAll([StoreAPostInc], st1);
        assert [StoreAPostInc][1..] == [];
      }
      ExecStores(line[1..], st2);
    }
  }

  /** A row block paints its line at the row's screen address. */
  lemma {:induction false} ExecRowBlock(row: nat, line: string, st: Cpu)
    requires Valid(st) && RowAddress(row) + |line| < 0x10000
    ensures Straight(RowBlock(row, line))
    ensures ExecAll(RowBlock(row, line), st).mem == PaintLine(st.mem, RowAddress(row), line)
  {
    var head := [LoadX(RowAddress(row))];
    ExecStores(line, Effect(LoadX(RowAddress(row)), st));
    RowBlockStores(row, line);
    assert Straight(head + CharStores(line));
    ExecAppend(head, CharStores(line), st);
    assert ExecAll(head, st) == Effect(LoadX(RowAddress(row)), st) by {
      assert head[1..] == [];
    }
  }

  /** The row blocks of rows 0 .. n-1 paint those rows in order. */
  lemma {:induction false} ExecBody(grid: seq<string>, n: nat, st: Cpu)
    requires Valid(st) && FitsScreen(grid) && n <= |grid|
    ensures Straight(BodyUpTo(grid, n))
    ensures ExecAll(BodyUpTo(grid, n), st).mem == PaintRows(st.mem, grid, n)
  {
    BodyOnlyStores(grid, n);
    if n > 0 {
      var prev := BodyUpTo(grid, n - 1);
      ExecBody(grid, n - 1, st);
      if AllSpace(grid[n - 1]) {
        assert BodyUpTo(grid, n) == prev;
      } else {
        var block := RowBlock(n - 1, grid[n - 1]);
        assert BodyUpTo(grid, n) == prev + block;
        assert RowAddress(n - 1) + |grid[n - 1]| <= 0x600;
        ExecRowBlock(n - 1, grid[n - 1], ExecAll(prev, st));
        assert Straight(prev + block);
        ExecAppend(prev, block, st);
      }
    }
  }

  /** The idle loop: the label and the `BRA` to it alternate forever and the
      memory is never touched again. */
  lemma {:induction false} Idle(prog: seq<Instr>, st: Cpu, f: nat, k: nat)
    requires Valid(st) && f + 1 < |prog| && prog[f] == Label(IdleLabel) && prog[f + 1] == Branch(IdleLabel)
    requires LabelAt(prog, IdleLabel) == f
    requires st.pc == f || st.pc == f + 1
    ensures Run(prog, st, k).mem == st.mem
    ensures Run(prog, st, k).pc == f || Run(prog, st, k).pc == f + 1
    decreases k
  {
    if k > 0 {
      var st1 := Step(prog, st);
      assert st1.mem == st.mem && (st1.pc == f || st1.pc == f + 1);
      Idle(prog, st1, f, k - 1);
    }
  }

  // ---------------------------------------------------------------------
  // The whole program

  lemma {:induction false} LabelSkip(prog: seq<Instr>, name: string, i: nat, j: nat)
    requires i <= j <= |prog|
    requires forall k :: i <= k < j ==> prog[k] != Label(name)
    ensures LabelFrom(prog, name, i) == LabelFrom(prog, name, j)
    decreases j - i
  {
    if i < j {
      LabelSkip(prog, name, i + 1, j);
    }
  }

  /** The shape of a program built from Prologue(limit), then `body`, then
      Epilogue(): where its pieces sit. */
  predicate Placed(prog: seq<Instr>, body: seq<Instr>, limit: int) {
    var f := 9 + |body|;
    |prog| == f + 4 &&
    prog[0] == Origin(RomStart) && prog[1] == Label("START") && prog[2] == LoadS(StackTop) &&
    prog[3] == LoadX(Base) && prog[4] == LoadA(SpaceCode) && prog[5] == Label(ClearLabel) &&
    prog[6] == StoreAPostInc && prog[7] == CompareX(limit) && prog[8] == BranchLower(ClearLabel) &&
    At(prog, 9, body) &&
    prog[f] == Label(IdleLabel) && prog[f + 1] == Branch(IdleLabel)
  }

  /** Placed, and both labels resolve to their own definitions. */
  predicate LaidOut(prog: seq<Instr>, body: seq<Instr>, limit: int) {
    Placed(prog, body, limit) &&
    LabelAt(prog, ClearLabel) == 5 && LabelAt(prog, IdleLabel) == 9 + |body|
  }

  lemma {:induction false} ProgramPlaced(grid: seq<string>, limit: int)
    ensures Placed(Program(grid, limit), Body(grid), limit)
  {
    var pro, body, epi := Prologue(limit), Body(grid), Epilogue();
    var prog := Program(grid, limit);
    var f := 9 + |body|;
    assert prog == pro + body + epi;
    forall i | 0 <= i < 9
      ensures prog[i] == pro[i]
    {
    }
    forall i | 0 <= i < |body|
      ensures prog[9 + i] == body[i]
    {
      assert (pro + body)[9 + i] == body[i];
    }
    assert prog[f] == epi[0] && prog[f + 1] == epi[1];
  }

  /** A body without labels leaves both labels where the prologue and the
      epilogue put them. */
  lemma {:induction false} PlacedLabels(prog: seq<Instr>, body: seq<Instr>, limit: int)
    requires Placed(prog, body, limit)
    requires forall i :: 0 <= i < |body| ==> !body[i].Label?
    ensures LaidOut(prog, body, limit)
  {
    var f := 9 + |body|;
    assert "START" != ClearLabel && "START" != IdleLabel && ClearLabel != IdleLabel by {
      assert |"START"| == 5 && |ClearLabel| == 6 && |IdleLabel| == 7;
    }
    LabelSkip(prog, ClearLabel, 0, 5);
    forall k | 0 <= k < f
      ensures prog[k] != Label(IdleLabel)
    {
      if k >= 9 {
        assert prog[9 + (k - 9)] == body[k - 9];
      }
    }
    LabelSkip(prog, IdleLabel, 0, f);
  }

  lemma {:induction false} ProgramLayout(grid: seq<string>, limit: int)
    ensures LaidOut(Program(grid, limit), Body(grid), limit)
  {
    ProgramPlaced(grid, limit);
    BodyOnlyStores(grid, |grid|);
    PlacedLabels(Program(grid, limit), Body(grid), limit);
  }

  /** The five instructions before the clear loop set S, X and A. */
  lemma {:induction false} RunReset(prog: seq<Instr>, body: seq<Instr>, limit: int, st0: Cpu)
    requires LaidOut(prog, body, limit) && Valid(st0) && st0.pc == 0
    ensures Run(prog, st0, 5) == st0.(pc := 5, s := StackTop, x := Base, a := SpaceCode)
  {
    var st1 := Step(prog, st0);
    var st2 := Step(prog, st1);
    var st3 := Step(prog, st2);
    var st4 := Step(prog, st3);
    var st5 := Step(prog, st4);
    assert st5 == st0.(pc := 5, s := StackTop, x := Base, a := SpaceCode);
    assert Run(prog, st4, 1) == st5;
    assert Run(prog, st3, 2) == st5;
    assert Run(prog, st2, 3) == st5;
    assert Run(prog, st1, 4) == st5;
  }

  /** Any program laid out like Program(grid, limit) around a straight-line
      body: once it reaches its idle loop, memory is what the body makes of
      the memory the clear loop left, and nothing changes it afterwards. */
  lemma {:induction false} RunLaidOut(prog: seq<Instr>, body: seq<Instr>, limit: int, st0: Cpu, fuel: nat)
    requires 0x400 < limit <= 0xFFFF && LaidOut(prog, body, limit) && Straight(body)
    requires Valid(st0) && st0.pc == 0
    requires fuel >= 5 + 4 * (limit - 0x400) + |body|
    ensures Run(prog, st0, 5 + 4 * (limit - 0x400)).mem == Fill(st0.mem, Base, limit, SpaceCode)
    ensures Run(prog, st0, fuel).mem == ExecAll(body, Run(prog, st0, 5 + 4 * (limit - 0x400))).mem
  {
    var clear := 4 * (limit - 0x400);
    var idle := fuel - (5 + clear + |body|);
    var st5 := Run(prog, st0, 5);
    assert st5.pc == 5 && st5.x == Base && st5.a == SpaceCode && st5.mem == st0.mem by {
      RunReset(prog, body, limit, st0);
    }
    var st9 := Run(prog, st5, clear);
    assert st9.pc == 9 && st9.mem == Fill(st0.mem, Base, limit, SpaceCode) by {
      ClearLoop(prog, st5, limit);
    }
    assert Run(prog, st0, 5 + clear) == st9 by {
      RunAdd(prog, st0, 5, clear);
    }
    var stF := Run(prog, st9, |body|);
    assert stF == ExecAll(body, st9) by {
      RunStraight(prog, st9, body);
    }
    assert Run(prog, stF, idle).mem == stF.mem by {
      Idle(prog, stF, 9 + |body|, idle);
    }
    RunAdd4(prog, st0, 5, clear, |body|, idle);
  }

  /** Number of instructions from reset to the idle loop. */
  function StepsToIdle(grid: seq<string>, limit: int): int {
    5 + 4 * (limit - 0x400) + |Body(grid)|
  }

  /** From reset, once the program has run long enough to reach its idle
      loop, memory is the initial memory with [$0400, limit) cleared to
      spaces and then every non-blank row painted at its screen address; it
      stays so however much longer the program runs. */
  lemma {:induction false} RunPaintsScreen(grid: seq<string>, limit: int, st0: Cpu, fuel: nat)
    requires FitsScreen(grid) && 0x400 < limit <= 0xFFFF
    requires Valid(st0) && st0.pc == 0
    requires fuel >= StepsToIdle(grid, limit)
    ensures Run(Program(grid, limit), st0, fuel).mem ==
      PaintRows(Fill(st0.mem, Base, limit, SpaceCode), grid, |grid|)
  {
    var prog := Program(grid, limit);
    ProgramLayout(grid, limit);
    ExecBody(grid, |grid|, Run(prog, st0, 5 + 4 * (limit - 0x400)));
    RunLaidOut(prog, Body(grid), limit, st0, fuel);
  }

  /** With the clear loop bounded by the end of the screen window, every cell
      of a loaded grid ends up showing its character, and every cell of a
      blank row a space, whatever memory held at reset. */
  lemma {:induction false} CorrectedProgramPaintsGrid(grid: seq<string>, st0: Cpu, fuel: nat, r: nat, c: nat)
    requires IsGrid(grid) && Valid(st0) && st0.pc == 0
    requires fuel >= StepsToIdle(grid, ScreenEnd)
    requires r < Height && c < Width
    ensures Run(Program(grid, ScreenEnd), st0, fuel).mem[RowAddress(r) + c] ==
      if AllSpace(grid[r]) then SpaceCode else grid[r][c] as int % 0x100
  {
    RunPaintsScreen(grid, ScreenEnd, st0, fuel);
    var cleared := Fill(st0.mem, Base, ScreenEnd, SpaceCode);
    PaintRowsCell(cleared, grid, |grid|, r, c);
    FillAt(st0.mem, Base, ScreenEnd, SpaceCode, RowAddress(r) + c);
  }

  /** The program as generated clears only up to $0480, the first 128 bytes
      (rows 0 to 3): when row 4 is blank, its first cell keeps whatever byte
      was in memory at reset, which need not be a space. */
  lemma {:induction false} AsWrittenLeavesRowFourStale(grid: seq<string>, st0: Cpu, fuel: nat)
    requires IsGrid(grid) && AllSpace(grid[4]) && Valid(st0) && st0.pc == 0
    requires fuel >= StepsToIdle(grid, ClearLimitAsWritten)
    ensures Run(Program(grid, ClearLimitAsWritten), st0, fuel).mem[RowAddress(4)] == st0.mem[RowAddress(4)]
  {
    RunPaintsScreen(grid, ClearLimitAsWritten, st0, fuel);
    var cleared := Fill(st0.mem, Base, ClearLimitAsWritten, SpaceCode);
    PaintRowsCell(cleared, grid, |grid|, 4, 0);
    FillAt(st0.mem, Base, ClearLimitAsWritten, SpaceCode, RowAddress(4));
  }
}
