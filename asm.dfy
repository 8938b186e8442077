/** The assembly code generator of the screen designer: a screen grid becomes a
    6809 cartridge program that clears the screen, stores every character of
    every non-blank row into text-screen memory, then idles forever.

    The program is modelled twice: as a list of instructions (`Program`),
    which `Machine` gives a meaning, and as the exact listing text the
    generator writes (`ScreenToAsm`), whose row blocks are the rendering of
    the same instructions. */
module Asm {
  import opened Text
  import opened ScreenLayout

  /** The instructions and directives of the generated listing. */
  datatype Instr =
    | Origin(addr: int)            // * = addr
    | Label(name: string)          // name:
    | LoadS(imm: int)              // LDS  #imm
    | LoadX(imm: int)              // LDX  #imm
    | LoadA(imm: int)              // LDA  #imm
    | StoreAPostInc                // STA  ,X+
    | CompareX(imm: int)           // CMPX #imm
    | BranchLower(target: string)  // BLO  target
    | Branch(target: string)       // BRA  target
    | Bytes(values: seq<int>)      // FCB  values

  const RomStart := 0xC000
  const StackTop := 0x7FFF
  const SpaceCode := 0x20
  const ResetVectorAddress := 0xFFFE
  const ClearLabel := "CLRSCR"
  const IdleLabel := "FOREVER"

  /** The bound the generated clear loop compares X against ($0480). */
  const ClearLimitAsWritten := 0x0480
  /** One past the last byte of the 16 x 32 screen window: Base + Width * Height. */
  const ScreenEnd := 0x0600

  /** Stack set-up and the clear loop, which stores a space at X and
      advances X while X is below `clearLimit`. */
  function Prologue(clearLimit: int): seq<Instr> {
    [Origin(RomStart), Label("START"), LoadS(StackTop), LoadX(Base), LoadA(SpaceCode),
     Label(ClearLabel), StoreAPostInc, CompareX(clearLimit), BranchLower(ClearLabel)]
  }

  /** The idle loop and the reset vector pointing at the cartridge start. */
  function Epilogue(): seq<Instr> {
    [Label(IdleLabel), Branch(IdleLabel), Origin(ResetVectorAddress), Bytes([RomStart / 256, RomStart % 256])]
  }

  /** Screen address of the first column of a row. */
  function RowAddress(row: int): int {
    Base + 32 * row
  }

  /** An `LDA` operand that is the code of a character. */
  predicate IsCharCode(v: int) {
    0 <= v < 0xD800 || 0xE000 <= v < 0x11_0000
  }

  /** The instructions a row block is made of. */
  predicate IsStore(ins: Instr) {
    ins.LoadX? || (ins.LoadA? && IsCharCode(ins.imm)) || ins == StoreAPostInc
  }

  /** One `LDA #code` / `STA ,X+` pair per character, left to right
      (CharStoresAt gives the instruction at each position). */
  function CharStores(line: string): (code: seq<Instr>)
    ensures |code| == 2 * |line|
  {
    if line == [] then [] else [LoadA(line[0] as int), StoreAPostInc] + CharStores(line[1..])
  }

  /** The character stores load character codes and store them; no `LDX`. */
  lemma {:induction false} CharStoresAreStores(line: string)
    ensures forall i :: 0 <= i < |CharStores(line)| ==> IsStore(CharStores(line)[i]) && !CharStores(line)[i].LoadX?
  {
    if line != [] {
      CharStoresAreStores(line[1..]);
      var rest := CharStores(line[1..]);
      assert forall i :: 2 <= i < |CharStores(line)| ==> CharStores(line)[i] == rest[i - 2];
    }
  }

  /** Character k is loaded by instruction 2k and stored by 2k + 1. */
  lemma {:induction false} CharStoresAt(line: string, k: nat)
    requires k < |line|
    ensures CharStores(line)[2 * k] == LoadA(line[k] as int)
    ensures CharStores(line)[2 * k + 1] == StoreAPostInc
  {
    if k > 0 {
      CharStoresAt(line[1..], k - 1);
    }
  }

  lemma {:induction false} CharStoresSnoc(line: string, c: char)
    ensures CharStores(line + [c]) == CharStores(line) + [LoadA(c as int), StoreAPostInc]
  {
    if line == [] {
      assert line + [c] == [c];
    } else {
      assert (line + [c])[1..] == line[1..] + [c];
      CharStoresSnoc(line[1..], c);
    }
  }

  /** The block emitted for a row: point X at the row, then store each
      character. */
  function RowBlock(row: int, line: string): seq<Instr> {
    [LoadX(RowAddress(row))] + CharStores(line)
  }

  lemma {:induction false} RowBlockAt(row: int, line: string, c: nat)
    requires c < |line|
    ensures |RowBlock(row, line)| == 1 + 2 * |line|
    ensures RowBlock(row, line)[0] == LoadX(RowAddress(row))
    ensures RowBlock(row, line)[1 + 2 * c] == LoadA(line[c] as int)
    ensures RowBlock(row, line)[2 + 2 * c] == StoreAPostInc
  {
    CharStoresAt(line, c);
  }

  /** The row blocks of rows 0 .. n-1, in increasing row order; a blank row
      contributes nothing. */
  function BodyUpTo(grid: seq<string>, n: nat): seq<Instr>
    requires n <= |grid|
  {
    if n == 0 then []
    else BodyUpTo(grid, n - 1) + (if AllSpace(grid[n - 1]) then [] else RowBlock(n - 1, grid[n - 1]))
  }

  function Body(grid: seq<string>): seq<Instr> {
    BodyUpTo(grid, |grid|)
  }

  /** The whole cartridge program, its clear loop bounded by `clearLimit`;
      the generator uses ClearLimitAsWritten. */
  function Program(grid: seq<string>, clearLimit: int): seq<Instr> {
    Prologue(clearLimit) + Body(grid) + Epilogue()
  }

  /** Number of non-blank rows among rows 0 .. n-1. */
  function NonBlankCount(grid: seq<string>, n: nat): nat
    requires n <= |grid|
  {
    if n == 0 then 0 else NonBlankCount(grid, n - 1) + (if AllSpace(grid[n - 1]) then 0 else 1)
  }

  /** Each non-blank row of 32 characters costs 65 instructions (one LDX and
      32 pairs); blank rows cost none. */
  lemma {:induction false} BodyLength(grid: seq<string>, n: nat)
    requires n <= |grid|
    requires forall r :: 0 <= r < |grid| ==> |grid[r]| == Width
    ensures |BodyUpTo(grid, n)| == 65 * NonBlankCount(grid, n)
  {
    if n > 0 {
      BodyLength(grid, n - 1);
      if !AllSpace(grid[n - 1]) {
        assert |RowBlock(n - 1, grid[n - 1])| == 65;
      }
    }
  }

  lemma {:induction false} BodyPrefix(grid: seq<string>, m: nat, n: nat)
    requires m <= n <= |grid|
    ensures |BodyUpTo(grid, m)| <= |BodyUpTo(grid, n)|
    ensures forall j :: 0 <= j < |BodyUpTo(grid, m)| ==> BodyUpTo(grid, n)[j] == BodyUpTo(grid, m)[j]
    decreases n
  {
    if m < n {
      BodyPrefix(grid, m, n - 1);
    }
  }

  /** The j-th instruction of row r's block sits at offset j after the
      blocks of rows 0 .. r-1. */
  lemma {:induction false} BlockInBody(grid: seq<string>, r: nat)
    requires r < |grid| && !AllSpace(grid[r])
    ensures |BodyUpTo(grid, r)| + |RowBlock(r, grid[r])| <= |Body(grid)|
    ensures forall j :: 0 <= j < |RowBlock(r, grid[r])| ==>
      Body(grid)[|BodyUpTo(grid, r)| + j] == RowBlock(r, grid[r])[j]
  {
    BodyPrefix(grid, r + 1, |grid|);
    var prefix := BodyUpTo(grid, r + 1);
    assert prefix == BodyUpTo(grid, r) + RowBlock(r, grid[r]);
  }

  /** The block of a non-blank row r starts right after the blocks of rows
      0 .. r-1: `LDX #(1024 + 32 r)`, then, for each column c from left to
      right, `LDA #ord(grid[r][c])` and `STA ,X+`. */
  lemma {:induction false} BlockAt(grid: seq<string>, r: nat, c: nat)
    requires r < |grid| && !AllSpace(grid[r]) && c < |grid[r]|
    ensures |BodyUpTo(grid, r)| + 2 * c + 2 < |Body(grid)|
    ensures Body(grid)[|BodyUpTo(grid, r)|] == LoadX(1024 + 32 * r)
    ensures Body(grid)[|BodyUpTo(grid, r)| + 1 + 2 * c] == LoadA(grid[r][c] as int)
    ensures Body(grid)[|BodyUpTo(grid, r)| + 2 + 2 * c] == StoreAPostInc
  {
    RowBlockAt(r, grid[r], c);
    BlockInBody(grid, r);
    var off, block := |BodyUpTo(grid, r)|, RowBlock(r, grid[r]);
    assert Body(grid)[off + 0] == block[0];
    assert Body(grid)[off + (1 + 2 * c)] == block[1 + 2 * c];
    assert Body(grid)[off + (2 + 2 * c)] == block[2 + 2 * c];
  }

  /** Every instruction of the body is `LDX`, `LDA` or `STA ,X+`: no label,
      no branch. */
  lemma {:induction false} BodyOnlyStores(grid: seq<string>, n: nat)
    requires n <= |grid|
    ensures forall i :: 0 <= i < |BodyUpTo(grid, n)| ==> IsStore(BodyUpTo(grid, n)[i])
  {
    if n > 0 {
      BodyOnlyStores(grid, n - 1);
      if !AllSpace(grid[n - 1]) {
        RowBlockStores(n - 1, grid[n - 1]);
        var prev, block := BodyUpTo(grid, n - 1), RowBlock(n - 1, grid[n - 1]);
        var body := prev + block;
        assert BodyUpTo(grid, n) == body;
        forall i | 0 <= i < |body|
          ensures IsStore(body[i])
        {
          if i < |prev| {
            assert body[i] == prev[i];
          } else {
            assert body[i] == block[i - |prev|];
          }
        }
      }
    }
  }

  /** A row's block loads X with that row's address and with nothing else. */
  lemma {:induction false} LoadXInBlock(row: nat, line: string, v: int)
    ensures LoadX(v) in RowBlock(row, line) <==> v == RowAddress(row)
  {
    var cs := CharStores(line);
    CharStoresAreStores(line);
    assert LoadX(v) !in cs;
    assert RowBlock(row, line) == [LoadX(RowAddress(row))] + cs;
  }

  /** A LoadX in the body comes from a non-blank row among the first `n`,
      whose address it loads. */
  lemma {:induction false} LoadXToRow(grid: seq<string>, n: nat, i: nat, v: int) returns (r: nat)
    requires n <= |grid| && i < |BodyUpTo(grid, n)| && BodyUpTo(grid, n)[i] == LoadX(v)
    ensures r < n && !AllSpace(grid[r]) && v == RowAddress(r)
  {
    var prev := BodyUpTo(grid, n - 1);
    var line := grid[n - 1];
    var tail := if AllSpace(line) then [] else RowBlock(n - 1, line);
    assert BodyUpTo(grid, n) == prev + tail;
    if i < |prev| {
      assert prev[i] == LoadX(v);
      r := LoadXToRow(grid, n - 1, i, v);
    } else {
      assert tail[i - |prev|] == LoadX(v);
      LoadXInBlock(n - 1, line, v);
      r := n - 1;
    }
  }

  /** X is pointed at a row's screen address exactly when that row is not
      blank: a blank row emits no `LDX`, hence no stores. */
  lemma {:induction false} LoadXIff(grid: seq<string>, v: int)
    ensures LoadX(v) in Body(grid) <==>
      exists r :: 0 <= r < |grid| && !AllSpace(grid[r]) && v == RowAddress(r)
  {
    if LoadX(v) in Body(grid) {
      var i :| 0 <= i < |Body(grid)| && Body(grid)[i] == LoadX(v);
      var r := LoadXToRow(grid, |grid|, i, v);
    }
    forall r | 0 <= r < |grid| && !AllSpace(grid[r]) && v == RowAddress(r)
      ensures LoadX(v) in Body(grid)
    {
      assert |grid[r]| > 0;
      BlockAt(grid, r, 0);
    }
  }

  lemma {:induction false} AllRowsCounted(grid: seq<string>, n: nat)
    requires n <= |grid|
    requires forall r :: 0 <= r < |grid| ==> !AllSpace(grid[r])
    ensures NonBlankCount(grid, n) == n
  {
    if n > 0 {
      AllRowsCounted(grid, n - 1);
    }
  }

  lemma {:induction false} BlankTailEmitsNothing(grid: seq<string>, n: nat)
    requires 1 <= n <= |grid|
    requires forall r :: 1 <= r < |grid| ==> AllSpace(grid[r])
    ensures BodyUpTo(grid, n) == BodyUpTo(grid, 1)
  {
    if n > 1 {
      BlankTailEmitsNothing(grid, n - 1);
    }
  }

  /** When only row 0 has a visible character, the body is row 0's block. */
  lemma {:induction false} OnlyFirstRow(grid: seq<string>)
    requires 1 <= |grid| && !AllSpace(grid[0])
    requires forall r :: 1 <= r < |grid| ==> AllSpace(grid[r])
    ensures Body(grid) == RowBlock(0, grid[0])
  {
    BlankTailEmitsNothing(grid, |grid|);
    assert BodyUpTo(grid, 1) == BodyUpTo(grid, 0) + RowBlock(0, grid[0]);
  }

  /** A grid with no blank row: no row is skipped, so the body is 16 blocks
      of 65 instructions, one `LDX` per row. */
  lemma {:induction false} FullGridEmitsEveryRow(grid: seq<string>)
    requires IsGrid(grid) && forall r :: 0 <= r < Height ==> !AllSpace(grid[r])
    ensures |Body(grid)| == 16 * 65
    ensures forall r :: 0 <= r < Height ==> LoadX(RowAddress(r)) in Body(grid)
  {
    AllRowsCounted(grid, Height);
    BodyLength(grid, Height);
    forall r | 0 <= r < Height
      ensures LoadX(RowAddress(r)) in Body(grid)
    {
      LoadXIff(grid, RowAddress(r));
    }
  }

  /** The grid loaded from a file holding the single line "hello": row 0 is
      the only block emitted. */
  lemma {:induction false} HelloGridEmitsOneBlock()
    ensures var grid := [NormaliseLine("hello\n")] + seq(Height - 1, _ => BlankRow);
      Body(grid) == RowBlock(0, "HELLO" + Spaces(27))
  {
    var grid := [NormaliseLine("hello\n")] + seq(Height - 1, _ => BlankRow);
    HelloLine();
    forall r | 1 <= r < |grid|
      ensures AllSpace(grid[r])
    {
      assert grid[r] == BlankRow;
    }
    assert !AllSpace(grid[0]) by {
      assert grid[0][0] == 'H';
    }
    OnlyFirstRow(grid);
  }

  // ---------------------------------------------------------------------
  // The listing text

  const Indent := "        "

  const LdxText := Indent + "LDX     #"
  const LdaText := Indent + "LDA     #"
  const StaText := Indent + "STA     ,X+\n"
  /** What follows an `LDA` operand up to the quoted character. */
  const CharComment := Indent + "; '"

  /** The listing line of a row-block instruction; `LDA` is commented with
      the character it stores. */
  function RenderStore(ins: Instr): string
    requires IsStore(ins)
  {
    match ins
    case LoadX(v) => LdxText + IntText(v) + "\n"
    case LoadA(v) => LdaText + IntText(v) + CharComment + [v as char] + "'\n"
    case StoreAPostInc => StaText
  }

  datatype Option<T> = None | Some(value: T)

  /** Reads one listing line of a row block back into its instruction, as an
      assembler reads it: the mnemonic, a decimal immediate operand and, for
      `LDA`, the comment quoting the character; any other line is refused. */
  function ParseStore(t: string): (r: Option<Instr>)
    ensures r.Some? ==> IsStore(r.value)
  {
    if |t| >= 17 && (t[..17] == LdxText || t[..17] == LdaText) then
      var rest := t[17..];
      var k := DigitSpan(rest);
      var v := DecimalValue(rest[..k]);
      if k == 0 then None
      else if t[..17] == LdxText then
        if rest[k..] == "\n" then Some(LoadX(v)) else None
      else if IsCharCode(v) && rest[k..] == CharComment + [v as char] + "'\n" then Some(LoadA(v))
      else None
    else if t == StaText then Some(StoreAPostInc)
    else None
  }

  lemma {:induction false} ParseLoadX(v: nat)
    ensures ParseStore(RenderStore(LoadX(v))) == Some(LoadX(v))
  {
    var d := Decimal(v);
    var t := RenderStore(LoadX(v));
    assert t == LdxText + (d + "\n");
    assert t[..17] == LdxText && t[17..] == d + "\n";
    DigitSpanAppend(d, "\n");
    assert (d + "\n")[..|d|] == d;
    DecimalRoundTrip(v);
  }

  lemma {:induction false} ParseLoadA(v: int)
    requires IsCharCode(v)
    ensures ParseStore(RenderStore(LoadA(v))) == Some(LoadA(v))
  {
    var d := Decimal(v);
    var tail := CharComment + [v as char] + "'\n";
    var t := RenderStore(LoadA(v));
    assert t == LdaText + (d + tail);
    assert t[..17] == LdaText && t[17..] == d + tail;
    assert t[..17] != LdxText by {
      assert t[..17][10] != LdxText[10];
    }
    assert tail[0] == ' ';
    DigitSpanAppend(d, tail);
    assert (d + tail)[..|d|] == d;
    DecimalRoundTrip(v);
  }

  /** Every row-block line the generator writes reads back as the
      instruction it renders (row addresses are never negative). */
  lemma {:induction false} ParseRenderStore(ins: Instr)
    requires IsStore(ins) && (ins.LoadX? ==> ins.imm >= 0)
    ensures ParseStore(RenderStore(ins)) == Some(ins)
  {
    match ins
    case LoadX(v) => ParseLoadX(v);
    case LoadA(v) => ParseLoadA(v);
    case StoreAPostInc =>
      var t := RenderStore(ins);
      assert t[..17] != LdxText && t[..17] != LdaText by {
        assert t[..17][8] != LdxText[8] && t[..17][8] != LdaText[8];
      }
  }

  function Render(code: seq<Instr>): string
    requires forall i :: 0 <= i < |code| ==> IsStore(code[i])
  {
    if code == [] then "" else RenderStore(code[0]) + Render(code[1..])
  }

  lemma {:induction false} RenderAppend(a: seq<Instr>, b: seq<Instr>)
    requires forall i :: 0 <= i < |a| ==> IsStore(a[i])
    requires forall i :: 0 <= i < |b| ==> IsStore(b[i])
    ensures Render(a + b) == Render(a) + Render(b)
  {
    if a == [] {
      assert a + b == b;
    } else {
      assert (a + b)[0] == a[0];
      assert (a + b)[1..] == a[1..] + b;
      RenderAppend(a[1..], b);
      var head, rest, tail := RenderStore(a[0]), Render(a[1..]), Render(b);
      assert Render(a + b) == head + Render(a[1..] + b);
      assert Render(a) == head + rest;
      AppendAssoc(head, rest, tail);
    }
  }

  lemma {:induction false} RowBlockStores(row: int, line: string)
    ensures forall i :: 0 <= i < |RowBlock(row, line)| ==> IsStore(RowBlock(row, line)[i])
  {
    CharStoresAreStores(line);
  }

  /** The `; Row n` comment line that opens a row's text. */
  function RowHeader(row: nat): string {
    "\n" + Indent + "; Row " + Decimal(row) + "\n"
  }

  /** The `LDA`/`STA` lines of a row's characters. */
  function StoresText(line: string): string {
    CharStoresAreStores(line);
    Render(CharStores(line))
  }

  lemma {:induction false} StoresTextSnoc(line: string, c: char)
    ensures StoresText(line + [c]) ==
      StoresText(line) + (RenderStore(LoadA(c as int)) + RenderStore(StoreAPostInc))
  {
    CharStoresAreStores(line);
    CharStoresSnoc(line, c);
    RenderAppend(CharStores(line), [LoadA(c as int), StoreAPostInc]);
    assert [LoadA(c as int), StoreAPostInc][1..] == [StoreAPostInc];
    assert [StoreAPostInc][1..] == [];
    assert RenderStore(StoreAPostInc) + "" == RenderStore(StoreAPostInc);
  }

  /** The text of a non-blank row: its header, then its row block rendered
      line by line. */
  function RowText(row: nat, line: string): string {
    RowBlockStores(row, line);
    RowHeader(row) + Render(RowBlock(row, line))
  }

  lemma {:induction false} RowTextSplit(row: nat, line: string)
    ensures RowText(row, line) == RowHeader(row) + (RenderStore(LoadX(RowAddress(row))) + StoresText(line))
  {
    CharStoresAreStores(line);
    RenderAppend([LoadX(RowAddress(row))], CharStores(line));
    assert [LoadX(RowAddress(row))][1..] == [];
    assert RenderStore(LoadX(RowAddress(row))) + "" == RenderStore(LoadX(RowAddress(row)));
  }

  function BodyTextUpTo(grid: seq<string>, n: nat): string
    requires n <= |grid|
  {
    if n == 0 then ""
    else BodyTextUpTo(grid, n - 1) + (if AllSpace(grid[n - 1]) then "" else RowText(n - 1, grid[n - 1]))
  }

  /** The listing text of Prologue(ClearLimitAsWritten). */
  const PrologueText: string :=
    Indent + "* = $C000           ; cartridge ROM start\n" +
    "\n" +
    "START:  \n" +
    Indent + "; Set up stack\n" +
    Indent + "LDS     #$7FFF\n" +
    Indent + "\n" +
    Indent + "; Clear screen with spaces\n" +
    Indent + "LDX     #$0400\n" +
    Indent + "LDA     #$20        ; space character\n" +
    "CLRSCR: STA     ,X+\n" +
    Indent + "CMPX    #$0480\n" +
    Indent + "BLO     CLRSCR\n" +
    Indent + "\n" +
    Indent + "; Write screen content\n"

  /** The listing text of Epilogue(). */
  const EpilogueText: string :=
    "\n" +
    "FOREVER:\n" +
    Indent + "BRA     FOREVER     ; infinite loop\n" +
    "\n" +
    Indent + "* = $FFFE\n" +
    Indent + "FCB     $C0, $00    ; reset vector to $C000 (hardcoded)\n"

  /** Appending a non-blank row's header, `LDX` line and stores to the text
      of rows 0 .. row-1 gives the text of rows 0 .. row. */
  lemma {:induction false} RowStep(p: string, grid: seq<string>, row: nat)
    requires row < |grid| && !AllSpace(grid[row])
    ensures p + BodyTextUpTo(grid, row) + RowHeader(row) + RenderStore(LoadX(RowAddress(row))) + StoresText(grid[row])
      == p + BodyTextUpTo(grid, row + 1)
  {
    var line := grid[row];
    RowTextSplit(row, line);
    AppendAssoc3(p + BodyTextUpTo(grid, row), RowHeader(row), RenderStore(LoadX(RowAddress(row))), StoresText(line));
    AppendAssoc(p, BodyTextUpTo(grid, row), RowText(row, line));
  }

  /** A blank row adds no text. */
  lemma {:induction false} BlankRowStep(p: string, grid: seq<string>, row: nat)
    requires row < |grid| && AllSpace(grid[row])
    ensures p + BodyTextUpTo(grid, row + 1) == p + BodyTextUpTo(grid, row)
  {
    assert BodyTextUpTo(grid, row + 1) == BodyTextUpTo(grid, row) + "";
  }

  /** The inner loop of the generator: one `LDA`/`STA` line pair per
      character of the row, appended to `prefix`. */
  method AppendCharStores(prefix: string, line: string) returns (asm: string)
    ensures asm == prefix + StoresText(line)
  {
    asm := prefix;
    var k := 0;
    assert line[..0] == [];
    AppendAssoc(prefix, "", "");
    while k < |line|
      invariant 0 <= k <= |line|
      invariant asm == prefix + StoresText(line[..k])
    {
      var c := line[k];
      var lda, sta := RenderStore(LoadA(c as int)), RenderStore(StoreAPostInc);
      asm := asm + lda;
      asm := asm + sta;
      AppendAssoc3(prefix, StoresText(line[..k]), lda, sta);
      TakeSnoc(line, k);
      StoresTextSnoc(line[..k], c);
      k := k + 1;
    }
    assert line[..|line|] == line;
  }

  /** The row loop of the generator: the text of every non-blank row, in
      order, appended to `prefix`. */
  method AppendRows(prefix: string, grid: seq<string>) returns (asm: string)
    ensures asm == prefix + BodyTextUpTo(grid, |grid|)
  {
    asm := prefix;
    assert asm == prefix + "";
    var row := 0;
    while row < |grid|
      invariant 0 <= row <= |grid|
      invariant asm == prefix + BodyTextUpTo(grid, row)
    {
      var line := grid[row];
      var addr := RowAddress(row);
      StripEmptyIff(line);
      if Strip(line) != [] {
        asm := asm + RowHeader(row);
        asm := asm + RenderStore(LoadX(addr));
        asm := AppendCharStores(asm, line);
        RowStep(prefix, grid, row);
      } else {
        BlankRowStep(prefix, grid, row);
      }
      row := row + 1;
    }
  }

  /** Generates the listing: the prologue, then for every non-blank row, in
      order, its `; Row n` line and the rendering of its row block, then the
      epilogue. */
  method ScreenToAsm(grid: seq<string>) returns (asm: string)
    ensures asm == PrologueText + BodyTextUpTo(grid, |grid|) + EpilogueText
  {
    asm := PrologueText;
    asm := AppendRows(asm, grid);
    asm := asm + EpilogueText;
  }
}
