# Dragon 32 screen designer and cartridge packer, in Dafny

The repository turns a text layout of the Dragon 32 text screen into a
cartridge in two steps.

1. The screen designer reads a layout file into a grid of 16 rows of 32
   characters. It then writes a 6809 assembly listing for a cartridge
   program. That program:
   - sets up the stack;
   - clears part of the screen with spaces;
   - stores every character of every non-blank row at that row's address
     in the screen window at $0400;
   - idles forever.

   The listing ends with the reset vector.
2. After an external assembler has turned the listing into bytes, the
   packer builds a 16 KiB ROM image. Byte i of the image maps to address
   $C000 + i. The image is filled with $FF, the code is copied to its start,
   and the big-endian reset vector $C000 is written into its last two bytes.

The model has five modules.

- `Text` (text.dfy) models the Python string built-ins the designer uses,
  restricted to ASCII: `rstrip('\n')`, `upper`, `ljust`, `strip` and the
  decimal formatting of an `int`. It also has a decimal reader, the partner
  of the formatter.
- `ScreenLayout` (screen_layout.dfy) models the loader, `load_screen_from_file`.
  It is a method with the source's two loops: the first normalises at most
  16 lines, the second pads with blank rows.
- `Asm` (asm.dfy) models the generator, `screen_to_asm`, in two forms.
  - The listing as an instruction list: prologue, one row block per
    non-blank row, epilogue.
  - The exact listing text, built by methods with the source's row loop and
    character loop. A parser reads the text of each row-block line back
    into its instruction.
- `Machine` (machine.dfy) gives the listing a meaning. It is a small-step
  semantics of the 6809 instructions the listing uses (A, X, S, the carry
  flag, 64 KiB of memory). It proves what screen memory holds once the
  program reaches its idle loop.
- `Rom` (rom.dfy) models the packer, `create_rom.py`. It is a method over a
  fresh byte array with the fill loop, the copy loop and the two vector
  writes, specified by a function on sequences. A checked variant refuses
  code that would run into the reset vector.

Two details of the code are modelled as written:

- The loader passes every character of a line through; upper-casing
  changes only `a`-`z`, so a cell may hold any character.
- `rstrip('\n')` removes every trailing newline of a line, not only one.

## Model

| member | source | states |
|---|---|---|
| Text.TrimNewlines | screen_designer.py:60 | `rstrip('\n')` returns a prefix of the line that does not end in a newline, and everything it removes is a newline |
| Text.LJust | screen_designer.py:60 | `ljust(32)` keeps the string and pads it with spaces up to 32; a longer string is unchanged |
| Text.LStrip | screen_designer.py:93 | `lstrip` returns a suffix that does not start with whitespace, and everything it drops is whitespace |
| Text.RStrip | screen_designer.py:93 | `rstrip` returns a prefix that does not end with whitespace, and everything it drops is whitespace |
| Text.StripEmptyIff | screen_designer.py:93 | `line.strip()` is empty (false) exactly when every character of the line is whitespace |
| Text.Decimal | screen_designer.py:95 | the rendering of an operand is a non-empty run of digits with no leading zero |
| Text.DecimalRoundTrip | screen_designer.py:95-99 | reading back the decimal text of an operand gives the operand |
| Text.DigitSpanAppend | screen_designer.py:95-99 | an operand's digits are read up to the first character after them |
| Text.UpperChar | screen_designer.py:60 | `upper()` on one character: `a`-`z` become `A`-`Z` (code minus 32), every other character is unchanged |
| Text.Upper | screen_designer.py:60 | `upper()` on a line keeps its length and upper-cases each character in place |
| Text.Strip | screen_designer.py:93 | `strip()` returns at most the line, neither starting nor ending with whitespace; StripEmptyIff gives when it is empty |
| Text.IntText | screen_designer.py:95-99 | `f"{n}"` is a non-empty run of digits, preceded by `-` exactly when n is negative |
| ScreenLayout.NormaliseLine | screen_designer.py:60 | a normalised line has exactly 32 columns; column k holds the upper-cased k-th character of the line without its trailing newlines, or a space past its end |
| ScreenLayout.LoadScreen | screen_designer.py:54-67 | the loader returns exactly 16 rows of 32 characters; row i is normalised line i for each of the first 16 lines; a missing row is 32 spaces; lines after the 16th are ignored |
| ScreenLayout.NormaliseIdempotent | screen_designer.py:60 | normalising a row the loader produced leaves it unchanged |
| ScreenLayout.HelloLine | screen_designer.py:60 | the line "hello" becomes "HELLO" and 27 spaces |
| Asm.Prologue | screen_designer.py:72-86 | the instructions of the fixed prologue: origin $C000, `LDS #$7FFF`, `LDX #$0400`, `LDA #$20`, and the `CLRSCR` loop bounded by the given limit; Machine.ProgramLayout and Machine.ClearLoop state where it sits and what it does |
| Asm.Epilogue | screen_designer.py:102-108 | the instructions of the fixed epilogue: the `FOREVER` idle loop, origin $FFFE and `FCB $C0, $00`; Machine.Idle states what the loop does |
| Asm.RowBlock | screen_designer.py:90-100 | the block of one row, `LDX` of its address and its character stores; Asm.RowBlockAt states its length and each instruction |
| Asm.BodyUpTo | screen_designer.py:89-100 | the blocks of rows 0 .. n-1 in row order, nothing for a blank row; Asm.BodyLength, Asm.BodyPrefix and Asm.LoadXToRow state its shape |
| Asm.BodyPrefix | screen_designer.py:89-100 | the blocks of the first m rows are a prefix of the blocks of the first n rows, for m <= n |
| Asm.Body | screen_designer.py:89-100 | the blocks of all rows; Asm.BlockAt, Asm.LoadXIff and Asm.BodyOnlyStores state where each block sits and what it holds |
| Asm.Program | screen_designer.py:72-108 | prologue, body, epilogue; Machine.ProgramLayout and Machine.RunPaintsScreen state its layout and its effect on memory |
| Asm.RenderStore | screen_designer.py:95-100 | the listing line of `LDX #addr`, `LDA #code ; 'c'` or `STA ,X+`, with the source's spacing and decimal operands; Asm.ParseRenderStore reads each back |
| Asm.RowHeader | screen_designer.py:94 | the `; Row n` comment line, preceded by an empty line, that opens a row's text |
| Asm.BodyTextUpTo | screen_designer.py:89-100 | the text of rows 0 .. n-1: for each non-blank row, its header and the rendering of its block; Asm.AppendRows builds it |
| Asm.PrologueText | screen_designer.py:72-86 | the prologue text exactly as the generator writes it, comments and blank lines included, with the clear loop bounded by $0480 |
| Asm.EpilogueText | screen_designer.py:102-108 | the epilogue text exactly as the generator writes it: the `FOREVER` loop, `* = $FFFE` and the `FCB $C0, $00` reset vector |
| Asm.CharStores | screen_designer.py:97-100 | a row emits two instructions per character |
| Asm.CharStoresAt | screen_designer.py:97-100 | character k is loaded by instruction 2k and stored by instruction 2k+1, left to right |
| Asm.CharStoresAreStores | screen_designer.py:97-100 | the character stores are `LDA #code` and `STA ,X+` only, with no `LDX` |
| Asm.RowBlockAt | screen_designer.py:90-100 | a row block is 1 + 2·(line length) long: first `LDX` of the row address, then one `LDA`/`STA` pair per character |
| Asm.BodyLength | screen_designer.py:89-100 | for 32-column rows, the body has 65 instructions per non-blank row and none for a blank row |
| Asm.BlockAt | screen_designer.py:89-100 | the block of non-blank row r follows the blocks of the rows before it: `LDX #1024+32r`, then `LDA` of column c and `STA ,X+` at offsets 1+2c and 2+2c |
| Asm.BodyOnlyStores | screen_designer.py:89-100 | the body holds only `LDX`, `LDA` and `STA ,X+`: no label and no branch |
| Asm.LoadXToRow | screen_designer.py:90-95 | every `LDX` in the body loads the address of a non-blank row |
| Asm.LoadXIff | screen_designer.py:90-95 | the body loads X with an address exactly when that address starts a non-blank row, so a blank row emits nothing |
| Asm.OnlyFirstRow | screen_designer.py:93 | when the rows after row 0 are blank, the body is row 0's block |
| Asm.FullGridEmitsEveryRow | screen_designer.py:89-100 | every 16 x 32 grid with no blank row emits 16 blocks of 65 instructions, with an `LDX` for each row |
| Asm.HelloGridEmitsOneBlock | screen_designer.py:54-100 | the grid loaded from a file holding "hello" emits exactly row 0's block, for "HELLO" and 27 spaces |
| Asm.ParseStore | screen_designer.py:95-100 | a line accepted by the reader reads as an `LDX`, `LDA` or `STA ,X+` instruction |
| Asm.ParseRenderStore | screen_designer.py:95-100 | each `LDX`, `LDA` or `STA ,X+` line the generator writes reads back as the instruction it renders |
| Asm.ParseLoadX | screen_designer.py:95 | the `LDX #addr` line reads back as `LDX` of that address |
| Asm.ParseLoadA | screen_designer.py:99 | the `LDA #code ; 'c'` line reads back as `LDA` of that code |
| Asm.StoresTextSnoc | screen_designer.py:97-100 | appending a character appends its `LDA` line and its `STA` line |
| Asm.RowStep | screen_designer.py:93-100 | a non-blank row appends its `; Row n` header, its `LDX` line and its store lines to the text |
| Asm.AppendCharStores | screen_designer.py:97-100 | the character loop appends the `LDA`/`STA` lines of every character of the row, in order |
| Asm.AppendRows | screen_designer.py:89-100 | the row loop appends, in row order, the text of every non-blank row and nothing for a blank one |
| Asm.ScreenToAsm | screen_designer.py:69-108 | the listing is the fixed prologue, then the text of each non-blank row in order, then the fixed epilogue |
| Machine.Step | screen_designer.py:76-104 | one 6809 instruction keeps the state well formed: `BLO` jumps to its label when C is set, `BRA` always, any other instruction has its Effect |
| Machine.Run | screen_designer.py:76-104 | n instructions run one after another keep the state well formed; Machine.RunAdd splits a run in two |
| Machine.RunAdd | screen_designer.py:76-104 | running m and then n instructions is the same as running m + n |
| Machine.Effect | screen_designer.py:76-83 | one instruction moves to the next instruction and keeps the state well formed |
| Machine.ExecAll | screen_designer.py:89-100 | straight-line code moves the program counter past itself |
| Machine.RunStraight | screen_designer.py:89-100 | running straight-line code in place is the same as executing its instructions in turn |
| Machine.ExecAppend | screen_designer.py:89-100 | executing two pieces of code one after the other is the same as executing the two together |
| Machine.FillAt | screen_designer.py:79-83 | after the clear, bytes in [lo, hi) hold the fill value and all others keep their old value |
| Machine.PaintLineAt | screen_designer.py:97-100 | the addresses of a painted line hold the low bytes of its characters; all other addresses keep their old value |
| Machine.PaintRowsCell | screen_designer.py:89-100 | after painting, cell (r, c) shows column c of row r, unless the row is blank or shorter |
| Machine.PaintRowsOutside | screen_designer.py:89-100 | painting touches nothing outside the rows' window |
| Machine.ClearLoop | screen_designer.py:79-83 | entered at `CLRSCR`, the clear loop takes 4 steps per byte, stores a space at every address from X up to the limit, and falls through with X at the limit |
| Machine.ExecStores | screen_designer.py:97-100 | a row's stores write its characters from X on and leave X just after them |
| Machine.ExecRowBlock | screen_designer.py:94-100 | a row block paints its line at the row's screen address |
| Machine.ExecBody | screen_designer.py:89-100 | the body paints every non-blank row, in order |
| Machine.Idle | screen_designer.py:103-104 | the idle loop never leaves its two instructions and never changes memory |
| Machine.ProgramLayout | screen_designer.py:72-108 | the program has its prologue at 0-8, the body at 9, and the idle loop after the body; each label resolves to its own definition |
| Machine.RunReset | screen_designer.py:74-80 | the first five instructions set S to $7FFF, X to $0400 and A to $20 |
| Machine.RunLaidOut | screen_designer.py:72-108 | once it reaches the idle loop, a program with this layout leaves the memory the body makes of the cleared memory |
| Machine.RunPaintsScreen | screen_designer.py:72-108 | from reset, memory ends as the initial memory with [$0400, limit) cleared to spaces and then every non-blank row painted at its address, and it stays so |
| Machine.CorrectedProgramPaintsGrid | screen_designer.py:79-83 | with the clear bounded by the end of the screen ($0600), every cell shows its grid character, or a space in a blank row |
| Machine.AsWrittenLeavesRowFourStale | screen_designer.py:82 | with the clear bounded by $0480 as written, a blank row 4 keeps whatever byte memory held at reset |
| Rom.RomImage | create_rom.py:10-21 | the image has 16384 bytes: the code at the start, $FF up to offset 16382, then $C0 and $00 |
| Rom.PackRom | create_rom.py:10-21 | filling, copying and writing the vector in a fresh buffer produces exactly that image |
| Rom.ImageBootsCode | create_rom.py:18-21 | for code of at most 16382 bytes, the reset vector reads $C000, the code comes first, and the rest up to the vector is $FF |
| Rom.Package | create_rom.py:15-21 | the checked packer refuses code longer than 16382 bytes, giving its size; otherwise it returns 16384 bytes that start with the code |
| Rom.PackageAgrees | create_rom.py:10-21 | when the checked packer accepts code, its image is the one the unchecked packer writes |
| Rom.VectorOverwritesCode | create_rom.py:15-21 | the unchecked packer, given code of 16383 or 16384 bytes whose byte 16382 is not $C0, produces an image that does not start with the code |
| Rom.OversizedCodeIsCorrupted | create_rom.py:15-21 | for 16383 bytes of $12, the image differs from the code at offset 16382, and the checked packer refuses that code |

## Left out

- The missing-file path of the loader, which prints a message and returns `None` (screen_designer.py:50-52), is file I/O. The loader takes the lines Python's file iteration would yield.
- Reading and writing files, all console output, and `main` are left out. The packer takes the code bytes as a parameter and returns the image.
- `load_file_as_uint8_lines` is not called anywhere and needs numpy, so it is left out.
- The external assembler is left out. Nothing proves that the bytes given to the packer are the assembly of the listing.
- The prologue and epilogue text are fixed strings. Unlike the row-block lines, they are not parsed back into `Prologue` and `Epilogue`.
- Text.Upper, Text.LStrip and Text.RStrip: only the ASCII behaviour of `upper` and `isspace` is modelled, not full Unicode. Text-mode newline translation is not modelled either.
- Rom.PackRom: code longer than 16384 bytes makes the source fail with an index error. This is stated as a precondition. Rom.Package gives the checked behaviour.
- Machine.Step: this is not a full 6809.
  - It keeps only the carry flag, the one flag the listing branches on.
  - It has no cycle timing.
  - It makes no difference between ROM and RAM.
  - Origin, label and `FCB` lines are no-ops, so the reset vector directive is not executed.
  - `LDA` keeps the low 8 bits of its operand. A character above code 255 would be refused by a real assembler, but here it stores its low byte.
- Machine.RunPaintsScreen: the program counter is an index into the instruction list, not a byte address. Instruction lengths and the placement at $C000 are not modelled.

## Findings

| source | as written | input that shows it | evidently intended | confidence | as-written member | corrected member |
|---|---|---|---|---|---|---|
| screen_designer.py:82 | the clear loop compares X with $0480, so it clears 128 bytes (rows 0-3) of the 512-byte window | a grid whose row 4 is blank, on a machine whose byte at $0480 is not a space at reset: that byte stays on screen | compare with $0600, the end of the 16 x 32 window | not executed | Machine.AsWrittenLeavesRowFourStale | Machine.CorrectedProgramPaintsGrid |
| create_rom.py:15-21 | code of 16383 or 16384 bytes is copied, then its last bytes are overwritten by the reset vector without any error | 16383 bytes of $12: the image's byte 16382 is $C0, not $12 | refuse code longer than 16382 bytes | not executed | Rom.VectorOverwritesCode | Rom.Package |

The generated listing text (`Asm.ScreenToAsm`) keeps $0480, as the
generator writes it. `Asm.Program` takes the clear limit as a parameter, so
the machine theorems cover both the written bound and the corrected one.
