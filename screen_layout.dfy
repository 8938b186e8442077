/** The screen layout loader of the Dragon 32 screen designer: the lines of a
    layout file become a fixed grid of 16 rows of 32 characters. */
module ScreenLayout {
  import opened Text

  /** Text-mode screen of the Dragon 32: 32 columns, 16 rows, at $0400. */
  const Width := 32
  const Height := 16
  const Base := 0x0400

  /** The row that pads a grid built from fewer than 16 lines. */
  const BlankRow: string := Spaces(Width)

  predicate IsGrid(grid: seq<string>) {
    |grid| == Height && forall r :: 0 <= r < Height ==> |grid[r]| == Width
  }

  /** One line of the layout file as it appears on screen: trailing newlines
      removed, upper-cased, padded with spaces or cut to exactly 32
      characters. Column k shows the k-th character of the line, upper-cased,
      or a space where the line is shorter. */
  function NormaliseLine(line: string): (row: string)
    ensures |row| == Width
    ensures forall k :: 0 <= k < Width ==>
      row[k] == if k < |TrimNewlines(line)| then UpperChar(TrimNewlines(line)[k]) else ' '
  {
    LJust(Upper(TrimNewlines(line)), Width)[..Width]
  }

  /** Builds the grid from the lines of the file, each as Python's file
      iteration yields it (possibly ending in a newline). The first 16 lines
      are normalised in order, the rest ignored; missing rows are blank. */
  method LoadScreen(fileLines: seq<string>) returns (screen: seq<string>)
    ensures IsGrid(screen)
    ensures forall i :: 0 <= i < |fileLines| && i < Height ==> screen[i] == NormaliseLine(fileLines[i])
    ensures forall i :: |fileLines| <= i < Height ==> screen[i] == BlankRow
  {
    screen := [];
    var i := 0;
    while i < |fileLines|
      invariant 0 <= i <= |fileLines| && i <= Height
      invariant |screen| == i
      invariant forall k :: 0 <= k < i ==> screen[k] == NormaliseLine(fileLines[k])
    {
      if i >= Height {
        break;
      }
      screen := screen + [NormaliseLine(fileLines[i])];
      i := i + 1;
    }
    while |screen| < Height
      invariant i <= |screen| <= Height
      invariant i == |fileLines| || i == Height
      invariant forall k :: 0 <= k < i ==> screen[k] == NormaliseLine(fileLines[k])
      invariant forall k :: i <= k < |screen| ==> screen[k] == BlankRow
      decreases Height - |screen|
    {
      screen := screen + [BlankRow];
    }
  }

  /** Normalising is idempotent on the lines Python's file iteration yields,
      whose only newline, if any, is the last character: a row the loader
      produced is left untouched by loading it again. */
  lemma {:induction false} NormaliseIdempotent(line: string)
    requires forall i :: 0 <= i < |line| - 1 ==> line[i] != '\n'
    ensures NormaliseLine(NormaliseLine(line)) == NormaliseLine(line)
  {
    var row := NormaliseLine(line);
    var t := TrimNewlines(line);
    assert row[Width - 1] != '\n' by {
      if Width - 1 < |t| {
        assert t[Width - 1] == line[Width - 1];
      }
    }
    assert TrimNewlines(row) == row;
    forall k | 0 <= k < Width
      ensures NormaliseLine(row)[k] == row[k]
    {
      if k < |t| {
        assert !IsLower(UpperChar(t[k]));
      }
    }
  }

  /** A line of five lower-case letters (the layout-file line "hello")
      becomes "HELLO" followed by 27 spaces. */
  lemma HelloLine()
    ensures NormaliseLine("hello\n") == "HELLO" + Spaces(27)
  {
    assert TrimNewlines("hello\n") == "hello" by {
      assert "hello\n"[..5] == "hello";
    }
    var row := NormaliseLine("hello\n");
    assert row == "HELLO" + Spaces(27) by {
      forall k | 0 <= k < Width
        ensures row[k] == ("HELLO" + Spaces(27))[k]
      {
      }
    }
  }
}
