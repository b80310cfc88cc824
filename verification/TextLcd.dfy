/** TextLCD.cpp: the cursor, and the display memory of one or two controllers, mirror a plain grid. */
module TextLcd {
  // ---------------------------------------------------------------- panels

  datatype AddrMode = ModeA | ModeB | ModeC | ModeD | ModeD1 | ModeE | ModeF | ModeG

  /** LCDType: addressing mode, columns and rows. */
  datatype Panel = Panel(mode: AddrMode, cols: nat, rows: nat)

  const LCD40X4 := Panel(ModeE, 40, 4)

  /** The panel types of the library. */
  const PANELS := [
    Panel(ModeA, 8, 1), Panel(ModeA, 8, 2), Panel(ModeB, 8, 2), Panel(ModeD, 10, 4), Panel(ModeA, 12, 1),
    Panel(ModeA, 12, 2),
    Panel(ModeD, 12, 3), Panel(ModeD1, 12, 3), Panel(ModeA, 12, 4), Panel(ModeD, 12, 4), Panel(ModeA, 16, 1),
    Panel(ModeC, 16, 1),
    Panel(ModeA, 16, 2), Panel(ModeD, 16, 3), Panel(ModeF, 16, 3), Panel(ModeG, 16, 3), Panel(ModeA, 16, 4),
    Panel(ModeA, 20, 1),
    Panel(ModeA, 20, 2), Panel(ModeA, 20, 4), Panel(ModeD, 20, 4), Panel(ModeA, 24, 1), Panel(ModeA, 24, 2),
    Panel(ModeD, 24, 4),
    Panel(ModeA, 32, 2), Panel(ModeA, 40, 2), LCD40X4]

  /** The shapes for which the addressing modes work. */
  predicate Fits(p: Panel) {
    1 <= p.cols <= 64 && 1 <= p.rows &&
    match p.mode
    case ModeA => p.rows <= 4 && (p.rows > 2 ==> p.cols <= 32)
    case ModeB => p.cols <= 8 && p.rows <= 2
    case ModeC => p.rows == 1
    case ModeD => p.cols <= 32 && p.rows <= 4
    case ModeD1 => p.cols <= 32 && p.rows <= 3
    case ModeE => p == LCD40X4
    case ModeF => p.cols <= 40 && p.rows <= 3
    case ModeG => p.cols <= 16 && p.rows <= 3
  }

  lemma PanelsFit()
    ensures forall p :: p in PANELS ==> Fits(p)
  {
  }

  predicate Cell(p: Panel, column: int, row: int) { 0 <= column < p.cols && 0 <= row < p.rows }

  /** The controller that holds a row. */
  function CtrlOf(p: Panel, row: nat): nat { if p.mode.ModeE? && row >= 2 then 1 else 0 }

  /** The memory address of a cell in its controller. */
  function Address(p: Panel, column: nat, row: nat): nat
    requires Fits(p) && Cell(p, column, row)
  {
    match p.mode
    case ModeA =>
      if row == 0 then column else if row == 1 then 0x40 + column
      else if row == 2 then p.cols + column else 0x40 + p.cols + column
    case ModeB => if row == 0 then column else 0x08 + column
    case ModeC => if column < p.cols / 2 then column else 0x40 + (column - p.cols / 2)
    case ModeD => if row == 0 then column else if row == 1 then 0x20 + column else if row == 2 then 0x40 + column
                  else 0x60 + column
    case ModeD1 => if row == 0 then 0x20 + column else if row == 1 then 0x40 + column else 0x60 + column
    case ModeE => if row < 2 then row * 0x40 + column else (row - 2) * 0x40 + column
    case ModeF =>
      if row == 0 then column else if row == 1 then 0x40 + column
      else if column < p.cols / 2 then p.cols + column else 0x40 + p.cols + (column - p.cols / 2)
    case ModeG => if row == 0 then column else if row == 1 then 0x10 + column else 0x20 + column
  }

  const DDRAM_SIZE := 128

  /** On every panel, no two cells share a place in memory. */
  lemma AddressInjective(p: Panel, c: nat, r: nat, c': nat, r': nat)
    requires Fits(p) && Cell(p, c, r) && Cell(p, c', r')
    ensures Address(p, c, r) < DDRAM_SIZE
    ensures CtrlOf(p, r) == CtrlOf(p, r') && Address(p, c, r) == Address(p, c', r') ==> c == c' && r == r'
  {
  }

  /** A row whose halves are shown from different lines of the memory. */
  predicate IsSplit(p: Panel, row: nat) { p.mode.ModeC? || (p.mode.ModeF? && row == 2) }

  /** Along a row the addresses go up by one, but for a row that is split in the middle. */
  lemma RowRuns(p: Panel, c: nat, r: nat)
    requires Fits(p) && Cell(p, c, r) && c + 1 < p.cols
    ensures Address(p, c + 1, r) == Address(p, c, r) + 1 <==>
            !(IsSplit(p, r) && c + 1 == p.cols / 2)
  {
  }

  /** How far apart the lines of the memory are from which two rows next to each other are shown. */
  function LineStep(p: Panel): nat {
    if p.mode.ModeA? || p.mode.ModeE? || p.mode.ModeF? then 0x40 else if p.mode.ModeB? then 8
    else if p.mode.ModeG? then 0x10 else 0x20
  }

  /** The first row is shown from the start of the memory, on a D1 panel from its second line; the
      second one from a line further; the rows behind them go on where these two end (A, and in
      halves F), use the same lines of the other controller (E), or a line further each. A split
      single row (C) goes on in the line at 0x40. */
  lemma RowsLie(p: Panel, c: nat, r: nat)
    requires Fits(p) && Cell(p, c, r)
    ensures r == 0 && c == 0 && !(p.mode.ModeC? && p.cols == 1) ==>
              Address(p, c, r) == if p.mode.ModeD1? then 0x20 else 0
    ensures r == 1 ==> Address(p, c, 1) == Address(p, c, 0) + LineStep(p)
    ensures r >= 2 && (p.mode.ModeD? || p.mode.ModeD1? || p.mode.ModeG?) ==>
              Address(p, c, r) == Address(p, c, r - 1) + LineStep(p)
    ensures r >= 2 && c == 0 && p.mode.ModeA? ==> Address(p, 0, r) == Address(p, p.cols - 1, r - 2) + 1
    ensures r >= 2 && p.mode.ModeE? ==>
              Address(p, c, r) == Address(p, c, r - 2) && CtrlOf(p, r) == 1 != CtrlOf(p, r - 2)
    ensures r == 2 && p.mode.ModeF? && c == 0 && p.cols > 1 ==> Address(p, 0, 2) == Address(p, p.cols - 1, 0) + 1
    ensures r == 2 && p.mode.ModeF? && c == p.cols / 2 ==> Address(p, c, 2) == Address(p, p.cols - 1, 1) + 1
    ensures p.mode.ModeC? && c == p.cols / 2 ==> Address(p, c, r) == 0x40
    ensures CtrlOf(p, r) == if p.mode.ModeE? && r >= 2 then 1 else 0
  {
  }

  // ---------------------------------------------------------------- controllers

  type Cursor = x: nat | x < 4

  const CUR_OFF: Cursor := 0

  /** Display memory, address counter, and the last display control command. */
  datatype Controller = Controller(ddram: seq<int>, ac: nat, control: nat)

  const BLANK := 0x20

  function Blank(): (r: seq<int>)
    ensures |r| == DDRAM_SIZE && forall i :: 0 <= i < DDRAM_SIZE ==> r[i] == BLANK
  {
    seq(DDRAM_SIZE, _ => BLANK)
  }

  /** The commands: set the address, clear the display, display control. */
  function Obey(c: Controller, command: nat): Controller {
    if 0x80 <= command < 0x100 then c.(ac := command - 0x80)
    else if command == 0x01 then c.(ddram := Blank(), ac := 0)
    else if 0x08 <= command < 0x10 then c.(control := command)
    else c
  }

  /** The bits of a display control command: D switches the display on, C shows the cursor and B
      makes it blink. */
  predicate IsOn(c: Controller) { c.control / 4 % 2 == 1 }

  function CursorOf(c: Controller): Cursor { c.control % 4 }

  /** Writing data; how the address counter goes on is up to the controller. */
  function Store(c: Controller, data: int, next: nat): Controller
    requires c.ac < |c.ddram|
  {
    Controller(c.ddram[c.ac := data], next % DDRAM_SIZE, c.control)
  }

  // ---------------------------------------------------------------- the screen

  /** A grid with a cursor on it. */
  datatype Screen = Screen(grid: seq<seq<int>>, column: nat, row: nat, cursor: Cursor, displayOn: bool)

  predicate IsScreen(p: Panel, s: Screen) {
    |s.grid| == p.rows && (forall r :: 0 <= r < p.rows ==> |s.grid[r]| == p.cols) && Cell(p, s.column, s.row)
  }

  function NextRow(p: Panel, row: nat): nat { if row + 1 >= p.rows then 0 else row + 1 }

  /** A newline goes to the start of the next row, the low byte of a character is put at the
      cursor, which moves on; behind the last row comes the first. */
  function Typed(p: Panel, s: Screen, value: int): (t: Screen)
    requires IsScreen(p, s)
    ensures IsScreen(p, t)
  {
    if value == 10 then s.(column := 0, row := NextRow(p, s.row))
    else
      var grid := s.grid[s.row := s.grid[s.row][s.column := value % 256]];
      if s.column + 1 >= p.cols then s.(grid := grid, column := 0, row := NextRow(p, s.row))
      else s.(grid := grid, column := s.column + 1)
  }

  function Clamp(x: int, n: nat): nat
    requires 0 < n
  {
    if x < 0 then 0 else if x >= n then n - 1 else x
  }

  function Located(p: Panel, s: Screen, column: int, row: int): (t: Screen)
    requires IsScreen(p, s)
    ensures IsScreen(p, t)
  {
    s.(column := Clamp(column, p.cols), row := Clamp(row, p.rows))
  }

  function BlankGrid(p: Panel): (r: seq<seq<int>>)
    ensures |r| == p.rows && forall i :: 0 <= i < p.rows ==> |r[i]| == p.cols && forall c :: 0 <= c < p.cols ==>
            r[i][c] == BLANK
  {
    seq(p.rows, _ => seq(p.cols, _ => BLANK))
  }

  function Cleared(p: Panel, s: Screen): (t: Screen)
    requires IsScreen(p, s)
    ensures IsScreen(p, t)
  {
    s.(grid := BlankGrid(p), column := 0, row := 0)
  }

  datatype Op = Putc(value: int) | Locate(column: int, row: int) | Cls | SetCursor(cursor: Cursor) | SetMode(on: bool)

  /** The cursor that a controller can show; an ST7070 has no blinking one. */
  function Visible(cursor: Cursor, st7070: bool): Cursor {
    if st7070 && cursor == 1 then 0 else if st7070 && cursor == 3 then 2 else cursor
  }

  function Done(p: Panel, st7070: bool, s: Screen, op: Op): (t: Screen)
    requires IsScreen(p, s)
    ensures IsScreen(p, t)
  {
    match op
    case Putc(v) => Typed(p, s, v)
    case Locate(c, r) => Located(p, s, c, r)
    case Cls => Cleared(p, s)
    case SetCursor(c) => s.(cursor := Visible(c, st7070))
    case SetMode(on) => s.(displayOn := on)
  }

  function AllDone(p: Panel, st7070: bool, s: Screen, ops: seq<Op>): (t: Screen)
    requires IsScreen(p, s)
    ensures IsScreen(p, t)
    decreases |ops|
  {
    if ops == [] then s else AllDone(p, st7070, Done(p, st7070, s, ops[0]), ops[1..])
  }

  // ---------------------------------------------------------------- what the memory shows

  predicate Wired(p: Panel, ctrls: seq<Controller>) {
    Fits(p) && |ctrls| == 2 && |ctrls[0].ddram| == |ctrls[1].ddram| == DDRAM_SIZE
  }

  /** The memory at the address of a cell. */
  function CellValue(p: Panel, ctrls: seq<Controller>, c: nat, r: nat): int
    requires Wired(p, ctrls) && Cell(p, c, r)
  {
    AddressInjective(p, c, r, c, r);
    ctrls[CtrlOf(p, r)].ddram[Address(p, c, r)]
  }

  /** What the display shows: at every cell, the memory at its address. */
  function GridOf(p: Panel, ctrls: seq<Controller>): (g: seq<seq<int>>)
    requires Wired(p, ctrls)
    ensures |g| == p.rows && forall r :: 0 <= r < p.rows ==> |g[r]| == p.cols
    ensures forall r, c :: 0 <= r < p.rows && 0 <= c < p.cols ==> g[r][c] == CellValue(p, ctrls, c, r)
  {
    seq(p.rows, r requires 0 <= r < p.rows => seq(p.cols, c requires 0 <= c < p.cols => CellValue(p, ctrls, c, r)))
  }

  lemma SameGrid(g: seq<seq<int>>, h: seq<seq<int>>)
    requires |g| == |h| && forall r :: 0 <= r < |g| ==> |g[r]| == |h[r]|
    requires forall r, c :: 0 <= r < |g| && 0 <= c < |g[r]| ==> g[r][c] == h[r][c]
    ensures g == h
  {
    forall r | 0 <= r < |g| ensures g[r] == h[r] {
    }
  }

  /** Writing at the address of a cell changes that cell and no other. */
  lemma StoreShows(p: Panel, ctrls: seq<Controller>, c: nat, r: nat, value: int, next: nat)
    requires Wired(p, ctrls) && Cell(p, c, r) && ctrls[CtrlOf(p, r)].ac == Address(p, c, r) < DDRAM_SIZE
    ensures var k := CtrlOf(p, r);
            var after := ctrls[k := Store(ctrls[k], value, next)];
            Wired(p, after) && GridOf(p, after) == GridOf(p, ctrls)[r := GridOf(p, ctrls)[r][c := value]]
  {
    hide Address, CtrlOf, CellValue;
    StoreCell(p, ctrls, c, r, value, next, c, r);
    var k := CtrlOf(p, r);
    var after := ctrls[k := Store(ctrls[k], value, next)];
    var g, h := GridOf(p, after), GridOf(p, ctrls)[r := GridOf(p, ctrls)[r][c := value]];
    forall r', c' | 0 <= r' < p.rows && 0 <= c' < p.cols
      ensures g[r'][c'] == h[r'][c']
    {
      StoreCell(p, ctrls, c, r, value, next, c', r');
    }
    SameGrid(g, h);
  }

  lemma StoreCell(p: Panel, ctrls: seq<Controller>, c: nat, r: nat, value: int, next: nat, c': nat, r': nat)
    requires Wired(p, ctrls) && Cell(p, c, r) && Cell(p, c', r') &&
             ctrls[CtrlOf(p, r)].ac == Address(p, c, r) < DDRAM_SIZE
    ensures var k := CtrlOf(p, r);
            k < 2 &&
            var after := ctrls[k := Store(ctrls[k], value, next)];
            Wired(p, after) && CellValue(p, after, c', r') == if c' == c &&
            r' == r then value else CellValue(p, ctrls, c', r')
  {
    hide Address;
    AddressInjective(p, c, r, c', r');
    AddressInjective(p, c', r', c', r');
  }

  /** What is shown depends on the memories alone. */
  lemma SameShows(p: Panel, ctrls: seq<Controller>, after: seq<Controller>)
    requires Wired(p, ctrls) && |after| == 2 && after[0].ddram == ctrls[0].ddram && after[1].ddram == ctrls[1].ddram
    ensures Wired(p, after) && GridOf(p, after) == GridOf(p, ctrls)
  {
    hide Address;
    SameGrid(GridOf(p, after), GridOf(p, ctrls));
  }

  lemma BlankShows(p: Panel, ctrls: seq<Controller>)
    requires Wired(p, ctrls) && ctrls[0].ddram == Blank() && (p.mode.ModeE? ==> ctrls[1].ddram == Blank())
    ensures GridOf(p, ctrls) == BlankGrid(p)
  {
    hide Address;
    forall r, c | 0 <= r < p.rows && 0 <= c < p.cols
      ensures GridOf(p, ctrls)[r][c] == BlankGrid(p)[r][c]
    {
      AddressInjective(p, c, r, c, r);
    }
    SameGrid(GridOf(p, ctrls), BlankGrid(p));
  }

  /** The controller has the display on or off and shows the cursor, as far as it can. */
  predicate Configured(c: Controller, on: bool, cursor: Cursor, st7070: bool) {
    (IsOn(c) <==> on) && CursorOf(c) == Visible(cursor, st7070)
  }

  // ---------------------------------------------------------------- the driver

  class TextLCD {
    const panel: Panel
    const st7070: bool
    var ctrls: seq<Controller>
    var ctrlIdx: nat
    var column: nat
    var row: nat
    var currentCursor: Cursor
    var currentMode: bool

    /** The counter of the controller in use is the address of the cursor's cell; that
        controller shows the cursor, and on a panel with two the other one hides it. */
    ghost predicate Valid()
      reads this
    {
      Wired(panel, ctrls) && Cell(panel, column, row) && ctrlIdx == CtrlOf(panel, row) &&
      ctrls[ctrlIdx].ac == Address(panel, column, row) < DDRAM_SIZE && Cursors() && OneCursor()
    }

    ghost predicate Cursors()
      reads this
      requires |ctrls| == 2 && ctrlIdx <= 1
    {
      Configured(ctrls[ctrlIdx], currentMode, currentCursor, st7070) &&
      (panel.mode.ModeE? ==> Configured(ctrls[1 - ctrlIdx], currentMode, CUR_OFF, st7070))
    }

    /** What a reader of the display sees: memories and registers of the controllers. */
    ghost function Shown(): (s: Screen)
      requires Wired(panel, ctrls) && Cell(panel, column, row) && ctrlIdx <= 1
      reads this
      ensures IsScreen(panel, s)
    {
      Screen(GridOf(panel, ctrls), column, row, CursorOf(ctrls[ctrlIdx]), IsOn(ctrls[ctrlIdx]))
    }

    /** With two controllers both displays are on or off, and only one cursor is seen. */
    ghost predicate OneCursor()
      requires |ctrls| == 2 && ctrlIdx <= 1
      reads this
    {
      panel.mode.ModeE? ==>
        (IsOn(ctrls[0]) <==> IsOn(ctrls[1])) && CursorOf(ctrls[1 - ctrlIdx]) == CUR_OFF
    }

    /** The controllers after _initCtrl, then cls: the end of _init. */
    constructor (p: Panel, st: bool, first: Controller, second: Controller)
      requires Wired(p, [first, second])
      requires Configured(first, true, 2, st) && Configured(second, true, 2, st)
      ensures Valid() && panel == p && st7070 == st
      ensures Shown() == Screen(BlankGrid(p), 0, 0, 2, true)
    {
      panel, st7070, ctrls, ctrlIdx, column, row, currentCursor, currentMode := p, st, [first, second], 0, 0, 0, 2,
          true;
      new;
      Clear();
    }

    /** _writeCommand */
    method WriteCommand(command: nat)
      requires |ctrls| == 2 && ctrlIdx <= 1
      modifies this`ctrls
      ensures ctrls == old(ctrls)[ctrlIdx := Obey(old(ctrls)[ctrlIdx], command)]
    {
      ctrls := ctrls[ctrlIdx := Obey(ctrls[ctrlIdx], command)];
    }

    /** _setCursorAndDisplayMode */
    method SetCursorAndDisplayMode(displayMode: bool, cursorType: Cursor)
      requires |ctrls| == 2 && ctrlIdx <= 1
      modifies this`ctrls
      ensures |ctrls| == 2 && Configured(ctrls[ctrlIdx], displayMode, cursorType, st7070)
      ensures ctrls == old(ctrls)[ctrlIdx := old(ctrls)[ctrlIdx].(control := ctrls[ctrlIdx].control)]
    {
      WriteCommand(0x08 + (if displayMode then 0x04 else 0) + if st7070 then cursorType - cursorType % 2
                   else cursorType);
    }

    /** getAddress: the address, after switching to the controller that holds it. */
    method GetAddress(c: nat, r: nat) returns (addr: nat)
      requires Wired(panel, ctrls) && Cell(panel, c, r) && ctrlIdx <= 1 && (!panel.mode.ModeE? ==> ctrlIdx == 0) &&
               Cursors()
      modifies this`ctrls, this`ctrlIdx
      ensures addr == Address(panel, c, r) && ctrlIdx == CtrlOf(panel, r) && |ctrls| == 2 && Cursors()
      ensures forall i :: 0 <= i < 2 ==> ctrls[i].ddram == old(ctrls)[i].ddram
    {
      match panel.mode {
        case ModeA =>
          addr := if r == 0 then 0x00 + c else if r == 1 then 0x40 + c
                  else if r == 2 then 0x00 + panel.cols + c else 0x40 + panel.cols + c;
        case ModeB => addr := if r == 0 then 0x00 + c else 0x08 + c;
        case ModeC => addr := if c < panel.cols / 2 then 0x00 + c else 0x40 + (c - panel.cols / 2);
        case ModeD => addr := if r == 0 then 0x00 + c else if r == 1 then 0x20 + c else if r == 2 then 0x40 + c
                      else 0x60 + c;
        case ModeD1 => addr := if r == 0 then 0x20 + c else if r == 1 then 0x40 + c else 0x60 + c;
        case ModeE =>
          SwitchTo(if r < 2 then 0 else 1);
          addr := if r < 2 then r * 0x40 + c else (r - 2) * 0x40 + c;
        case ModeF =>
          addr := if r == 0 then 0x00 + c else if r == 1 then 0x40 + c
                  else if c < panel.cols / 2 then 0x00 + panel.cols + c
                  else 0x40 + panel.cols + (c - panel.cols / 2);
        case ModeG => addr := if r == 0 then 0x00 + c else if r == 1 then 0x10 + c else 0x20 + c;
      }
    }

    /** The cursor goes off on the old controller and on again on the new one. */
    method SwitchTo(idx: nat)
      requires |ctrls| == 2 && ctrlIdx <= 1 && idx <= 1 && Cursors() && panel.mode.ModeE?
      modifies this`ctrls, this`ctrlIdx
      ensures ctrlIdx == idx && |ctrls| == 2 && Cursors()
      ensures forall i :: 0 <= i < 2 ==> ctrls[i].ddram == old(ctrls)[i].ddram
    {
      if ctrlIdx != idx {
        SetCursorAndDisplayMode(currentMode, CUR_OFF);
        ctrlIdx := idx;
        SetCursorAndDisplayMode(currentMode, currentCursor);
      }
    }

    /** The end of _putc and setAddress: the counter goes to the cursor's cell. */
    method ShowCursor()
      requires Wired(panel, ctrls) && Cell(panel, column, row) && ctrlIdx <= 1 &&
               (!panel.mode.ModeE? ==> ctrlIdx == 0) && Cursors()
      modifies this`ctrls, this`ctrlIdx
      ensures Valid() && Shown() == old(Shown())
    {
      hide Address, GridOf;
      ghost var before := ctrls;
      var addr := GetAddress(column, row);
      AddressInjective(panel, column, row, column, row);
      WriteCommand(0x80 + addr);
      SameShows(panel, before, ctrls);
    }

    /** setAddress, and locate, which only calls it */
    method SetAddress(c: int, r: int)
      requires Wired(panel, ctrls) && Cell(panel, column, row) && ctrlIdx <= 1 &&
               (!panel.mode.ModeE? ==> ctrlIdx == 0) && Cursors()
      modifies this
      ensures Valid() && Shown() == Located(panel, old(Shown()), c, r)
    {
      hide Address, GridOf;
      column := if c < 0 then 0 else if c >= panel.cols then panel.cols - 1 else c;
      row := if r < 0 then 0 else if r >= panel.rows then panel.rows - 1 else r;
      ShowCursor();
    }

    /** _putc, with the default font. */
    method PutC(value: int)
      requires Valid()
      modifies this
      ensures Valid() && Shown() == Typed(panel, old(Shown()), value)
    {
      hide Address, GridOf;
      if value == 10 {
        column := 0;
        row := row + 1;
        if row >= panel.rows { row := 0; }
      } else {
        WriteData(value);
        column := column + 1;
        if column >= panel.cols {
          column := 0;
          row := row + 1;
          if row >= panel.rows { row := 0; }
        }
      }
      ShowCursor();
    }

    /** _writeData, to the cell of the cursor: the bus carries the low byte. */
    method WriteData(value: int)
      requires Valid()
      modifies this`ctrls
      ensures Wired(panel, ctrls) && Cursors()
      ensures GridOf(panel, ctrls) == old(GridOf(panel, ctrls)[row := GridOf(panel, ctrls)[row][column := value % 256]])
    {
      hide Address, GridOf;
      var next: nat := *;
      var data := value % 256;
      StoreShows(panel, ctrls, column, row, data, next);
      ctrls := ctrls[ctrlIdx := Store(ctrls[ctrlIdx], data, next)];
    }

    /** cls, from any memory. */
    method Clear()
      requires Wired(panel, ctrls) && Cell(panel, column, row) && ctrlIdx <= 1 &&
               (!panel.mode.ModeE? ==> ctrlIdx == 0 && Cursors())
      modifies this
      ensures Valid() && Shown() == Screen(BlankGrid(panel), 0, 0, Visible(old(currentCursor), st7070),
                                           old(currentMode))
      ensures old(Cursors()) ==> Shown() == Cleared(panel, old(Shown()))
    {
      hide Address, GridOf;
      if panel == LCD40X4 {
        ctrlIdx := 1;
        SetCursorAndDisplayMode(currentMode, CUR_OFF);
        WriteCommand(0x01);
        ctrlIdx := 0;
      }
      WriteCommand(0x01);
      if panel == LCD40X4 { SetCursorAndDisplayMode(currentMode, currentCursor); }
      BlankShows(panel, ctrls);
      SetAddress(0, 0);
    }

    method SetCursor(cursorMode: Cursor)
      requires Valid()
      modifies this
      ensures Valid() && Shown() == old(Shown()).(cursor := Visible(cursorMode, st7070))
    {
      hide Address, GridOf;
      ghost var before := ctrls;
      currentCursor := cursorMode;
      SetCursorAndDisplayMode(currentMode, currentCursor);
      SameShows(panel, before, ctrls);
    }

    method SetMode(displayMode: bool)
      requires Valid()
      modifies this
      ensures Valid() && Shown() == old(Shown()).(displayOn := displayMode)
    {
      hide Address, GridOf;
      ghost var before := ctrls;
      currentMode := displayMode;
      if panel == LCD40X4 {
        if ctrlIdx == 0 {
          SetCursorAndDisplayMode(currentMode, currentCursor);
          ctrlIdx := 1;
          SetCursorAndDisplayMode(currentMode, CUR_OFF);
          ctrlIdx := 0;
        } else {
          ctrlIdx := 0;
          SetCursorAndDisplayMode(currentMode, CUR_OFF);
          ctrlIdx := 1;
          SetCursorAndDisplayMode(currentMode, currentCursor);
        }
      } else {
        SetCursorAndDisplayMode(currentMode, currentCursor);
      }
      SameShows(panel, before, ctrls);
    }

    /** Any sequence of operations: at every cell of the panel, the memory holds what the plain
        grid holds, and the controller in use stands at the cursor. */
    method Perform(ops: seq<Op>)
      requires Valid()
      modifies this
      ensures Valid() && Shown() == AllDone(panel, st7070, old(Shown()), ops)
    {
      hide Address, GridOf, Typed, Located, Cleared;
      ghost var start := Shown();
      assert ops[0..] == ops;
      for i := 0 to |ops|
        invariant Valid() && AllDone(panel, st7070, Shown(), ops[i..]) == AllDone(panel, st7070, start, ops)
      {
        assert ops[i..][1..] == ops[i + 1..];
        match ops[i] {
          case Putc(v) => PutC(v);
          case Locate(c, r) => SetAddress(c, r);
          case Cls => Clear();
          case SetCursor(c) => SetCursor(c);
          case SetMode(on) => SetMode(on);
        }
      }
    }
  }
}
