/**
 * The driver handle `LCD_handle` and its public operations (lcd5110.c).
 * The handle's pin and bus references are left out. What the bus carries
 * is recorded in the ghost `trace`, one event per `LCD_command` or
 * `LCD_data` call, and the ghost `panel` is the receiving controller after
 * those events.
 */
module Lcd5110 {
  import opened Geometry
  import opened Bits
  import opened Framebuffer
  import opened Dirty
  import opened Protocol
  import opened Controller

  class Display {
    /** `buffer[LCD_WIDTH * LCD_HEIGHT / 8]`, embedded in the handle. */
    const buffer: array<bv8>
    var updateRequired: bool
    var updateMinX: uint8
    var updateMinY: uint8
    var updateMaxX: uint8
    var updateMaxY: uint8
    /** Everything sent to the panel so far, oldest first. */
    ghost var trace: seq<Event>
    /** The panel controller after receiving `trace`. */
    ghost var panel: Device

    /** The dirty fields of the handle as one value. */
    function DirtyRegion(): Region
      reads this
    {
      Region(updateRequired, updateMinX, updateMinY, updateMaxX, updateMaxY)
    }

    ghost predicate Valid()
      reads this
    {
      buffer.Length == BufferSize && DirtyRegion().Valid() && |panel.ram| == BufferSize
    }

    /**
     * The panel is in basic mode and its RAM agrees with the buffer on
     * every byte outside the dirty region: what the dirty region is for.
     */
    ghost predicate PanelInSync()
      reads this, buffer
    {
      Valid() && !panel.extended && InSync(panel.ram, buffer[..], DirtyRegion())
    }

    /**
     * A handle before `LCD_init`: buffer holding `contents`, no update
     * pending, nothing sent, and a panel in an arbitrary state.
     */
    constructor (contents: seq<bv8>, ghost initial: Device)
      requires |contents| == BufferSize && |initial.ram| == BufferSize
      ensures Valid() && fresh(buffer)
      ensures buffer[..] == contents && !updateRequired && trace == [] && panel == initial
    {
      buffer := new bv8[BufferSize](i requires 0 <= i < BufferSize => contents[i]);
      updateRequired := false;
      updateMinX, updateMinY, updateMaxX, updateMaxY := 0, 0, 0, 0;
      trace := [];
      panel := initial;
    }

    /** `LCD_command`: one command byte on the bus. */
    method Command(command: bv8)
      modifies this`trace
      ensures trace == old(trace) + [Cmd(command)]
    {
      trace := trace + [Cmd(command)];
    }

    /** `LCD_data`: one burst of `size` buffer bytes starting at `offset`. */
    method SendData(offset: nat, size: nat) returns (ghost sent: seq<bv8>)
      requires offset + size <= buffer.Length
      modifies this`trace
      ensures sent == buffer[..][offset .. offset + size]
      ensures trace == old(trace) + [Data(sent)]
    {
      sent := buffer[offset .. offset + size];
      trace := trace + [Data(sent)];
    }

    /** `LCD_setContrast`: clamp to 0x7f, then extended mode, Vop, basic mode. */
    method SetContrast(contrast: uint8)
      requires Valid()
      modifies this`trace, this`panel
      ensures Valid()
      ensures trace == old(trace) + ContrastCommands(contrast)
      ensures panel == Run(old(panel), ContrastCommands(contrast))
      ensures panel == old(panel).(vop := Min(contrast, 0x7f), extended := false)
      ensures old(PanelInSync()) ==> PanelInSync()
    {
      var c := contrast;
      if c > MaxContrast {
        c := MaxContrast;
      }
      Command(FUNCTIONSET | EXTENDED_INSTRUCTION);
      Command(SETVOP | c as bv8);
      Command(FUNCTIONSET);
      ContrastEffect(panel, contrast);
      panel := Run(panel, ContrastCommands(contrast));
    }

    /** `LCD_setBias`: clamp to 7, then extended mode, bias, basic mode. */
    method SetBias(bias: uint8)
      requires Valid()
      modifies this`trace, this`panel
      ensures Valid()
      ensures trace == old(trace) + BiasCommands(bias)
      ensures panel == Run(old(panel), BiasCommands(bias))
      ensures panel == old(panel).(bias := Min(bias, 7), extended := false)
      ensures old(PanelInSync()) ==> PanelInSync()
    {
      var b := bias;
      if b > MaxBias {
        b := MaxBias;
      }
      Command(FUNCTIONSET | EXTENDED_INSTRUCTION);
      Command(SETBIAS | b as bv8);
      Command(FUNCTIONSET);
      BiasEffect(panel, bias);
      panel := Run(panel, BiasCommands(bias));
    }

    /**
     * `LCD_setInverted`: a single display-control command. In basic mode
     * the panel ends up inverted exactly when the argument is false.
     */
    method SetInverted(inverted: bool)
      requires Valid()
      modifies this`trace, this`panel
      ensures Valid()
      ensures trace == old(trace) + [Cmd(InvertedCommand(inverted))]
      ensures panel == Run(old(panel), [Cmd(InvertedCommand(inverted))])
      ensures !old(panel).extended ==> panel == old(panel).(inverted := !inverted)
      ensures old(PanelInSync()) ==> PanelInSync()
    {
      if inverted {
        Command(DISPLAYCONTROL | DISPLAYNORMAL);
      } else {
        Command(DISPLAYCONTROL | DISPLAYINVERTED);
      }
      if !panel.extended {
        InvertedEffect(panel, inverted);
      }
      panel := Run(panel, [Cmd(InvertedCommand(inverted))]);
    }

    /**
     * `LCD_setPixel` with the coordinate clamp corrected to the last
     * column and row: draws the pixel into the buffer and grows the dirty
     * region to cover it. Nothing is sent.
     */
    method SetPixel(x: uint8, y: uint8, color: Color)
      requires Valid()
      modifies buffer, this`updateRequired, this`updateMinX, this`updateMinY, this`updateMaxX, this`updateMaxY
      ensures Valid()
      ensures buffer[..] == WritePixel(old(buffer[..]), ClampX(x), ClampY(y), color)
      ensures DirtyRegion() == Include(old(DirtyRegion()), ClampX(x), ClampY(y))
      ensures trace == old(trace) && panel == old(panel)
      ensures old(PanelInSync()) ==> PanelInSync()
    {
      var px := x;
      var py := y;
      if px >= Width {
        px := Width - 1;
      }
      if py >= Height {
        py := Height - 1;
      }

      Plot(px, py, color);
      Grow(px, py);

      if old(PanelInSync()) {
        PixelWriteKeepsSync(panel.ram, old(buffer[..]), old(DirtyRegion()), px, py, color);
      }
    }

    /** The bit write of `LCD_setPixel`: set the pixel's bit for black, clear it for white. */
    method Plot(px: uint8, py: uint8, color: Color)
      requires Valid() && px < Width && py < Height
      modifies buffer
      ensures buffer[..] == WritePixel(old(buffer[..]), px, py, color)
    {
      var i := px + (py / 8) * Width;
      ghost var painted := WritePixel(buffer[..], px, py, color);
      assert i == PixelIndex(px, py) && painted == buffer[..][i := Paint(buffer[i], py % 8, color)];
      if color == Black {
        buffer[i] := SetBit(buffer[i], py % 8);
      } else {
        buffer[i] := ClearBit(buffer[i], py % 8);
      }
      assert buffer[..] == painted;
    }

    /**
     * The dirty-region update of `LCD_setPixel`: a single-pixel region when
     * nothing was pending, otherwise the old bounds widened to the pixel.
     */
    method Grow(px: uint8, py: uint8)
      requires Valid() && px < Width && py < Height
      modifies this`updateRequired, this`updateMinX, this`updateMinY, this`updateMaxX, this`updateMaxY
      ensures Valid()
      ensures DirtyRegion() == Include(old(DirtyRegion()), px, py)
    {
      if !updateRequired {
        updateMinX, updateMaxX := px, px;
        updateMinY, updateMaxY := py, py;
        updateRequired := true;
      } else {
        updateMinX := Min(px, updateMinX);
        updateMinY := Min(py, updateMinY);
        updateMaxX := Max(px, updateMaxX);
        updateMaxY := Max(py, updateMaxY);
      }
    }

    /**
     * `LCD_update`: when an update is pending, send every page of the dirty
     * region in ascending order and clear the pending flag; otherwise do
     * nothing. The buffer and the region's bounds are left as they were,
     * and a panel that was in sync now shows the whole buffer.
     */
    method Update()
      requires Valid()
      modifies this`trace, this`panel, this`updateRequired
      ensures Valid() && !updateRequired
      ensures trace == old(trace) + Flush(buffer[..], old(DirtyRegion()))
      ensures !old(updateRequired) ==> trace == old(trace) && panel == old(panel)
      ensures panel == Run(old(panel), Flush(buffer[..], old(DirtyRegion())))
      ensures old(PanelInSync()) ==> PanelInSync() && panel.ram == buffer[..]
    {
      if !updateRequired {
        assert Flush(buffer[..], DirtyRegion()) == [];
        return;
      }

      var minPage: uint8 := updateMinY / 8;
      var maxPage: uint8 := updateMaxY / 8;
      ghost var buf := buffer[..];
      ghost var region := DirtyRegion();
      ghost var start := trace;

      var page: uint8 := minPage;
      while page <= maxPage
        invariant minPage <= page <= maxPage + 1
        invariant panel == old(panel) && buffer[..] == buf
        invariant trace == start + FlushPages(buf, updateMinX, updateMaxX, minPage, page)
      {
        SendPage(page, updateMinX, updateMaxX);
        FlushPagesNext(start, buf, updateMinX, updateMaxX, minPage, page);
        page := page + 1;
      }

      updateRequired := false;
      if old(PanelInSync()) {
        FlushSynchronises(panel, buf, region);
      }
      panel := Run(panel, Flush(buf, region));
    }

    /**
     * One iteration of the page loop of `LCD_update`: address the page and
     * its first dirty column, send the dirty columns, rewind the row address.
     */
    method SendPage(page: uint8, minColumn: uint8, maxColumn: uint8)
      requires Valid() && page < PageCount && minColumn <= maxColumn < Width
      modifies this`trace
      ensures trace == old(trace) + PageWrite(buffer[..], page, minColumn, maxColumn)
    {
      var pageCommand := SETYADDR | page as bv8;
      var columnCommand := SETXADDR | minColumn as bv8;
      ghost var t0 := trace;
      Command(pageCommand);
      ghost var t1 := trace;
      Command(columnCommand);
      ghost var t2 := trace;
      ghost var burst := SendData(Width * page + minColumn, (maxColumn - minColumn) + 1);
      ghost var t3 := trace;
      Command(SETYADDR);
      AppendFour(t0, t1, t2, t3, trace, Cmd(pageCommand), Cmd(columnCommand), Data(burst), Cmd(SETYADDR));
    }

    /**
     * `LCD_init` without the pin and delay calls: the reset pulse, default
     * bias and contrast, the display-control command, then the whole screen
     * marked dirty and flushed. The buffer is sent as it is; it is not
     * cleared. Whatever state the panel was in, it then shows the buffer.
     */
    method Init()
      requires Valid()
      modifies this`trace, this`panel, this`updateRequired, this`updateMinX, this`updateMinY, this`updateMaxX, this`updateMaxY
      ensures Valid() && !updateRequired
      ensures DirtyRegion() == FullScreen.(required := false)
      ensures trace == old(trace) + InitSequence(buffer[..])
      ensures panel == Run(old(panel), InitSequence(buffer[..]))
      ensures PanelInSync() && panel.ram == buffer[..]
      ensures panel.bias == 4 && panel.vop == 50 && !panel.inverted
    {
      ghost var p0 := panel;
      ghost var t0 := trace;
      ghost var buf := buffer[..];
      trace := trace + [HardwareReset];
      panel := Run(panel, [HardwareReset]);

      SetBias(DefaultBias);
      SetContrast(DefaultContrast);
      SetInverted(true);
      assert buffer[..] == buf;
      ghost var p4 := panel;
      ghost var t4 := trace;
      assert t4 == t0 + InitCommands();

      updateRequired := true;
      updateMinX := 0;
      updateMinY := 0;
      updateMaxX := Width - 1;
      updateMaxY := Height - 1;

      Update();
      assert buffer[..] == buf;
      ghost var flush := Flush(buf, FullScreen);
      assert panel == Run(p4, flush);
      assert trace == t4 + flush;
      AppendAssoc(t0, InitCommands(), flush);

      RunInitSequence(p0, buf);
      InitSynchronises(p0, buf);
      assert panel == Run(p0, InitSequence(buf));
    }
  }
}
