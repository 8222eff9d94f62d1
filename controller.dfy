/**
 * The receiving side of the bus, as far as the driver's opcodes define it:
 * a decoder for the command bytes and a display RAM that data bursts are
 * written into. It is the reference against which the driver's traffic is
 * judged: mode setters change exactly the register they name, and a flush
 * leaves the display RAM equal to the framebuffer.
 */
module Controller {
  import opened Geometry
  import opened Bits
  import opened Dirty
  import opened Framebuffer
  import opened Protocol

  datatype Option<T> = None | Some(value: T)

  /** The instructions the driver's opcodes select. */
  datatype Instruction =
    | FunctionSet(extended: bool)
    | DisplayControl(inverted: bool)
    | SetYAddress(page: nat)
    | SetXAddress(column: nat)
    | SetBias(bias: nat)
    | SetVop(vop: nat)

  /**
   * Meaning of command byte `b` in basic (`extended == false`) or extended
   * mode. 0x80 | v is a column address in basic mode and a Vop value in
   * extended mode, so the mode decides; bytes outside the driver's opcodes
   * decode to None.
   */
  function Decode(extended: bool, b: bv8): Option<Instruction>
  {
    if b & SETXADDR != 0 then
      if extended then Some(SetVop((b & 0x7f) as nat)) else Some(SetXAddress((b & 0x7f) as nat))
    else if b & 0xfe == FUNCTIONSET then
      Some(FunctionSet(b & EXTENDED_INSTRUCTION != 0))
    else if extended then
      if b & 0xf8 == SETBIAS then Some(SetBias((b & 0x07) as nat)) else None
    else if b & 0xc0 == SETYADDR then
      Some(SetYAddress((b & 0x3f) as nat))
    else if b & 0xfe == DISPLAYCONTROL | DISPLAYNORMAL then
      Some(DisplayControl(b & 0x01 != 0))
    else
      None
  }

  /** Registers and RAM of the panel controller: mode, address cursor, Vop, bias, polarity, 504 bytes of RAM. */
  datatype Device = Device(extended: bool, page: nat, column: nat, vop: nat, bias: nat, inverted: bool, ram: seq<bv8>)

  function Execute(d: Device, i: Instruction): Device
  {
    match i
    case FunctionSet(e) => d.(extended := e)
    case DisplayControl(inv) => d.(inverted := inv)
    case SetYAddress(p) => d.(page := p)
    case SetXAddress(c) => d.(column := c)
    case SetBias(b) => d.(bias := b)
    case SetVop(v) => d.(vop := v)
  }

  /** Stores `bytes` at consecutive RAM addresses from `addr`, wrapping from the last byte to the first. */
  function WriteBurst(ram: seq<bv8>, addr: nat, bytes: seq<bv8>): (r: seq<bv8>)
    requires |ram| == BufferSize && addr < BufferSize
    ensures |r| == BufferSize
    decreases |bytes|
  {
    if bytes == [] then ram else WriteBurst(ram[addr := bytes[0]], (addr + 1) % BufferSize, bytes[1..])
  }

  /** Effect of one bus event. Undecodable commands and the reset pulse leave the modelled state alone. */
  function Step(d: Device, e: Event): (d': Device)
    requires |d.ram| == BufferSize
    ensures |d'.ram| == BufferSize
  {
    match e
    case Cmd(b) =>
      (match Decode(d.extended, b)
       case None => d
       case Some(i) => Execute(d, i))
    case Data(bytes) =>
      var addr := (Width * d.page + d.column) % BufferSize;
      var next := (addr + |bytes|) % BufferSize;
      d.(ram := WriteBurst(d.ram, addr, bytes), page := next / Width, column := next % Width)
    case HardwareReset => d
  }

  /** Effect of a trace, oldest event first. */
  function Run(d: Device, events: seq<Event>): (d': Device)
    requires |d.ram| == BufferSize
    ensures |d'.ram| == BufferSize
  {
    if events == [] then d else Step(Run(d, events[..|events| - 1]), events[|events| - 1])
  }

  lemma {:induction false} RunAppend(d: Device, a: seq<Event>, b: seq<Event>)
    requires |d.ram| == BufferSize
    ensures Run(d, a + b) == Run(Run(d, a), b)
    decreases |b|
  {
    if b == [] {
      assert a + b == a;
    } else {
      var b' := b[..|b| - 1];
      var ab := a + b;
      assert ab[..|ab| - 1] == a + b';
      assert ab[|ab| - 1] == b[|b| - 1];
      RunAppend(d, a, b');
    }
  }

  /** A burst that does not reach the end of RAM replaces exactly the bytes `addr .. addr + |bytes| - 1`. */
  lemma {:induction false} WriteBurstInPlace(ram: seq<bv8>, addr: nat, bytes: seq<bv8>)
    requires |ram| == BufferSize && addr + |bytes| <= BufferSize && addr < BufferSize
    ensures |WriteBurst(ram, addr, bytes)| == BufferSize
    ensures forall i :: 0 <= i < BufferSize ==>
              WriteBurst(ram, addr, bytes)[i] == if addr <= i < addr + |bytes| then bytes[i - addr] else ram[i]
    decreases |bytes|
  {
    if bytes != [] {
      var ram' := ram[addr := bytes[0]];
      var rest := bytes[1..];
      var r := WriteBurst(ram, addr, bytes);
      if rest == [] {
        assert WriteBurst(ram', (addr + 1) % BufferSize, rest) == ram';
      } else {
        InsideRam(addr + 1);
        assert r == WriteBurst(ram', addr + 1, rest);
        WriteBurstInPlace(ram', addr + 1, rest);
        forall i | 0 <= i < BufferSize
          ensures r[i] == if addr <= i < addr + |bytes| then bytes[i - addr] else ram[i]
        {
          if i == addr {
            assert r[i] == ram'[i] == bytes[0];
          } else if addr < i < addr + |bytes| {
            assert r[i] == rest[i - (addr + 1)] == bytes[i - addr];
          } else {
            assert r[i] == ram'[i] == ram[i];
          }
        }
      }
    }
  }

  /** Three command bytes in a row, one step each. */
  lemma RunThree(d: Device, a: Event, b: Event, c: Event)
    requires |d.ram| == BufferSize
    ensures Run(d, [a, b, c]) == Step(Step(Step(d, a), b), c)
  {
    assert [a][..0] == [];
    assert Run(d, [a]) == Step(d, a);
    assert [a, b][..1] == [a];
    assert Run(d, [a, b]) == Step(Step(d, a), b);
    assert [a, b, c][..2] == [a, b];
  }

  /**
   * `LCD_setContrast` sets Vop to the clamped contrast and leaves the
   * controller in basic mode, whatever mode it was in; nothing else changes.
   */
  lemma ContrastEffect(d: Device, contrast: uint8)
    requires |d.ram| == BufferSize
    ensures Run(d, ContrastCommands(contrast)) == d.(vop := Min(contrast, 0x7f), extended := false)
  {
    var v := Clamp(contrast, MaxContrast);
    OrField(SETVOP, v, 0x7f);
    RunThree(d, Cmd(0x21), Cmd(SETVOP | v as bv8), Cmd(0x20));
  }

  /** `LCD_setBias` sets the bias to the clamped value and leaves the controller in basic mode. */
  lemma BiasEffect(d: Device, bias: uint8)
    requires |d.ram| == BufferSize
    ensures Run(d, BiasCommands(bias)) == d.(bias := Min(bias, 7), extended := false)
  {
    var b := Clamp(bias, MaxBias);
    OrField(SETBIAS, b, 0x07);
    RunThree(d, Cmd(0x21), Cmd(SETBIAS | b as bv8), Cmd(0x20));
  }

  /**
   * In basic mode, `LCD_setInverted(inverted)` leaves the display inverted
   * exactly when `inverted` is false: the argument's sense is the opposite
   * of the polarity it selects.
   */
  lemma InvertedEffect(d: Device, inverted: bool)
    requires |d.ram| == BufferSize && !d.extended
    ensures Run(d, [Cmd(InvertedCommand(inverted))]) == d.(inverted := !inverted)
  {
    assert [Cmd(InvertedCommand(inverted))][..0] == [];
  }

  /** Byte i of RAM lies in a page and a column that a pending region `r` covers. */
  predicate Covers(r: Region, i: int)
  {
    r.required && r.minY / 8 <= i / Width <= r.maxY / 8 && r.minX <= i % Width <= r.maxX
  }

  /**
   * The display RAM agrees with the framebuffer on every byte the dirty
   * region does not cover; with nothing pending, they agree everywhere.
   */
  ghost predicate InSync(ram: seq<bv8>, buf: seq<bv8>, r: Region)
  {
    |ram| == BufferSize && |buf| == BufferSize &&
    forall i :: 0 <= i < BufferSize && !Covers(r, i) ==> ram[i] == buf[i]
  }

  /**
   * A pixel write keeps the RAM in sync with the buffer up to the grown
   * region: the only byte it changes is one the grown region covers.
   */
  lemma PixelWriteKeepsSync(ram: seq<bv8>, buf: seq<bv8>, r: Region, x: uint8, y: uint8, color: Color)
    requires InSync(ram, buf, r) && x < Width && y < Height
    ensures InSync(ram, WritePixel(buf, x, y, color), Include(r, x, y))
  {
    var buf' := WritePixel(buf, x, y, color);
    var r' := Include(r, x, y);
    forall i | 0 <= i < BufferSize && !Covers(r', i)
      ensures ram[i] == buf'[i]
    {
      assert !Covers(r, i);
      assert i != PixelIndex(x, y);
    }
  }

  /** In basic mode the page and column commands of a flush decode as addresses, and 0x40 rewinds to page 0. */
  lemma AddressDecoding(p: nat, column: nat)
    requires p < PageCount && column < Width
    ensures Decode(false, SETYADDR | p as bv8) == Some(SetYAddress(p))
    ensures Decode(false, SETXADDR | column as bv8) == Some(SetXAddress(column))
    ensures Decode(false, SETYADDR) == Some(SetYAddress(0))
  {
    OrField(SETYADDR, p, 0x3f);
    OrField(SETXADDR, column, 0x7f);
  }

  /** The RAM bytes `84 p + minX .. 84 p + maxX` are exactly those of page p in columns `minX .. maxX`. */
  lemma PageColumns(p: nat, minX: nat, maxX: nat, i: int)
    requires p < PageCount && minX <= maxX < Width && 0 <= i
    ensures (Width * p + minX <= i < Width * p + maxX + 1) <==> (i / Width == p && minX <= i % Width <= maxX)
  {
  }

  lemma RunFour(d: Device, a: Event, b: Event, c: Event, e: Event)
    requires |d.ram| == BufferSize
    ensures Run(d, [a, b, c, e]) == Step(Step(Step(Step(d, a), b), c), e)
  {
    RunThree(d, a, b, c);
    var events := [a, b, c, e];
    assert events[..|events| - 1] == [a, b, c];
    assert Run(d, events) == Step(Run(d, events[..|events| - 1]), events[|events| - 1]);
  }

  /**
   * In basic mode, one page write of a flush stores the columns
   * `minX .. maxX` of page p of the buffer into the same RAM bytes and
   * leaves every other byte, the mode, Vop, bias and polarity as they were.
   */
  lemma {:induction false} PageWriteEffect(d: Device, buf: seq<bv8>, p: nat, minX: nat, maxX: nat)
    requires |d.ram| == BufferSize && !d.extended
    requires |buf| == BufferSize && p < PageCount && minX <= maxX < Width
    ensures var d' := Run(d, PageWrite(buf, p, minX, maxX));
      !d'.extended && d'.vop == d.vop && d'.bias == d.bias && d'.inverted == d.inverted &&
      forall i :: 0 <= i < BufferSize ==>
        d'.ram[i] == if i / Width == p && minX <= i % Width <= maxX then buf[i] else d.ram[i]
  {
    var addr := Width * p + minX;
    var bytes := buf[addr .. Width * p + maxX + 1];
    AddressDecoding(p, minX);
    var d1 := Step(d, Cmd(SETYADDR | p as bv8));
    assert d1 == d.(page := p);
    var d2 := Step(d1, Cmd(SETXADDR | minX as bv8));
    assert d2 == d.(page := p, column := minX);
    var d3 := Step(d2, Data(bytes));
    PageBurstEffect(d2, buf, p, minX, maxX);
    var d4 := Step(d3, Cmd(SETYADDR));
    assert d4.ram == d3.ram;
    RunFour(d, Cmd(SETYADDR | p as bv8), Cmd(SETXADDR | minX as bv8), Data(bytes), Cmd(SETYADDR));
  }

  /** With the cursor at column `minX` of page p, the burst of a page write stores that page's dirty columns. */
  lemma PageBurstEffect(d: Device, buf: seq<bv8>, p: nat, minX: nat, maxX: nat)
    requires |d.ram| == BufferSize && d.page == p && d.column == minX
    requires |buf| == BufferSize && p < PageCount && minX <= maxX < Width
    ensures var d' := Step(d, Data(buf[Width * p + minX .. Width * p + maxX + 1]));
      d'.extended == d.extended && d'.vop == d.vop && d'.bias == d.bias && d'.inverted == d.inverted &&
      forall i :: 0 <= i < BufferSize ==>
        d'.ram[i] == if i / Width == p && minX <= i % Width <= maxX then buf[i] else d.ram[i]
  {
    var bytes := buf[Width * p + minX .. Width * p + maxX + 1];
    BurstEffect(d, bytes);
    forall i | 0 <= i < BufferSize
      ensures Step(d, Data(bytes)).ram[i] == if i / Width == p && minX <= i % Width <= maxX then buf[i] else d.ram[i]
    {
      PageColumns(p, minX, maxX, i);
    }
  }

  lemma InsideRam(addr: nat)
    requires addr < BufferSize
    ensures addr % BufferSize == addr
  {
  }

  /**
   * A data burst that stays inside RAM from the cursor on stores its bytes
   * there and changes no register but the cursor.
   */
  lemma BurstEffect(d: Device, bytes: seq<bv8>)
    requires |d.ram| == BufferSize && Width * d.page + d.column + |bytes| <= BufferSize
    requires Width * d.page + d.column < BufferSize
    ensures var d' := Step(d, Data(bytes));
      d'.extended == d.extended && d'.vop == d.vop && d'.bias == d.bias && d'.inverted == d.inverted &&
      forall i :: 0 <= i < BufferSize ==>
        d'.ram[i] == if Width * d.page + d.column <= i < Width * d.page + d.column + |bytes|
                     then bytes[i - (Width * d.page + d.column)] else d.ram[i]
  {
    var addr := Width * d.page + d.column;
    InsideRam(addr);
    assert Step(d, Data(bytes)).ram == WriteBurst(d.ram, addr, bytes);
    WriteBurstInPlace(d.ram, addr, bytes);
  }

  /**
   * In basic mode, a flush of pages `lo .. hi - 1` stores exactly the bytes
   * of those pages in columns `minX .. maxX` and returns to basic mode.
   */
  lemma {:induction false} FlushPagesEffect(d: Device, buf: seq<bv8>, minX: nat, maxX: nat, lo: nat, hi: nat)
    requires |d.ram| == BufferSize && !d.extended
    requires |buf| == BufferSize && minX <= maxX < Width && lo <= hi <= PageCount
    ensures var d' := Run(d, FlushPages(buf, minX, maxX, lo, hi));
      !d'.extended && d'.vop == d.vop && d'.bias == d.bias && d'.inverted == d.inverted &&
      forall i :: 0 <= i < BufferSize ==>
        d'.ram[i] == if lo <= i / Width < hi && minX <= i % Width <= maxX then buf[i] else d.ram[i]
    decreases hi
  {
    if hi != lo {
      var prefix := FlushPages(buf, minX, maxX, lo, hi - 1);
      FlushPagesEffect(d, buf, minX, maxX, lo, hi - 1);
      RunAppend(d, prefix, PageWrite(buf, hi - 1, minX, maxX));
      PageWriteEffect(Run(d, prefix), buf, hi - 1, minX, maxX);
    }
  }

  /**
   * The design invariant of the dirty region: if the RAM agrees with the
   * buffer outside the region, a flush in basic mode makes it agree
   * everywhere, and leaves Vop, bias and polarity alone.
   */
  lemma FlushSynchronises(d: Device, buf: seq<bv8>, r: Region)
    requires InSync(d.ram, buf, r) && r.Valid() && !d.extended
    ensures var d' := Run(d, Flush(buf, r));
      d'.ram == buf && !d'.extended && d'.vop == d.vop && d'.bias == d.bias && d'.inverted == d.inverted
  {
    if r.required {
      FlushPagesEffect(d, buf, r.minX, r.maxX, r.minY / 8, r.maxY / 8 + 1);
    } else {
      assert d.ram == buf;
    }
  }

  /**
   * Whatever state the panel was in, after the traffic of `LCD_init` its
   * RAM holds the framebuffer, bias is 4, Vop is 50, the display is not
   * inverted and the controller is in basic mode.
   */
  lemma InitSynchronises(d: Device, buf: seq<bv8>)
    requires |d.ram| == BufferSize && |buf| == BufferSize
    ensures var d' := Run(d, InitSequence(buf));
      d'.ram == buf && d'.bias == 4 && d'.vop == 50 && !d'.inverted && !d'.extended
  {
    var reset := [HardwareReset];
    var bias := BiasCommands(DefaultBias);
    var contrast := ContrastCommands(DefaultContrast);
    var normal := [Cmd(InvertedCommand(true))];
    var flush := Flush(buf, FullScreen);
    assert InitSequence(buf) == reset + bias + contrast + normal + flush;

    assert reset[..0] == [];
    var d0 := Run(d, reset);
    assert d0 == Step(Run(d, []), HardwareReset) == d;
    RunAppend(d, reset, bias);
    BiasEffect(d0, DefaultBias);
    var d1 := Run(d, reset + bias);
    RunAppend(d, reset + bias, contrast);
    ContrastEffect(d1, DefaultContrast);
    var d2 := Run(d, reset + bias + contrast);
    RunAppend(d, reset + bias + contrast, normal);
    InvertedEffect(d2, true);
    var d3 := Run(d, reset + bias + contrast + normal);
    RunAppend(d, reset + bias + contrast + normal, flush);
    assert InSync(d3.ram, buf, FullScreen);
    FlushSynchronises(d3, buf, FullScreen);
  }

  /** Running the traffic of `LCD_init` is running its five parts one after the other. */
  lemma RunInitSequence(d: Device, buf: seq<bv8>)
    requires |d.ram| == BufferSize && |buf| == BufferSize
    ensures Run(d, InitSequence(buf)) ==
      Run(Run(Run(Run(Run(d, [HardwareReset]), BiasCommands(DefaultBias)), ContrastCommands(DefaultContrast)),
              [Cmd(InvertedCommand(true))]), Flush(buf, FullScreen))
  {
    var reset := [HardwareReset];
    var bias := BiasCommands(DefaultBias);
    var contrast := ContrastCommands(DefaultContrast);
    var normal := [Cmd(InvertedCommand(true))];
    var flush := Flush(buf, FullScreen);
    assert InitSequence(buf) == reset + bias + contrast + normal + flush;
    RunAppend(d, reset, bias);
    RunAppend(d, reset + bias, contrast);
    RunAppend(d, reset + bias + contrast, normal);
    RunAppend(d, reset + bias + contrast + normal, flush);
  }
}
