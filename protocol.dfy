/**
 * The bus traffic of the driver. `LCD_command` and `LCD_data` (the only
 * routines that reach the serial bus) each append one event to a trace;
 * this module fixes the opcodes, the command sequences of the mode
 * setters and the sequence a flush emits for a dirty region.
 */
module Protocol {
  import opened Geometry
  import opened Bits
  import opened Dirty

  /** One bus transaction: a command byte, a data burst, or the reset pulse of initialisation. */
  datatype Event = Cmd(command: bv8) | Data(bytes: seq<bv8>) | HardwareReset

  const EXTENDED_INSTRUCTION: bv8 := 0x01
  const DISPLAYNORMAL: bv8 := 0x04
  const DISPLAYINVERTED: bv8 := 0x05
  const DISPLAYCONTROL: bv8 := 0x08
  const SETBIAS: bv8 := 0x10
  const FUNCTIONSET: bv8 := 0x20
  const SETYADDR: bv8 := 0x40
  const SETXADDR: bv8 := 0x80
  const SETVOP: bv8 := 0x80

  const MaxContrast: uint8 := 0x7f
  const MaxBias: uint8 := 0x07

  /** The saturating clamp of `LCD_setContrast` and `LCD_setBias`: values above `limit` become `limit`. */
  function Clamp(v: uint8, limit: uint8): (r: uint8)
    ensures r == Min(v, limit)
  {
    if v > limit then limit else v
  }

  /** Commands of `LCD_setContrast`: extended mode, Vop with the clamped value, basic mode. */
  function ContrastCommands(contrast: uint8): seq<Event>
  {
    [Cmd(FUNCTIONSET | EXTENDED_INSTRUCTION),
     Cmd(SETVOP | Clamp(contrast, MaxContrast) as bv8),
     Cmd(FUNCTIONSET)]
  }

  /** Commands of `LCD_setBias`: extended mode, bias with the clamped value, basic mode. */
  function BiasCommands(bias: uint8): seq<Event>
  {
    [Cmd(FUNCTIONSET | EXTENDED_INSTRUCTION),
     Cmd(SETBIAS | Clamp(bias, MaxBias) as bv8),
     Cmd(FUNCTIONSET)]
  }

  /** Command byte of `LCD_setInverted`: `true` selects the normal opcode, `false` the inverted one. */
  function InvertedCommand(inverted: bool): bv8
  {
    if inverted then DISPLAYCONTROL | DISPLAYNORMAL else DISPLAYCONTROL | DISPLAYINVERTED
  }

  /** The mode setters emit exactly the bytes 0x21, 0x80 | c, 0x20 and 0x21, 0x10 | b, 0x20, and 0x0C or 0x0D. */
  lemma ModeCommandBytes(contrast: uint8, bias: uint8)
    ensures ContrastCommands(contrast) == [Cmd(0x21), Cmd(0x80 | Min(contrast, 0x7f) as bv8), Cmd(0x20)]
    ensures BiasCommands(bias) == [Cmd(0x21), Cmd(0x10 | Min(bias, 7) as bv8), Cmd(0x20)]
    ensures contrast > 0x7f ==> ContrastCommands(contrast)[1] == Cmd(0xff)
    ensures bias > 7 ==> BiasCommands(bias)[1] == Cmd(0x17)
    ensures InvertedCommand(true) == 0x0C && InvertedCommand(false) == 0x0D
  {
  }

  /**
   * One page of a flush: select the page, select the first dirty column,
   * send the columns `minX..maxX` of that page, and rewind the row address to 0.
   */
  function PageWrite(buf: seq<bv8>, page: nat, minX: nat, maxX: nat): seq<Event>
    requires |buf| == BufferSize && page < PageCount && minX <= maxX < Width
  {
    [Cmd(SETYADDR | page as bv8),
     Cmd(SETXADDR | minX as bv8),
     Data(buf[Width * page + minX .. Width * page + maxX + 1]),
     Cmd(SETYADDR)]
  }

  /** The page writes for pages `lo .. hi - 1`, in ascending order. */
  function FlushPages(buf: seq<bv8>, minX: nat, maxX: nat, lo: nat, hi: nat): seq<Event>
    requires |buf| == BufferSize && minX <= maxX < Width && lo <= hi <= PageCount
    decreases hi
  {
    if hi == lo then [] else FlushPages(buf, minX, maxX, lo, hi - 1) + PageWrite(buf, hi - 1, minX, maxX)
  }

  /** One more iteration of the page loop extends the flush by the write of the next page. */
  lemma FlushPagesNext(start: seq<Event>, buf: seq<bv8>, minX: nat, maxX: nat, lo: nat, page: nat)
    requires |buf| == BufferSize && minX <= maxX < Width && lo <= page < PageCount
    ensures start + FlushPages(buf, minX, maxX, lo, page) + PageWrite(buf, page, minX, maxX)
            == start + FlushPages(buf, minX, maxX, lo, page + 1)
  {
    AppendAssoc(start, FlushPages(buf, minX, maxX, lo, page), PageWrite(buf, page, minX, maxX));
  }

  /** Everything `LCD_update` sends for a region: nothing when idle, else its pages. */
  function Flush(buf: seq<bv8>, r: Region): seq<Event>
    requires |buf| == BufferSize && r.Valid()
  {
    if !r.required then [] else FlushPages(buf, r.minX, r.maxX, r.minY / 8, r.maxY / 8 + 1)
  }

  /**
   * A flush of pages `lo .. hi - 1` is 4 events per page, and event i is
   * event i % 4 of the write of page lo + i / 4: pages go out one after the
   * other in ascending order.
   */
  lemma {:induction false} FlushPagesShape(buf: seq<bv8>, minX: nat, maxX: nat, lo: nat, hi: nat)
    requires |buf| == BufferSize && minX <= maxX < Width && lo <= hi <= PageCount
    ensures |FlushPages(buf, minX, maxX, lo, hi)| == 4 * (hi - lo)
    ensures forall i :: 0 <= i < 4 * (hi - lo) ==>
              FlushPages(buf, minX, maxX, lo, hi)[i] == PageWrite(buf, lo + i / 4, minX, maxX)[i % 4]
    decreases hi
  {
    if hi != lo {
      FlushPagesShape(buf, minX, maxX, lo, hi - 1);
      var prefix := FlushPages(buf, minX, maxX, lo, hi - 1);
      var all := FlushPages(buf, minX, maxX, lo, hi);
      assert all == prefix + PageWrite(buf, hi - 1, minX, maxX);
      forall i | 0 <= i < 4 * (hi - lo)
        ensures all[i] == PageWrite(buf, lo + i / 4, minX, maxX)[i % 4]
      {
        if i < 4 * (hi - 1 - lo) {
          assert all[i] == prefix[i];
        } else {
          assert lo + i / 4 == hi - 1;
        }
      }
    }
  }

  /** The four events of page p sit at offset 4 (p - lo) of the flush. */
  lemma FlushPagesAt(buf: seq<bv8>, minX: nat, maxX: nat, lo: nat, hi: nat, p: nat)
    requires |buf| == BufferSize && minX <= maxX < Width && lo <= p < hi <= PageCount
    ensures 4 * (p - lo) + 4 <= |FlushPages(buf, minX, maxX, lo, hi)|
    ensures FlushPages(buf, minX, maxX, lo, hi)[4 * (p - lo) .. 4 * (p - lo) + 4] == PageWrite(buf, p, minX, maxX)
  {
    FlushPagesShape(buf, minX, maxX, lo, hi);
    var f := FlushPages(buf, minX, maxX, lo, hi);
    var k := 4 * (p - lo);
    forall j | 0 <= j < 4
      ensures f[k + j] == PageWrite(buf, p, minX, maxX)[j]
    {
      assert (k + j) / 4 == p - lo && (k + j) % 4 == j;
    }
  }

  /** The data bytes of a trace, concatenated in order. */
  function Payload(events: seq<Event>): seq<bv8>
  {
    if events == [] then []
    else
      var last := events[|events| - 1];
      Payload(events[..|events| - 1]) + (if last.Data? then last.bytes else [])
  }

  lemma {:induction false} PayloadAppend(a: seq<Event>, b: seq<Event>)
    ensures Payload(a + b) == Payload(a) + Payload(b)
    decreases |b|
  {
    if b != [] {
      var b' := b[..|b| - 1];
      var ab := a + b;
      assert ab[..|ab| - 1] == a + b';
      assert ab[|ab| - 1] == b[|b| - 1];
      PayloadAppend(a, b');
    } else {
      assert a + b == a;
    }
  }

  /** The only data a page write carries is its burst. */
  lemma PageWritePayload(buf: seq<bv8>, page: nat, minX: nat, maxX: nat)
    requires |buf| == BufferSize && page < PageCount && minX <= maxX < Width
    ensures Payload(PageWrite(buf, page, minX, maxX)) == buf[Width * page + minX .. Width * page + maxX + 1]
  {
    var w := PageWrite(buf, page, minX, maxX);
    var bytes := buf[Width * page + minX .. Width * page + maxX + 1];
    assert Payload(w[..1]) == [] by { assert w[..1][..0] == []; }
    assert Payload(w[..2]) == [] by { assert w[..2][..1] == w[..1]; }
    assert Payload(w[..3]) == bytes by { assert w[..3][..2] == w[..2]; }
    assert w[..3] == w[..|w| - 1];
  }

  /**
   * A flush of full-width pages `lo .. hi - 1` transmits exactly the bytes
   * of those pages, in buffer order.
   */
  lemma {:induction false} FullWidthPayload(buf: seq<bv8>, lo: nat, hi: nat)
    requires |buf| == BufferSize && lo <= hi <= PageCount
    ensures Payload(FlushPages(buf, 0, Width - 1, lo, hi)) == buf[Width * lo .. Width * hi]
    decreases hi
  {
    if hi != lo {
      var prefix := FlushPages(buf, 0, Width - 1, lo, hi - 1);
      var page := PageWrite(buf, hi - 1, 0, Width - 1);
      FullWidthPayload(buf, lo, hi - 1);
      PayloadAppend(prefix, page);
      PageWritePayload(buf, hi - 1, 0, Width - 1);
      assert buf[Width * lo .. Width * hi] == buf[Width * lo .. Width * (hi - 1)] + buf[Width * (hi - 1) .. Width * hi];
    }
  }

  /** The region `LCD_init` marks dirty: the whole screen, (0, 0) to (83, 47). */
  const FullScreen: Region := Region(true, 0, 0, Width - 1, Height - 1)

  const DefaultBias: uint8 := 4
  const DefaultContrast: uint8 := 50

  /**
   * Everything `LCD_init` sends: the reset pulse, default bias, default
   * contrast, the display-control command (with argument `true`), then a
   * flush of the whole screen.
   */
  function InitSequence(buf: seq<bv8>): seq<Event>
    requires |buf| == BufferSize
  {
    InitCommands() + Flush(buf, FullScreen)
  }

  /** Regrouping a concatenation of traffic. */
  lemma AppendAssoc<T>(a: seq<T>, b: seq<T>, c: seq<T>)
    ensures a + (b + c) == (a + b) + c
  {
  }

  /** Four events appended one at a time are the four appended together. */
  lemma AppendFour<T>(t0: seq<T>, t1: seq<T>, t2: seq<T>, t3: seq<T>, t4: seq<T>, a: T, b: T, c: T, d: T)
    requires t1 == t0 + [a] && t2 == t1 + [b] && t3 == t2 + [c] && t4 == t3 + [d]
    ensures t4 == t0 + [a, b, c, d]
  {
  }

  /** The part of `LCD_init`'s traffic before the flush. */
  function InitCommands(): seq<Event>
  {
    [HardwareReset] + BiasCommands(DefaultBias) + ContrastCommands(DefaultContrast) + [Cmd(InvertedCommand(true))]
  }

  /** A full-width page write addresses column 0 and carries the whole page. */
  lemma PageWriteFullWidth(buf: seq<bv8>, p: nat)
    requires |buf| == BufferSize && p < PageCount
    ensures PageWrite(buf, p, 0, Width - 1) ==
              [Cmd(SETYADDR | p as bv8), Cmd(SETXADDR), Data(buf[Width * p .. Width * p + Width]), Cmd(SETYADDR)]
  {
    assert SETXADDR | 0 as bv8 == SETXADDR;
  }

  /**
   * A flush of the full-width pages 0 .. hi - 1 is 4 events per page, page
   * p addressed with 0x40 | p and column 0 and carrying the 84 bytes of
   * that page.
   */
  lemma FullWidthPages(buf: seq<bv8>, hi: nat)
    requires |buf| == BufferSize && hi <= PageCount
    ensures |FlushPages(buf, 0, Width - 1, 0, hi)| == 4 * hi
    ensures forall p :: 0 <= p < hi ==>
              FlushPages(buf, 0, Width - 1, 0, hi)[4 * p .. 4 * p + 4] ==
                [Cmd(SETYADDR | p as bv8), Cmd(SETXADDR), Data(buf[Width * p .. Width * p + Width]), Cmd(SETYADDR)]
  {
    FlushPagesShape(buf, 0, Width - 1, 0, hi);
    forall p | 0 <= p < hi
      ensures FlushPages(buf, 0, Width - 1, 0, hi)[4 * p .. 4 * p + 4] ==
                [Cmd(SETYADDR | p as bv8), Cmd(SETXADDR), Data(buf[Width * p .. Width * p + Width]), Cmd(SETYADDR)]
    {
      FlushPagesAt(buf, 0, Width - 1, 0, hi, p);
      PageWriteFullWidth(buf, p);
    }
  }

  /**
   * The flush at the end of initialisation is 6 page writes, page p
   * addressed with 0x40 | p and column 0 and carrying the 84 bytes of that
   * page.
   */
  lemma FullScreenFlush(buf: seq<bv8>)
    requires |buf| == BufferSize
    ensures |Flush(buf, FullScreen)| == 4 * PageCount
    ensures forall p :: 0 <= p < PageCount ==>
              Flush(buf, FullScreen)[4 * p .. 4 * p + 4] ==
                [Cmd(SETYADDR | p as bv8), Cmd(SETXADDR), Data(buf[Width * p .. Width * p + Width]), Cmd(SETYADDR)]
  {
    var hi := PageCount;
    assert Flush(buf, FullScreen) == FlushPages(buf, 0, Width - 1, 0, hi);
    FullWidthPages(buf, hi);
  }

  /** The data bursts of a full-screen flush, put together, are the whole buffer in order. */
  lemma FullScreenPayload(buf: seq<bv8>)
    requires |buf| == BufferSize
    ensures Payload(Flush(buf, FullScreen)) == buf
  {
    assert Flush(buf, FullScreen) == FlushPages(buf, 0, Width - 1, 0, PageCount);
    FullWidthPayload(buf, 0, PageCount);
    assert buf[0 .. Width * PageCount] == buf;
  }

  /**
   * Writing one pixel (x, y) after a flush and flushing again sends a single
   * page write: page y / 8, column x, and a one-byte burst.
   */
  lemma SinglePixelFlush(buf: seq<bv8>, idle: Region, x: uint8, y: uint8)
    requires |buf| == BufferSize && !idle.required && x < Width && y < Height
    ensures Flush(buf, Include(idle, x, y)) == PageWrite(buf, y / 8, x, x)
    ensures |Flush(buf, Include(idle, x, y))[2].bytes| == 1
  {
    assert FlushPages(buf, x, x, y / 8, y / 8) == [];
  }

  /**
   * Pixels on rows 7 and 8 straddle a page boundary: the flush sends two
   * page writes, the first addressing page 0 and the second page 1.
   */
  lemma StraddlingFlush(buf: seq<bv8>, idle: Region, x1: uint8, x2: uint8)
    requires |buf| == BufferSize && !idle.required && x1 < Width && x2 < Width
    ensures Flush(buf, Include(Include(idle, x1, 7), x2, 8)) ==
              PageWrite(buf, 0, Min(x1, x2), Max(x1, x2)) + PageWrite(buf, 1, Min(x1, x2), Max(x1, x2))
  {
    var lo, hi := Min(x1, x2), Max(x1, x2);
    assert FlushPages(buf, lo, hi, 0, 1) == PageWrite(buf, 0, lo, hi) by {
      assert FlushPages(buf, lo, hi, 0, 0) == [];
    }
  }
}
