# STM32 LCD5110 driver in Dafny

This project models the driver for the 84×48 monochrome Nokia 5110 panel, whose PCD8544 controller is reached over SPI (`lcd5110.c`, `lcd5110.h`). The driver keeps a 504-byte framebuffer in its handle. The buffer is 6 pages of 84 columns, and pixel (x, y) is bit `y % 8` of byte `x + (y / 8) * 84`. Drawing a pixel changes that bit and grows a dirty rectangle. `LCD_update` sends only the pages and columns of that rectangle. The mode setters send short command sequences. `LCD_init` configures the panel and flushes the whole screen.

Modules:

- `Geometry` (geometry.dfy) holds the screen size, the buffer size, the colours and the pixel-to-byte addressing.
- `Bits` (bits.dfy) holds the bit macros `LCD_SET_BIT` and `LCD_CLEAR_BIT`, and `LCD_MIN` and `LCD_MAX`.
- `Framebuffer` (framebuffer.dfy) holds the coordinate clamp and pixel drawing as a function on the buffer contents.
- `Dirty` (dirty.dfy) holds the dirty rectangle as a value, and how drawing grows it.
- `Protocol` (protocol.dfy) holds the opcodes and the bus traffic. Each `LCD_command` call is one `Cmd` event, each `LCD_data` call is one `Data` event, and the reset pulse of `LCD_init` is a `HardwareReset` event. It also defines the exact traffic of the mode setters, of a flush and of initialisation.
- `Controller` (controller.dfy) is a reference model of the receiving side. It decodes command bytes in basic and extended mode and keeps the address counters and the display RAM. Running the driver's traffic through it gives the reference semantics the driver's traffic is checked against. For example, a flush makes the panel RAM equal the framebuffer, provided the RAM already agreed with the buffer outside the dirty rectangle. That is the invariant the dirty rectangle exists for.
- `Lcd5110` (lcd5110.dfy) is the handle as a class. It has the buffer as an `array<bv8>`, the `update_*` fields, a ghost `trace` of everything sent, and a ghost `panel` (the controller after that trace). It has a method for every public function and for `LCD_command` and `LCD_data`.
- `Findings` (findings.dfy) holds the clamp of `LCD_setPixel` as written, and what goes wrong with it.

Places where the code and its comments or names disagree. The model follows the code in both:

- `LCD_init` does not clear the buffer, although its comment at lcd5110.c:60 says it does. It sends whatever the buffer holds.
- `LCD_setInverted(true)` sends `DISPLAYCONTROL | DISPLAYNORMAL` (0x0C), and `false` sends the inverted opcode. `LCD_init` passes `true` to get a normal display. `Controller.InvertedEffect` shows that the panel ends up inverted exactly when the argument is false.

Integer widths:

- Coordinates and dirty bounds are `uint8` (0..255).
- Every value the code computes from them stays in range, so nothing wraps. This includes the page counter of `LCD_update`, which the loop invariant bounds by 6.

## Model

| member | source | states |
|---|---|---|
| Geometry.BufferLayout | lcd5110.h:35 | the buffer is `LCD_WIDTH * LCD_HEIGHT / 8` = 504 bytes, the height is a multiple of 8, and the buffer is exactly 6 pages of 84 bytes |
| Geometry.ColorCode | lcd5110.h:22-24 | `LCD_color` has two values; white is 0 and black is the other one |
| Geometry.PageBytes | lcd5110.h:35 | page p occupies bytes [84 p, 84 p + 84): each byte there is the byte of column i - 84 p on that page |
| Geometry.PixelIndex | lcd5110.c:95-96 | for an on-screen pixel, the byte `x + (y/8)*84` is inside the buffer, lies on page `y/8` and is column `x` of that page |
| Geometry.PixelBit | lcd5110.c:95-96 | the bit `y % 8` is below 8 and locates row `y` within its page |
| Geometry.PixelAddressInjective | lcd5110.c:95-96 | two on-screen pixels with the same byte and bit are the same pixel |
| Bits.SetBit | lcd5110.c:6 | `LCD_SET_BIT` sets the given bit and keeps the other seven |
| Bits.ClearBit | lcd5110.c:7 | `LCD_CLEAR_BIT` clears the given bit and keeps the other seven |
| Bits.Min | lcd5110.c:8 | `LCD_MIN` is at most both arguments and equals one of them |
| Bits.Max | lcd5110.c:9 | `LCD_MAX` is at least both arguments and equals one of them |
| Bits.MaskIsShift | lcd5110.c:6-7 | the one-bit mask the model uses for bit k is the macros' `1u << k` |
| Bits.SetBitAbsorbs | lcd5110.c:6-7 | `LCD_SET_BIT` after `LCD_SET_BIT` or `LCD_CLEAR_BIT` of the same bit is `LCD_SET_BIT` alone |
| Bits.ClearBitAbsorbs | lcd5110.c:6-7 | `LCD_CLEAR_BIT` after `LCD_SET_BIT` or `LCD_CLEAR_BIT` of the same bit is `LCD_CLEAR_BIT` alone |
| Bits.OrField | lcd5110.c:74 | OR-ing a clamped value into an opcode whose field bits are clear gives a byte whose field reads back as the value, with the opcode bits intact |
| Framebuffer.ClampX | lcd5110.c:92 | corrected clamp: the result is always a valid column, columns on screen are kept, and any larger value becomes the last column 83 |
| Framebuffer.ClampY | lcd5110.c:93 | corrected clamp: the result is always a valid row, rows on screen are kept, and any larger value becomes the last row 47 |
| Framebuffer.Paint | lcd5110.c:95-96 | the painted byte has the given bit (`y % 8` for row y) set exactly when the colour is black, and its other seven bits are those of the old byte |
| Framebuffer.PaintUnique | lcd5110.c:95-96 | the painted byte is the only byte whose bit k matches the colour and whose other seven bits match the old byte |
| Framebuffer.PaintOverwrites | lcd5110.c:95-96 | painting the same bit twice gives the byte that painting it once with the later colour gives |
| Framebuffer.WritePixel | lcd5110.c:95-96 | after drawing, pixel (x, y) is black exactly when the colour is black; every other byte and every other pixel is unchanged |
| Framebuffer.WritePixelOverwrites | lcd5110.c:95-96 | drawing the same pixel twice equals drawing it once with the later colour |
| Dirty.Include | lcd5110.c:98-110 | after drawing, an update is pending and the box contains the point with min ≤ max on both axes; from an idle state the box is exactly the point; otherwise each bound only widens, to the old bound or the point; an on-screen point keeps the box on screen |
| Dirty.IncludeAllMonotone | lcd5110.c:105-110 | once a point is inside a pending box, it stays inside whatever is drawn next |
| Dirty.IncludeAllIsBoundingBox | lcd5110.c:98-110 | starting from no pending update, drawing a non-empty series of points gives a box that contains every point and each of whose four bounds is attained by one of the points |
| Protocol.Clamp | lcd5110.c:71 | the parameter clamp of the mode setters is the minimum of the value and the limit |
| Protocol.ModeCommandBytes | lcd5110.c:70-89 | `LCD_setContrast` sends exactly 0x21, 0x80 OR min(c, 0x7f), 0x20, and `LCD_setBias` sends 0x21, 0x10 OR min(b, 7), 0x20, with 0xff and 0x17 for values that are clamped; `LCD_setInverted` sends 0x0C for true and 0x0D for false |
| Protocol.FlushPagesShape | lcd5110.c:120-130 | the page loop sends 4 events per page, and event i belongs to page `lo + i/4`, so pages go out one after the other in ascending order |
| Protocol.FlushPagesAt | lcd5110.c:125-129 | the four events of page p are set-Y to p, set-X to the first dirty column, the data burst of that page's dirty columns, and set-Y to 0 |
| Protocol.FlushPagesNext | lcd5110.c:120-130 | one more pass of the page loop extends what was sent by exactly the write of the next page |
| Protocol.PageWritePayload | lcd5110.c:125-129 | the only data a page write carries is the burst of that page's dirty columns |
| Protocol.PageWriteFullWidth | lcd5110.c:125-129 | a page write spanning all columns addresses column 0 and carries the page's 84 bytes |
| Protocol.FullWidthPages | lcd5110.c:120-130 | a flush of full-width pages 0..hi-1 is 4 events per page: set-Y to p, set-X to 0, the 84 bytes of page p, set-Y to 0 |
| Protocol.FullWidthPayload | lcd5110.c:128 | when the box spans every column, the data bursts of pages lo..hi-1 put together are exactly the buffer bytes of those pages |
| Protocol.FullScreenFlush | lcd5110.c:61-67 | flushing the full-screen box sends 24 events, 4 per page for pages 0 to 5, each with the 84 bytes of that page |
| Protocol.FullScreenPayload | lcd5110.c:61-67 | the bursts of the full-screen flush put together are the whole buffer in order |
| Protocol.SinglePixelFlush | lcd5110.c:99-103 | after one pixel is drawn from an idle state, an update sends a single page write carrying exactly one byte |
| Protocol.StraddlingFlush | lcd5110.c:117-120 | pixels on rows 7 and 8 make an update send two page writes, page 0 then page 1 |
| Controller.ContrastEffect | lcd5110.c:70-76 | on the controller, the contrast traffic sets Vop to `min(c, 0x7f)`, leaves basic mode selected and changes nothing else |
| Controller.BiasEffect | lcd5110.c:78-84 | on the controller, the bias traffic sets the bias to `min(b, 7)`, leaves basic mode selected and changes nothing else |
| Controller.InvertedEffect | lcd5110.c:86-89 | in basic mode, `LCD_setInverted(v)` leaves the panel inverted exactly when `v` is false and changes nothing else |
| Controller.AddressDecoding | lcd5110.c:125-129 | in basic mode the controller decodes the page and column commands of a flush as the intended page and column addresses |
| Controller.PageWriteEffect | lcd5110.c:125-129 | one page write stores the burst in that page's dirty columns of the panel RAM, leaves every other RAM byte alone, and keeps basic mode, Vop, bias and polarity |
| Controller.FlushPagesEffect | lcd5110.c:120-130 | the page loop stores every dirty column of every dirty page and changes no other RAM byte |
| Controller.PixelWriteKeepsSync | lcd5110.c:91-110 | if the panel RAM agrees with the buffer outside the dirty box, it still does after a pixel is drawn and the box grows |
| Controller.FlushSynchronises | lcd5110.c:113-132 | if the panel RAM agrees with the buffer outside the dirty box, then after an update the RAM equals the buffer, and mode, Vop, bias and polarity are unchanged |
| Controller.InitSynchronises | lcd5110.c:39-68 | whatever state the panel was in, after the traffic of `LCD_init` its RAM equals the buffer, bias is 4, Vop is 50, it is not inverted and it is in basic mode |
| Controller.RunInitSequence | lcd5110.c:39-68 | the traffic of `LCD_init` acts as the reset, bias, contrast, polarity and flush parts applied one after the other |
| Lcd5110.Display.constructor | lcd5110.h:26-42 | a handle holding the given buffer contents, with no update pending and nothing sent |
| Lcd5110.Display.Command | lcd5110.c:33-36 | `LCD_command` appends one command event with the given byte |
| Lcd5110.Display.SendData | lcd5110.c:28-31 | `LCD_data` appends one data event with the `size` buffer bytes from `offset` |
| Lcd5110.Display.SetContrast | lcd5110.c:70-76 | sends exactly the contrast traffic; the panel's Vop becomes `min(c, 0x7f)` in basic mode; a panel in sync with the buffer stays in sync |
| Lcd5110.Display.SetBias | lcd5110.c:78-84 | sends exactly the bias traffic; the panel's bias becomes `min(b, 7)` in basic mode; a panel in sync with the buffer stays in sync |
| Lcd5110.Display.SetInverted | lcd5110.c:86-89 | sends exactly one display-control command; a panel in basic mode then has the opposite of the argument as its polarity; sync is kept |
| Lcd5110.Display.SetPixel | lcd5110.c:91-111 | the buffer becomes `WritePixel` of the old buffer at the clamped point (see `WritePixel` for what that means pixel by pixel); the dirty box becomes `Include` of the old box (see `Include`); nothing is sent; a panel in sync with the buffer outside the box stays so |
| Lcd5110.Display.Plot | lcd5110.c:95-96 | the in-place bit write of the array changes the buffer exactly as `WritePixel` describes |
| Lcd5110.Display.Grow | lcd5110.c:98-110 | the in-place update of the five `update_*` fields yields the box `Include` describes and keeps it valid |
| Lcd5110.Display.SendPage | lcd5110.c:122-129 | one pass of the page loop sends exactly the page write of that page: set-Y, set-X, the burst of the dirty columns read from the buffer, set-Y to 0 |
| Lcd5110.Display.Update | lcd5110.c:113-133 | sends exactly the page writes of the old dirty box in ascending page order, or nothing when no update is pending, in which case nothing changes at all; afterwards no update is pending and the buffer is unchanged; a panel that was in sync now holds the whole buffer |
| Lcd5110.Display.Init | lcd5110.c:39-68 | sends the reset, bias 4, contrast 50, the normal-display command and a full-screen flush; afterwards no update is pending, the box is the full screen, and whatever the panel's earlier state, its RAM equals the buffer with bias 4, Vop 50, not inverted and basic mode |
| Findings.ClampAsWritten | lcd5110.c:92-93 | the clamp as written keeps values up to the limit and turns values above the limit into the limit itself; the limit, one past the screen, gets through |
| Findings.IndexAsWrittenInBounds | lcd5110.c:92-96 | with the clamp as written, the byte index is inside the buffer exactly when the row is on screen and, for a column past the edge, the row is above the last page |
| Findings.CornerOverruns | lcd5110.c:92-96 | the point (84, 48) gets through the clamp as written and addresses byte 588 of a 504-byte buffer |
| Findings.ColumnPastEdgeAliases | lcd5110.c:92-96 | with the clamp as written, drawing at a column ≥ 84 on row y < 40 changes pixel (0, y + 8) instead |
| Findings.AsWrittenBoxOverreads | lcd5110.c:117-128 | with the clamp as written and from an idle box, a point past the right edge is recorded as column 84, so the burst of the last page ends one byte past the buffer; a point past the bottom edge is recorded as row 48, so the page loop reaches page 6, which starts at byte 504, past the buffer |
| Findings.ClampsAgreeOnScreen | lcd5110.c:92-93 | on the screen, the clamp as written and the corrected clamp give the same pixel |

## Left out

- The GPIO, SPI and delay calls of the vendor HAL (lcd5110.c:23-25, 29, 34, 46-51) are not modelled. `LCD_write` is folded into `Command` and `SendData`, which record what goes on the bus as trace events. The reset pulse and its 500 ms delay are one `HardwareReset` event.
- The chip-select, data/command and reset pins, and the handle's port and pin fields (lcd5110.h:28-34), are not modelled. They only frame the bytes.
- The NULL-pointer `assert`s on the HAL handles (lcd5110.c:40-43) are left out. Pointers do not exist in the model.
- The return value of `HAL_SPI_Transmit` is ignored by the code, and `LCD_SPI_TIMEOUT` only feeds it, so there is no error path to model.
- The platform `#if` includes (lcd5110.h:7-13) are build configuration only.
- There is no concurrency in the driver; the model is single-threaded.
- `Controller` is a reference model of the PCD8544, not code of this repository. It models the instructions the driver uses, RAM writes with horizontal addressing, and address wrap-around at the end of RAM.
- `HardwareReset` leaves the controller model's registers and RAM as they were. This does not matter here: `LCD_init` sets bias, Vop, polarity and mode itself and then rewrites the whole RAM.
- Lcd5110.Display.SetPixel: the method uses the corrected clamp, so it does not model the out-of-bounds write or the aliasing that the clamp as written causes. `Findings` models that behaviour.
- The no-op of a second `LCD_update` in a row is not a separate member. It follows from `Update`'s contract: afterwards no update is pending, and with none pending, nothing is sent or changed.

## Findings

| source | as written | input that shows it | evidently intended | confidence | as-written member | corrected member |
|---|---|---|---|---|---|---|
| lcd5110.c:92-93 | `if (x > LCD_WIDTH) x = LCD_WIDTH;` and the same for y with `LCD_HEIGHT`; 84 and 48 pass the clamp, one past the last column and row | `LCD_setPixel(h, 84, 48, c)` writes byte 588 of the 504-byte buffer. `LCD_setPixel(h, 200, 3, c)` changes pixel (0, 11). The dirty box then records column 84 or row 48, so `LCD_update` reads past the page or past the buffer (`Findings.AsWrittenBoxOverreads`) | clamp to the last column 83 and the last row 47 (`>=` and `- 1`) | not executed | Findings.IndexAsWrittenInBounds | Framebuffer.ClampX |
