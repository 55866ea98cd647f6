# ST7735 TFT driver: a verified Dafny model

This project models the ST7735 display driver (`src/lib.rs`) as a byte-stream
encoder. Each public operation turns a drawing request into an ordered
sequence of hardware events:

- data/command pin changes (`DcLow`, `DcHigh`);
- reset pin changes (`RstHigh`, `RstLow`);
- millisecond pauses (`Delay`);
- SPI write calls (`Write(bytes)`).

The hardware is one `Hardware` object with an append-only `trace` of those
events. `const fails: nat -> bool` decides which SPI write calls fail: the
k-th write call counted from the start of the trace fails exactly when
`fails(k)`. A failed write is still recorded, because the call was made. At
the first failure every `?` of the driver returns, so nothing after it happens.

Every operation has a *plan*: the events it produces when no write fails.
`Bus.Run` replays a plan against the oracle and cuts it right after the first
failing write. Every driver method that sends something ensures
`hw.Did(old(hw.trace), Plan(...), r.Ok?)`, which says two things:

- the trace grew by exactly the part of the plan the replay reached;
- the method succeeded exactly when none of those writes failed.

The rest state their effect directly. `SetOffset` changes only the offset and
sends nothing. `Dimensions` only reads the fields. The two constructors set
the fields and leave the trace as it was or empty. `Hardware.SetRst` appends
its pin event.

The plans are pure functions. The properties the driver promises are proved
about them:

- command framing;
- the power-up table;
- address-window words with the global offset;
- big-endian content and 32-byte chunking of the buffered pixel stream;
- the MADCTL orientation byte;
- on-screen clipping of pixels;
- rectangle fills clipped to the screen, and clearing.

The driver is a class with the source's fields:

- `rgb`, `inverted`, `width` and `height` are fixed;
- `dx` and `dy` are changed only by `SetOffset`;
- the opcode byte of each `Instruction` is an uninterpreted table `opcode`.

Modules:

- `Bus`: bytes, events, replay with failures, framing of bytes under the D/C pin.
- `Instructions`: the command names.
- `Encoding`: big-endian words and the buffered chunking.
- `Protocol`: the command, window, pixel, orientation and initialisation plans.
- `Geometry`: rectangles, intersection and row-major points.
- `Graphics`: the drawing-target plans.
- `Driver`: the `Hardware` and `ST7735` classes with their methods.

The buffered pixel stream always makes its final flush, so N words take
N/16 + 1 writes, and the last one is empty when N is a multiple of 16,
including N = 0.

## Model

| member | source | states |
|---|---|---|
| Bus.Run | src/lib.rs:131-133 | Replaying a plan never goes past its end. A successful replay performed every event of the plan. |
| Bus.RunOkIff | src/lib.rs:131-133 | A replay succeeds if and only if none of the plan's write calls fails. |
| Bus.RunStopsAtFirstFailure | src/lib.rs:119-122 | A failed replay ends with a write call. That write is the first failing one: every write before it succeeded. |
| Bus.RunAppendOk | src/lib.rs:173-176 | When `a` replays without failure, replaying `a + b` performs all of `a` and then what replaying `b` alone performs, with `b`'s write indices counted after `a`'s writes. |
| Bus.RunAppendFail | src/lib.rs:173-176 | A plan that fails hides whatever the caller would have done next. |
| Bus.PerformsThen | src/lib.rs:218-219 | Doing one plan successfully and then another does their concatenation, with the second one's outcome. |
| Bus.PerformsStop | src/lib.rs:218-219 | A failure inside a prefix of a plan is a failure of the whole plan, with the same trace. |
| Bus.PerformsStep | src/lib.rs:173-180 | One more step of a plan extends the performed prefix. A failed step is a failure of the whole plan. |
| Bus.PerformsSlice | src/lib.rs:173-180 | The same as `PerformsStep`, for consecutive index ranges of one plan. |
| Bus.PerformsWrite | src/lib.rs:131-133 | One write call is recorded and succeeds exactly when the oracle lets the current write index pass. |
| Bus.PerformsPrefix | src/lib.rs:76-101 | Performing a plan only appends to the trace. What it appends is a prefix of the plan, and all of the plan on success. |
| Bus.PerformsFailure | src/lib.rs:76-101 | On failure the trace grew by a non-empty prefix of the plan. That prefix ends with the failing write, and the oracle let every earlier write pass. |
| Bus.Frames | src/lib.rs:117-129 | Each write is tagged with the D/C pin level in effect: command while low, data while high. There is one frame per write. |
| Bus.FramesAppend | src/lib.rs:117-129 | The frames of a concatenation are the frames of both parts, with the second part starting at the pin level the first leaves. |
| Bus.WritesAreData | src/lib.rs:192-207 | Writes made with the pin high are all data: only pure write sequences reach the controller as data, and they do so in order. |
| Bus.WrittenBytesAppend | src/lib.rs:140-154 | The bytes written by a concatenation are those of its parts, in order. |
| Driver.Hardware.constructor | src/lib.rs:55-65 | The bus starts with an empty trace and the given failure oracle. |
| Driver.Hardware.SetDc | src/lib.rs:118 | Driving the D/C pin appends exactly that pin event, and it cannot fail. |
| Driver.Hardware.SetRst | src/lib.rs:110-114 | Driving the reset pin appends exactly that pin event. |
| Driver.Hardware.DelayMs | src/lib.rs:111 | A pause appends one delay event and cannot fail. |
| Driver.Hardware.SpiWrite | src/lib.rs:132 | One write call is recorded, with the failure the oracle decides. On success it returns the number of bytes written. |
| Driver.BufferStep | src/lib.rs:144-151 | Storing a word's two bytes at `index` extends the big-endian image of the chunk in progress by 2 bytes. When that fills the 32 bytes, the buffer holds exactly the chunk's 16 words and the next chunk starts empty. |
| Driver.FlushChunk | src/lib.rs:148-151 | Flushing a full buffer extends the chunks written so far by one. If the flush fails, the whole buffered write fails. |
| Driver.FlushRest | src/lib.rs:153 | Writing the partial buffer at the end completes the buffered plan, with that write's outcome. The words left in it are the last N mod 16. |
| Driver.ST7735.constructor | src/lib.rs:46-68 | `new` stores `rgb`, `inverted`, `width` and `height` as given, sets the offset to (0, 0), and sends nothing. |
| Driver.ST7735.SendStep | src/lib.rs:76-102 | One line of the power-up table: a command through `write_command`, or a pause that cannot fail. |
| Driver.ST7735.Init | src/lib.rs:71-104 | `init` performs the reset pulse and then the power-up table in order, stopping at the first failing write. It succeeds exactly when all of it was sent. |
| Driver.ST7735.HardReset | src/lib.rs:106-115 | Appends RstHigh, Delay(10), RstLow, Delay(10), RstHigh and cannot fail. |
| Driver.ST7735.StartData | src/lib.rs:127-129 | Appends exactly DcHigh. |
| Driver.ST7735.WriteData | src/lib.rs:131-133 | The data as one write call. On success it returns its length. |
| Driver.ST7735.WriteWord | src/lib.rs:136-138 | The word as one 2-byte big-endian write. On success it returns 2. |
| Driver.ST7735.WriteCommand | src/lib.rs:117-125 | DcLow and the opcode as one write. Only when there are parameters: DcHigh and the parameters, unchanged, as one further write. It stops after a failing write. |
| Driver.ST7735.WriteWordsBuffered | src/lib.rs:140-154 | Performs the buffered plan: one 32-byte write per full chunk of 16 words, then one final write of the 2·(N mod 16) bytes left. On success it returns that final length. The loop keeps `index` even, below 32, and equal to the bytes of the chunk in progress. |
| Driver.ST7735.SetOrientation | src/lib.rs:156-163 | Sends only MADCTL with the single byte `MadctlByte(o, rgb)`, and no field changes. |
| Driver.ST7735.SetOffset | src/lib.rs:166-169 | Only `dx` and `dy` change, and nothing is sent. |
| Driver.ST7735.WriteAxis | src/lib.rs:173-176 | One half of the window: the command with no parameters, DcHigh, then the start and the end word as two separate 2-byte writes. |
| Driver.ST7735.SetAddressWindow | src/lib.rs:172-181 | CASET with `sx+dx` and `ex+dx`, then RASET with `sy+dy` and `ey+dy`. Each word is its own big-endian write, and the current offset is used. |
| Driver.ST7735.SetPixel | src/lib.rs:184-189 | The window (x, y, x, y), RAMWR, DcHigh, then one 2-byte write of the colour. |
| Driver.ST7735.WritePixels | src/lib.rs:192-199 | RAMWR, DcHigh, then one 2-byte write per colour in order. The first failing write ends the stream. |
| Driver.ST7735.WritePixelsBuffered | src/lib.rs:200-207 | RAMWR, DcHigh, then the buffered plan of the colours. On success it returns the final chunk's length. |
| Driver.ST7735.SetPixels | src/lib.rs:210-220 | The window plan followed by the unbuffered pixel plan. |
| Driver.ST7735.SetPixelsBuffered | src/lib.rs:222-232 | The window plan followed by the buffered pixel plan. On success it returns the final chunk's length. |
| Driver.ST7735.Dimensions | src/lib.rs:315-317 | The rectangle at the origin with this size holds exactly the points the bounds test of `draw_iter` accepts. |
| Driver.ST7735.DrawIter | src/lib.rs:254-274 | Performs `DrawPlan`: every on-screen pixel through `set_pixel` in input order, nothing for off-screen pixels, and a stop at the first failure. |
| Driver.ST7735.FillContiguous | src/lib.rs:276-297 | Performs `FillPlan`. If nothing is visible it sends nothing and succeeds. Otherwise it sends the window of the visible part and the buffered colours of the visible points. |
| Driver.ST7735.Clear | src/lib.rs:299-309 | The window (0, 0, width−1, height−1) and `width·height` copies of the colour, buffered. |
| Encoding.BigEndian | src/lib.rs:136-138 | `to_be_bytes`: two bytes, high byte first, whose value is the word. |
| Encoding.BigEndianInjective | src/lib.rs:136-138 | Two words have the same byte pair if and only if they are equal. |
| Encoding.Flatten | src/lib.rs:143-147 | Each word becomes 2 bytes: the stream is twice as long as the words. |
| Encoding.FlattenAt | src/lib.rs:144-146 | Bytes 2k and 2k+1 of the stream are word k, big-endian. |
| Encoding.FlattenAppend | src/lib.rs:143-147 | Flattening distributes over concatenation. |
| Encoding.FullChunks | src/lib.rs:148-151 | One write per whole chunk of 16 words. |
| Encoding.FullChunksAt | src/lib.rs:148-151 | Chunk k is the 32-byte big-endian image of words 16k to 16k+15. |
| Encoding.Whole | src/lib.rs:143-153 | The words that fill whole chunks: a multiple of 16, with N mod 16 left over. |
| Encoding.BufferedPlan | src/lib.rs:140-154 | The writes of `write_words_buffered`: one 32-byte write per full chunk of 16 words, then one final write of the words left over, made even when none are left. |
| Encoding.BufferedChunking | src/lib.rs:140-154 | N words take N/16 + 1 writes, all of them writes. Every write but the last has 32 bytes. The last has 2·(N mod 16) bytes, so it is empty for N = 0 and for every multiple of 16. |
| Encoding.BufferedPrefix | src/lib.rs:148-149 | The chunks flushed so far are a prefix of the whole buffered plan. |
| Encoding.FullChunksNext | src/lib.rs:148-151 | Flushing 16 more words adds exactly one write: their big-endian image. |
| Encoding.FullChunksBytes | src/lib.rs:148-151 | The bytes of the full chunks together are the flattening of their words. |
| Encoding.BufferedContent | src/lib.rs:140-154 | The bytes of all buffered writes together are the big-endian flattening of the words, in order. |
| Encoding.WordWrites | src/lib.rs:195-197 | The unbuffered path makes exactly one write per word, and write k is word k big-endian. |
| Encoding.WordWritesBytes | src/lib.rs:195-197 | Those writes are all writes, and their bytes together are the flattening of the words. |
| Protocol.CommandPlan | src/lib.rs:117-125 | `write_command`: DcLow and the opcode as one write; then, only when there are parameters, DcHigh and the parameters as one write. |
| Protocol.AxisPlan | src/lib.rs:173-176 | One half of `set_address_window`: the command with no parameters, DcHigh, then the start and the end word, each its own 2-byte write. |
| Protocol.WindowPlan | src/lib.rs:172-181 | CASET with `sx+dx` and `ex+dx`, then RASET with `sy+dy` and `ey+dy`. |
| Protocol.PixelsPlan | src/lib.rs:192-199 | `write_pixels`: RAMWR, DcHigh, then one 2-byte write per colour word. |
| Protocol.PixelsBufferedPlan | src/lib.rs:200-207 | `write_pixels_buffered`: RAMWR, DcHigh, then the colours in 32-byte chunks. |
| Protocol.SetPixelPlan | src/lib.rs:184-189 | `set_pixel`: the window (x, y, x, y), then the pixel plan of the one colour. |
| Protocol.SetPixelsPlan | src/lib.rs:210-220 | `set_pixels`: the window, then the unbuffered pixel plan. |
| Protocol.SetPixelsBufferedPlan | src/lib.rs:222-232 | `set_pixels_buffered`: the window, then the buffered pixel plan. |
| Protocol.MadctlByte | src/lib.rs:157-161 | The MADCTL parameter: the orientation code for an RGB panel, and the code with bit 3 set for a BGR panel. |
| Protocol.OrientationPlan | src/lib.rs:156-163 | `set_orientation`: one MADCTL command whose only parameter is `MadctlByte(o, rgb)`. |
| Protocol.ResetPlan | src/lib.rs:106-115 | `hard_reset`: RstHigh, Delay(10), RstLow, Delay(10), RstHigh. |
| Protocol.InitPlan | src/lib.rs:71-104 | `init`: the reset plan, then the plans of the power-up table lines in order. |
| Protocol.CommandFraming | src/lib.rs:117-125 | The controller receives the opcode as the only command byte and the parameters, unchanged, as the only data. That is 1 write without parameters and 2 with. The pin is left high exactly when there were parameters. |
| Protocol.WordPairFraming | src/lib.rs:174-176 | Two words a and b go out as two data frames, a first: the data bytes are the flattening of [a, b]. |
| Protocol.AxisFraming | src/lib.rs:173-176 | One axis is received as its command byte, then its start word and its end word as data. |
| Protocol.WindowFraming | src/lib.rs:172-181 | The window is received as CASET, `sx+dx`, `ex+dx`, RASET, `sy+dy`, `ey+dy`. That is six writes, and the pin is left high for pixel data. |
| Protocol.RamwrFraming | src/lib.rs:193-194 | RAMWR is the only command byte before the pixel data, and the pin is left high. |
| Protocol.StreamFraming | src/lib.rs:193-197 | After RAMWR, any pure write sequence arrives as data, its bytes in order. |
| Protocol.PixelPathsAgree | src/lib.rs:192-207 | The unbuffered and the buffered pixel paths deliver the same command byte (RAMWR) and the same data bytes: the big-endian flattening of the colours. |
| Protocol.Code | src/lib.rs:36-41 | The orientation codes 0x00, 0x60, 0xC0 and 0xA0, each with bit 3 clear. |
| Protocol.SetBgrBit | src/lib.rs:160 | `b | 0x08`: bit 3 set, every other bit unchanged, and no effect when bit 3 is already set. |
| Protocol.MadctlColourBit | src/lib.rs:157-161 | The BGR byte is the RGB byte plus bit 3, and bit 3 alone tells the colour order. |
| Protocol.MadctlRoundTrip | src/lib.rs:156-163 | Every byte `set_orientation` can send decodes back to the orientation and colour order it was sent for. |
| Protocol.MadctlInjective | src/lib.rs:156-163 | Two requests share a MADCTL byte if and only if they are the same request. |
| Protocol.OrientationFraming | src/lib.rs:156-163 | The controller receives MADCTL as the only command byte, with one data byte that decodes to the request. |
| Protocol.InitSteps | src/lib.rs:76-102 | The power-up table has 19 lines, in the order the code issues them. |
| Protocol.InitInversion | src/lib.rs:90-94 | INVON is sent if and only if the panel is inverted, and INVOFF if and only if it is not. |
| Protocol.InitMadctl | src/lib.rs:95-100 | MADCTL carries [0x00] for RGB and [0x08] for BGR, the portrait byte of `set_orientation`. COLMOD carries [0x05]. |
| Protocol.InitPauses | src/lib.rs:76-102 | Every pause in the table lasts 200 ms and comes right after SWRESET, SLPOUT or DISPON. |
| Protocol.InitPausesFollow | src/lib.rs:76-102 | Each of SWRESET, SLPOUT and DISPON is followed by a 200 ms pause. |
| Protocol.InitDistinct | src/lib.rs:76-101 | No instruction is sent twice during initialisation. |
| Protocol.StepsPlanAppend | src/lib.rs:76-102 | The plan of consecutive table lines is the concatenation of their plans. |
| Protocol.InitStartsWithReset | src/lib.rs:106-115 | `init` begins with the five reset events, which contain no write. |
| Protocol.Advance | src/lib.rs:76-101 | After table line k the trace holds the plan of lines 0 to k. A failure in line k is a failure of the whole initialisation. |
| Geometry.Contains | src/lib.rs:291 | A point lies in a rectangle: left and top edges inclusive, right and bottom edges exclusive. |
| Geometry.Intersection | src/lib.rs:281 | The intersection contains exactly the points both rectangles contain. When it is empty it is the zero rectangle, and otherwise it lies within both. |
| Geometry.Row | src/lib.rs:289 | One row of a rectangle holds w points. |
| Geometry.RowAt | src/lib.rs:289 | The k-th point of a row lies k to the right of the row's first point, at the same height. |
| Geometry.RowsLength | src/lib.rs:289 | h rows of width w hold w·h points. |
| Geometry.Points | src/lib.rs:289 | `points()`: the rectangle's rows, top to bottom, each left to right. |
| Geometry.Select | src/lib.rs:291 | Filtering by containment keeps a subsequence. |
| Geometry.SelectAppend | src/lib.rs:291 | Filtering distributes over concatenation. |
| Geometry.SelectPoints | src/lib.rs:289-291 | Filtering an area's row-major points by a rectangle inside the area yields that rectangle's own row-major points. |
| Geometry.RowsContained | src/lib.rs:289 | Every point a rectangle enumerates lies in it. |
| Graphics.OnScreen | src/lib.rs:260-263 | The bounds test of `draw_iter`: both coordinates non-negative, x below the width and y below the height. |
| Graphics.OnScreenContains | src/lib.rs:260-263 | The bounds test of `draw_iter` accepts exactly the points of the screen rectangle. |
| Graphics.Repeat | src/lib.rs:305-306 | `repeat(v).take(n)`: n copies of v. |
| Graphics.Raws | src/lib.rs:292 | The colour word of each colour, position by position. |
| Graphics.PixelPlan | src/lib.rs:258-271 | One pixel of `draw_iter`: `set_pixel` with its coordinates and colour word when it is on screen, nothing otherwise. |
| Graphics.DrawPlan | src/lib.rs:258-271 | `draw_iter`: the plans of the pixels, in input order. |
| Graphics.DrawSnoc | src/lib.rs:258-271 | One more pixel extends the drawing's plan by that pixel's plan. |
| Graphics.DrawAppend | src/lib.rs:258-271 | The plan of two pixel sequences drawn one after another is the concatenation of their plans. |
| Graphics.DrawPrefix | src/lib.rs:258-271 | The pixels processed so far plan to a prefix of the whole drawing. |
| Graphics.DrawAdvance | src/lib.rs:258-271 | After pixel i the trace holds the plan of pixels 0 to i. If that pixel failed, the whole drawing failed. |
| Graphics.Visible | src/lib.rs:260-263 | The on-screen pixels are never more than the pixels. |
| Graphics.SetPixelWrites | src/lib.rs:184-189 | `set_pixel` makes exactly eight write calls. |
| Graphics.DrawWrites | src/lib.rs:258-271 | Drawing makes eight write calls per on-screen pixel and none for the others. |
| Graphics.DrawNothing | src/lib.rs:258-271 | Drawing emits no event at all if and only if no pixel is on screen. |
| Graphics.NothingVisible | src/lib.rs:258-271 | With no pixel on screen the drawing's plan is empty. |
| Graphics.Clip | src/lib.rs:289-292 | The zip-filter-map of `fill_contiguous`: never longer than the points or the colours. |
| Graphics.ClipCount | src/lib.rs:289-292 | Given a colour for every point, as many colours pass as points lie in the rectangle. |
| Graphics.ClipAll | src/lib.rs:289-292 | When every point lies in the rectangle, the colours pass unchanged, up to the number of points. |
| Graphics.FillPlan | src/lib.rs:281-293 | `fill_contiguous`: nothing when the visible part is empty; otherwise the buffered window plan over its corners, with the colours the point filter lets through. |
| Graphics.FillWindow | src/lib.rs:281-288 | When the visible part is empty, fill sends nothing. Otherwise its corners are on screen and addressable with the offset, and the plan is that window and the clipped colours. |
| Graphics.FillNothing | src/lib.rs:281-283 | Fill sends nothing if and only if no point of the area is on screen. |
| Graphics.FillCount | src/lib.rs:281-292 | Given a colour for every point of the area, the stream holds exactly one colour per pixel of the window it opens, which is the visible part's area. |
| Graphics.FillInside | src/lib.rs:281-292 | An area lying on the screen is filled unclipped: its own corners form the window, and its colours go out as given, up to its size. |
| Graphics.IntersectionInside | src/lib.rs:281 | A non-empty rectangle within the screen is its own intersection with it. |
| Graphics.ClearPlan | src/lib.rs:299-309 | `clear`: the buffered window (0, 0, width−1, height−1) with `width·height` copies of the colour word. |
| Graphics.ClearIsFill | src/lib.rs:299-309 | Clearing is filling the whole screen with one copy of the colour per pixel. |

## Left out

- The rppal SPI bus, the GPIO pins and the `DelayMs` timer are not driven. They are the events of one `Hardware` trace, and write failures come from the `fails` oracle. No timing is modelled: a delay is only an event.
- Driver.Hardware.SpiWrite: a successful `Spi::write` is taken to send all of its bytes and return their count. Partial transfers are not modelled.
- The opcode byte of each `Instruction` lives in `instruction.rs`, which is not part of this model. The driver carries an uninterpreted `opcode` table instead.
- The drawing library's types are re-modelled on the semantics the driver relies on. That covers `Rectangle::intersection`, `points()`, `contains`, `Point` and `Size`. An intersection with an empty width or height is the zero rectangle.
- `RawU16::from(Bgr565)` is not modelled. A colour is the 16-bit word it stores.
- `Pixel`, the iterators and `zip`/`filter`/`map` are modelled eagerly as sequences. The lazy, possibly infinite iterators are not modelled, so an unbounded colour iterator cannot be expressed.
- Driver.ST7735.SetAddressWindow: requires every coordinate plus its offset to stay below 65536. The u16 additions would otherwise overflow, which panics in a debug build and wraps in a release build. This also applies to SetPixel, SetPixels and SetPixelsBuffered.
- Driver.ST7735.DrawIter: requires `width + dx` and `height + dy` to be at most 65536. This keeps `width as i32` and the `as u16` casts of on-screen coordinates exact, and keeps the one-pixel windows addressable. Wrapping casts for larger panels are not modelled.
- Driver.ST7735.FillContiguous: requires `width + dx` and `height + dy` to be at most 65536, the `Fits` condition of DrawIter. Under it, the `as u16` casts of the visible part's corners are exact and its window is addressable. Wrapping casts for larger panels are not modelled.
- Driver.ST7735.Clear: requires 1 ≤ width, height ≤ 65535. Otherwise `width as u16 - 1` truncates or underflows. Under that bound, `width * height` cannot overflow a u32. It also requires `Fits`, so that the whole-screen window plus the offset stays addressable.
- Pin levels after a failed write are not stated beyond the trace prefix. The driver makes no promise about them.
- Driver.ST7735.Init: the source issues its commands as straight-line code. The model walks the same commands, parameters, delays and early returns from a 19-line table, `Protocol.InitSteps`, one line per loop iteration.
- Driver.ST7735.WriteAxis: the two identical halves of `set_address_window` are written as one helper method called twice.
- The `Result<(), ()>` payloads are not distinguished: every failure is the same `Err`.
