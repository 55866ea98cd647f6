/** The ST7735 driver object and the hardware it drives. */
module Driver {
  import opened Bus
  import opened Sequences
  import opened Instructions
  import opened Encoding
  import opened Protocol
  import opened Geometry
  import opened Graphics

  /** The SPI bus, the data/command pin, the reset pin and the delay
      provider, seen as one recorder of events. The k-th SPI write call fails
      exactly when `fails(k)`; a failed call is still recorded. */
  class Hardware {
    var trace: seq<Event>
    const fails: nat -> bool

    constructor (fails: nat -> bool)
      ensures trace == [] && this.fails == fails
    {
      trace := [];
      this.fails := fails;
    }

    /** Since `t0`, the hardware replayed `plan`, stopping at its first failed write. */
    ghost predicate Did(t0: seq<Event>, plan: seq<Event>, ok: bool)
      reads this
    {
      Performs(t0, trace, fails, plan, ok)
    }

    /** `OutputPin::set_high` / `set_low` on the data/command pin. */
    method SetDc(high: bool)
      modifies this
      ensures trace == old(trace) + [if high then DcHigh else DcLow]
      ensures Did(old(trace), [if high then DcHigh else DcLow], true)
    {
      PerformsSilent(trace, if high then DcHigh else DcLow, fails);
      trace := trace + [if high then DcHigh else DcLow];
    }

    /** `OutputPin::set_high` / `set_low` on the reset pin. */
    method SetRst(high: bool)
      modifies this
      ensures trace == old(trace) + [if high then RstHigh else RstLow]
    {
      trace := trace + [if high then RstHigh else RstLow];
    }

    /** `DelayMs::delay_ms`. */
    method DelayMs(ms: byte)
      modifies this
      ensures trace == old(trace) + [Delay(ms)]
      ensures Did(old(trace), [Delay(ms)], true)
    {
      PerformsSilent(trace, Delay(ms), fails);
      trace := trace + [Delay(ms)];
    }

    /** `Spi::write`: on success, the number of bytes written. */
    method SpiWrite(data: seq<byte>) returns (r: Result<nat>)
      modifies this
      ensures Did(old(trace), [Write(data)], r.Ok?)
      ensures r.Ok? ==> r.value == |data|
    {
      var failed := fails(WriteCount(trace));
      PerformsWrite(trace, data, fails);
      trace := trace + [Write(data)];
      r := if failed then Err else Ok(|data|);
    }
  }

  /** The 32-byte buffer after words `[..i]`: the chunk in progress began
      at word `start`, and its words fill the first `index` bytes, big-endian. */
  ghost predicate Buffered(buffer: seq<byte>, index: nat, words: seq<u16>, start: nat, i: nat) {
    && |buffer| == 32 && start % 16 == 0 && start <= i <= |words| && i < start + 16
    && index == 2 * (i - start) && buffer[..index] == Flatten(words[start..i])
  }

  /** Storing word i's two bytes extends the chunk in progress; when that
      fills the buffer, it holds exactly the chunk's 16 words and the next
      chunk begins empty. */
  lemma BufferStep(before: seq<byte>, after: seq<byte>, words: seq<u16>, start: nat, i: nat, index: nat)
    requires start <= i < |words| && Buffered(before, index, words, start, i)
    requires after == before[index := BigEndian(words[i])[0]][index + 1 := BigEndian(words[i])[1]]
    ensures index + 2 < 32 ==> Buffered(after, index + 2, words, start, i + 1)
    ensures index + 2 >= 32 ==> && start + 16 <= |words|
                                && after == Flatten(words[start..start + 16])
                                && Buffered(after, 0, words, start + 16, i + 1)
  {
    var bs := BigEndian(words[i]);
    assert after[..index + 2] == before[..index] + bs;
    FlattenSnoc(words, start, i);
    if index + 2 >= 32 {
      assert after == after[..index + 2];
    }
  }

  /** Flushing a full buffer extends the chunks written so far by one; a
      failed flush ends the buffered write. */
  lemma FlushChunk(t0: seq<Event>, t1: seq<Event>, t2: seq<Event>, fails: nat -> bool,
                   words: seq<u16>, start: nat, ok: bool)
    requires start + 16 <= |words| && start % 16 == 0
    requires Performs(t0, t1, fails, FullChunks(words[..start]), true)
    requires Performs(t1, t2, fails, [Write(Flatten(words[start..start + 16]))], ok)
    ensures (start + 16) % 16 == 0
    ensures ok ==> Performs(t0, t2, fails, FullChunks(words[..start + 16]), true)
    ensures !ok ==> Performs(t0, t2, fails, BufferedPlan(words), false)
  {
    FullChunksNext(words, start);
    BufferedPrefix(words, start + 16);
    PerformsStep(t0, t1, t2, fails, FullChunks(words[..start]), [Write(Flatten(words[start..start + 16]))],
                 BufferedPlan(words), ok);
  }

  /** The last, partial buffer completes the buffered write. */
  lemma FlushRest(t0: seq<Event>, t1: seq<Event>, t2: seq<Event>, fails: nat -> bool,
                  words: seq<u16>, start: nat, ok: bool)
    requires start <= |words| < start + 16 && start % 16 == 0
    requires Performs(t0, t1, fails, FullChunks(words[..start]), true)
    requires Performs(t1, t2, fails, [Write(Flatten(words[start..|words|]))], ok)
    ensures |words| - start == |words| % 16
    ensures Performs(t0, t2, fails, BufferedPlan(words), ok)
  {
    assert start == Whole(|words|);
    assert words[start..|words|] == words[start..];
    PerformsThen(t0, t1, t2, fails, FullChunks(words[..start]), [Write(Flatten(words[start..]))], ok);
  }

  /** The driver. `opcode` is the byte each instruction is sent as. */
  class ST7735 {
    const hw: Hardware
    const opcode: OpcodeTable
    const rgb: bool
    const inverted: bool
    var dx: u16
    var dy: u16
    const width: u32
    const height: u32

    /** `new`: no offset; nothing is sent. */
    constructor (hw: Hardware, opcode: OpcodeTable, rgb: bool, inverted: bool, width: u32, height: u32)
      ensures this.hw == hw && this.opcode == opcode
      ensures this.rgb == rgb && this.inverted == inverted
      ensures this.width == width && this.height == height
      ensures dx == 0 && dy == 0
      ensures hw.trace == old(hw.trace)
    {
      this.hw := hw;
      this.opcode := opcode;
      this.rgb := rgb;
      this.inverted := inverted;
      this.width := width;
      this.height := height;
      dx := 0;
      dy := 0;
    }

    /** One line of the initialisation table: a command, or a pause. */
    method SendStep(step: Step) returns (r: Result<()>)
      modifies hw
      ensures hw.Did(old(hw.trace), StepPlan(opcode, step), r.Ok?)
    {
      match step
      case Send(i, ps) =>
        r := WriteCommand(i, ps);
      case Wait(ms) =>
        hw.DelayMs(ms);
        r := Ok(());
    }

    /** `init`: the hardware reset, then the initialisation table line by
        line; the first command that fails ends the sequence. */
    method Init() returns (r: Result<()>)
      modifies hw
      ensures hw.Did(old(hw.trace), InitPlan(opcode, inverted, rgb), r.Ok?)
    {
      ghost var t0 := hw.trace;
      var steps := InitSteps(inverted, rgb);
      HardReset();
      assert ResetPlan() + StepsPlan(opcode, steps[..0]) == ResetPlan();
      for k := 0 to |steps|
        invariant hw.Did(t0, ResetPlan() + StepsPlan(opcode, steps[..k]), true)
      {
        ghost var t1 := hw.trace;
        var s := SendStep(steps[k]);
        Advance(t0, t1, hw.trace, hw.fails, opcode, ResetPlan(), steps, k, s.Ok?);
        if s.Err? {
          return Err;
        }
      }
      assert steps[..|steps|] == steps;
      return Ok(());
    }

    /** `hard_reset`: a reset pulse; it cannot fail. */
    method HardReset()
      modifies hw
      ensures hw.Did(old(hw.trace), ResetPlan(), true)
    {
      ghost var t0 := hw.trace;
      hw.SetRst(true);
      hw.DelayMs(10);
      hw.SetRst(false);
      hw.DelayMs(10);
      hw.SetRst(true);
      assert hw.trace == t0 + ResetPlan();
      InitStartsWithReset(opcode, inverted, rgb);
      PerformsNoWrites(t0, ResetPlan(), hw.fails);
    }

    /** `start_data`: the pin high, so that what follows is data. */
    method StartData()
      modifies hw
      ensures hw.trace == old(hw.trace) + [DcHigh]
      ensures hw.Did(old(hw.trace), [DcHigh], true)
    {
      hw.SetDc(true);
    }

    /** `write_data`: one SPI write. */
    method WriteData(data: seq<byte>) returns (r: Result<nat>)
      modifies hw
      ensures hw.Did(old(hw.trace), [Write(data)], r.Ok?)
      ensures r.Ok? ==> r.value == |data|
    {
      r := hw.SpiWrite(data);
    }

    /** `write_word`: one 2-byte big-endian write. */
    method WriteWord(value: u16) returns (r: Result<nat>)
      modifies hw
      ensures hw.Did(old(hw.trace), [Write(BigEndian(value))], r.Ok?)
      ensures r.Ok? ==> r.value == 2
    {
      r := WriteData(BigEndian(value));
    }

    /** `write_command`: the opcode with the pin low, then any parameters
      with the pin high. */
    method WriteCommand(command: Instruction, params: seq<byte>) returns (r: Result<()>)
      modifies hw
      ensures hw.Did(old(hw.trace), CommandPlan(opcode(command), params), r.Ok?)
    {
      ghost var t0 := hw.trace;
      ghost var full := CommandPlan(opcode(command), params);
      CommandPlanShape(opcode(command), params);
      hw.SetDc(false);
      ghost var t1 := hw.trace;
      var w := hw.SpiWrite([opcode(command)]);
      PerformsStep(t0, t1, hw.trace, hw.fails, [DcLow], [Write([opcode(command)])], full, w.Ok?);
      if w.Err? {
        return Err;
      }
      if params != [] {
        ghost var t2 := hw.trace;
        StartData();
        ghost var t3 := hw.trace;
        PerformsStep(t0, t2, t3, hw.fails, [DcLow] + [Write([opcode(command)])], [DcHigh], full, true);
        var d := WriteData(params);
        PerformsStep(t0, t3, hw.trace, hw.fails, [DcLow] + [Write([opcode(command)])] + [DcHigh], [Write(params)], full, d.Ok?);
        if d.Err? {
          return Err;
        }
      }
      return Ok(());
    }

    /** `write_words_buffered`: the words big-endian into a 32-byte buffer,
        flushed whenever it is full, then whatever is left (possibly nothing)
        in one final write whose result is returned. */
    method WriteWordsBuffered(words: seq<u16>) returns (r: Result<nat>)
      modifies hw
      ensures hw.Did(old(hw.trace), BufferedPlan(words), r.Ok?)
      ensures r.Ok? ==> r.value == 2 * (|words| % 16)
    {
      ghost var t0 := hw.trace;
      var buffer := new byte[32];
      var index := 0;
      ghost var start := 0;
      PerformsNothing(t0, hw.fails);
      for i := 0 to |words|
        invariant Buffered(buffer[..], index, words, start, i)
        invariant hw.Did(t0, FullChunks(words[..start]), true)
      {
        var asBytes := BigEndian(words[i]);
        ghost var before := buffer[..];
        buffer[index] := asBytes[0];
        buffer[index + 1] := asBytes[1];
        BufferStep(before, buffer[..], words, start, i, index);
        index := index + 2;
        if index >= buffer.Length {
          ghost var t1 := hw.trace;
          var w := WriteData(buffer[..]);
          FlushChunk(t0, t1, hw.trace, hw.fails, words, start, w.Ok?);
          if w.Err? {
            return Err;
          }
          index := 0;
          start := start + 16;
        }
      }
      ghost var t1 := hw.trace;
      r := WriteData(buffer[..index]);
      FlushRest(t0, t1, hw.trace, hw.fails, words, start, r.Ok?);
    }

    /** `set_orientation`: MADCTL with the orientation code, with the
        colour-order bit set for a BGR panel. */
    method SetOrientation(orientation: Orientation) returns (r: Result<()>)
      modifies hw
      ensures hw.Did(old(hw.trace), OrientationPlan(opcode, orientation, rgb), r.Ok?)
    {
      if rgb {
        r := WriteCommand(MADCTL, [Code(orientation)]);
      } else {
        r := WriteCommand(MADCTL, [SetBgrBit(Code(orientation))]);
      }
      if r.Err? {
        return Err;
      }
      return Ok(());
    }

    /** `set_offset`: only the offset changes; nothing is sent. */
    method SetOffset(dx: u16, dy: u16)
      modifies this
      ensures this.dx == dx && this.dy == dy
      ensures unchanged(hw)
    {
      this.dx := dx;
      this.dy := dy;
    }

    /** One half of `set_address_window`: the command, then the start and
        end word as data. On success, the result of the last word write. */
    method WriteAxis(command: Instruction, lo: u16, hi: u16) returns (r: Result<nat>)
      modifies hw
      ensures hw.Did(old(hw.trace), AxisPlan(opcode(command), lo, hi), r.Ok?)
      ensures r.Ok? ==> r.value == 2
    {
      ghost var t0 := hw.trace;
      ghost var full := AxisPlan(opcode(command), lo, hi);
      AxisSlices(opcode(command), lo, hi);
      PerformsNothing(t0, hw.fails);
      var s := WriteCommand(command, []);
      PerformsSlice(t0, t0, hw.trace, hw.fails, full, 0, 2, s.Ok?);
      if s.Err? {
        return Err;
      }
      ghost var t1 := hw.trace;
      StartData();
      PerformsSlice(t0, t1, hw.trace, hw.fails, full, 2, 3, true);
      t1 := hw.trace;
      r := WriteWord(lo);
      PerformsSlice(t0, t1, hw.trace, hw.fails, full, 3, 4, r.Ok?);
      if r.Err? {
        return Err;
      }
      t1 := hw.trace;
      r := WriteWord(hi);
      PerformsSlice(t0, t1, hw.trace, hw.fails, full, 4, 5, r.Ok?);
    }

    /** `set_address_window`, with the stored offset applied to every word.
        On success, the result of the last word write. */
    method SetAddressWindow(sx: u16, sy: u16, ex: u16, ey: u16) returns (r: Result<nat>)
      requires WindowFits(sx, sy, ex, ey, dx, dy)
      modifies hw
      ensures hw.Did(old(hw.trace), WindowPlan(opcode, sx, sy, ex, ey, dx, dy), r.Ok?)
      ensures r.Ok? ==> r.value == 2
    {
      ghost var t0 := hw.trace;
      ghost var full := WindowPlan(opcode, sx, sy, ex, ey, dx, dy);
      WindowSlices(opcode, sx, sy, ex, ey, dx, dy);
      PerformsNothing(t0, hw.fails);
      r := WriteAxis(CASET, sx + dx, ex + dx);
      PerformsSlice(t0, t0, hw.trace, hw.fails, full, 0, 5, r.Ok?);
      if r.Err? {
        return Err;
      }
      ghost var t1 := hw.trace;
      r := WriteAxis(RASET, sy + dy, ey + dy);
      PerformsSlice(t0, t1, hw.trace, hw.fails, full, 5, 10, r.Ok?);
    }

    /** `set_pixel`: a one-pixel window, RAMWR, then the colour word. On
        success, the result of that word's write. */
    method SetPixel(x: u16, y: u16, color: u16) returns (r: Result<nat>)
      requires WindowFits(x, y, x, y, dx, dy)
      modifies hw
      ensures hw.Did(old(hw.trace), SetPixelPlan(opcode, x, y, color, dx, dy), r.Ok?)
      ensures r.Ok? ==> r.value == 2
    {
      ghost var t0 := hw.trace;
      ghost var full := SetPixelPlan(opcode, x, y, color, dx, dy);
      SetPixelSlices(opcode, x, y, color, dx, dy);
      PerformsNothing(t0, hw.fails);
      r := SetAddressWindow(x, y, x, y);
      PerformsSlice(t0, t0, hw.trace, hw.fails, full, 0, 10, r.Ok?);
      if r.Err? {
        return Err;
      }
      ghost var t1 := hw.trace;
      var s := WriteCommand(RAMWR, []);
      PerformsSlice(t0, t1, hw.trace, hw.fails, full, 10, 12, s.Ok?);
      if s.Err? {
        return Err;
      }
      t1 := hw.trace;
      StartData();
      PerformsSlice(t0, t1, hw.trace, hw.fails, full, 12, 13, true);
      t1 := hw.trace;
      r := WriteWord(color);
      PerformsSlice(t0, t1, hw.trace, hw.fails, full, 13, 14, r.Ok?);
    }

    /** `write_pixels`: RAMWR, then every colour word as its own write; the
        first failed word ends the stream. */
    method WritePixels(colors: seq<u16>) returns (r: Result<()>)
      modifies hw
      ensures hw.Did(old(hw.trace), PixelsPlan(opcode, colors), r.Ok?)
    {
      ghost var t0 := hw.trace;
      ghost var full := PixelsPlan(opcode, colors);
      PixelsSlices(opcode, colors);
      PerformsNothing(t0, hw.fails);
      var s := WriteCommand(RAMWR, []);
      PerformsSlice(t0, t0, hw.trace, hw.fails, full, 0, 2, s.Ok?);
      if s.Err? {
        return Err;
      }
      ghost var t1 := hw.trace;
      StartData();
      PerformsSlice(t0, t1, hw.trace, hw.fails, full, 2, 3, true);
      for i := 0 to |colors|
        invariant hw.Did(t0, full[..3 + i], true)
      {
        t1 := hw.trace;
        var w := WriteWord(colors[i]);
        PixelAt(opcode, colors, i);
        PerformsSlice(t0, t1, hw.trace, hw.fails, full, 3 + i, 4 + i, w.Ok?);
        if w.Err? {
          return Err;
        }
      }
      return Ok(());
    }

    /** `write_pixels_buffered`: RAMWR, then the colours through the 32-byte
        buffer; on success, the result of the final write. */
    method WritePixelsBuffered(colors: seq<u16>) returns (r: Result<nat>)
      modifies hw
      ensures hw.Did(old(hw.trace), PixelsBufferedPlan(opcode, colors), r.Ok?)
      ensures r.Ok? ==> r.value == 2 * (|colors| % 16)
    {
      ghost var t0 := hw.trace;
      ghost var full := PixelsBufferedPlan(opcode, colors);
      BufferedSlices(opcode, colors);
      PerformsNothing(t0, hw.fails);
      var s := WriteCommand(RAMWR, []);
      PerformsSlice(t0, t0, hw.trace, hw.fails, full, 0, 2, s.Ok?);
      if s.Err? {
        return Err;
      }
      ghost var t1 := hw.trace;
      StartData();
      PerformsSlice(t0, t1, hw.trace, hw.fails, full, 2, 3, true);
      t1 := hw.trace;
      r := WriteWordsBuffered(colors);
      PerformsSlice(t0, t1, hw.trace, hw.fails, full, 3, |full|, r.Ok?);
    }

    /** `set_pixels`: the window, then the unbuffered stream. */
    method SetPixels(sx: u16, sy: u16, ex: u16, ey: u16, colors: seq<u16>) returns (r: Result<()>)
      requires WindowFits(sx, sy, ex, ey, dx, dy)
      modifies hw
      ensures hw.Did(old(hw.trace), SetPixelsPlan(opcode, sx, sy, ex, ey, colors, dx, dy), r.Ok?)
    {
      ghost var t0 := hw.trace;
      ghost var window, pixels := WindowPlan(opcode, sx, sy, ex, ey, dx, dy), PixelsPlan(opcode, colors);
      ConcatSlices(window, pixels);
      WindowSlices(opcode, sx, sy, ex, ey, dx, dy);
      PerformsNothing(t0, hw.fails);
      var w := SetAddressWindow(sx, sy, ex, ey);
      PerformsSlice(t0, t0, hw.trace, hw.fails, window + pixels, 0, 10, w.Ok?);
      if w.Err? {
        return Err;
      }
      ghost var t1 := hw.trace;
      r := WritePixels(colors);
      PerformsSlice(t0, t1, hw.trace, hw.fails, window + pixels, 10, 10 + |pixels|, r.Ok?);
    }

    /** `set_pixels_buffered`: the window, then the buffered stream. */
    method SetPixelsBuffered(sx: u16, sy: u16, ex: u16, ey: u16, colors: seq<u16>) returns (r: Result<nat>)
      requires WindowFits(sx, sy, ex, ey, dx, dy)
      modifies hw
      ensures hw.Did(old(hw.trace), SetPixelsBufferedPlan(opcode, sx, sy, ex, ey, colors, dx, dy), r.Ok?)
      ensures r.Ok? ==> r.value == 2 * (|colors| % 16)
    {
      ghost var t0 := hw.trace;
      ghost var window, pixels := WindowPlan(opcode, sx, sy, ex, ey, dx, dy), PixelsBufferedPlan(opcode, colors);
      ConcatSlices(window, pixels);
      WindowSlices(opcode, sx, sy, ex, ey, dx, dy);
      PerformsNothing(t0, hw.fails);
      r := SetAddressWindow(sx, sy, ex, ey);
      PerformsSlice(t0, t0, hw.trace, hw.fails, window + pixels, 0, 10, r.Ok?);
      if r.Err? {
        return Err;
      }
      ghost var t1 := hw.trace;
      r := WritePixelsBuffered(colors);
      PerformsSlice(t0, t1, hw.trace, hw.fails, window + pixels, 10, 10 + |pixels|, r.Ok?);
    }

    /** `OriginDimensions::size`: the rectangle at the origin with this size
        holds exactly the points that `draw_iter` lets through. */
    function Dimensions(): (s: Geometry.Size)
      ensures forall p :: Contains(Rectangle(Point(0, 0), s), p) <==> OnScreen(p, width, height)
    {
      Geometry.Size(width, height)
    }

    /** `DrawTarget::draw_iter`: every on-screen pixel through `set_pixel`, in
        order; off-screen pixels are skipped; the first failure ends it. */
    method DrawIter(pixels: seq<Pixel>) returns (r: Result<()>)
      requires Fits(width, height, dx, dy)
      modifies hw
      ensures hw.Did(old(hw.trace), DrawPlan(opcode, pixels, width, height, dx, dy), r.Ok?)
    {
      ghost var t0 := hw.trace;
      PerformsNothing(t0, hw.fails);
      for i := 0 to |pixels|
        invariant hw.Did(t0, DrawPlan(opcode, pixels[..i], width, height, dx, dy), true)
      {
        var p := pixels[i];
        ghost var t1 := hw.trace;
        var s: Result<nat> := Ok(0);
        if p.coord.x >= 0 && p.coord.y >= 0 && p.coord.x < width && p.coord.y < height {
          s := SetPixel(p.coord.x, p.coord.y, p.color.raw);
        } else {
          PerformsNothing(t1, hw.fails);
        }
        DrawAdvance(t0, t1, hw.trace, hw.fails, opcode, pixels, i, width, height, dx, dy, s.Ok?);
        if s.Err? {
          return Err;
        }
      }
      assert pixels[..|pixels|] == pixels;
      return Ok(());
    }

    /** `DrawTarget::fill_contiguous`: the area clipped to the screen; when
        anything is left, its window and the colours of its points. */
    method FillContiguous(area: Rectangle, colors: seq<Color>) returns (r: Result<()>)
      requires Fits(width, height, dx, dy)
      modifies hw
      ensures hw.Did(old(hw.trace), FillPlan(opcode, area, colors, width, height, dx, dy), r.Ok?)
    {
      var d := Intersection(area, Rectangle(Point(0, 0), Dimensions()));
      assert d == Intersection(area, Screen(width, height));
      if d.size != Geometry.Size(0, 0) {
        var x, y := d.topLeft.x, d.topLeft.y;
        var ex, ey := x + d.size.width - 1, y + d.size.height - 1;
        var cs := Clip(Points(area), colors, d);
        FillCorners(opcode, area, colors, width, height, dx, dy, d, x, y, ex, ey, cs);
        var s := SetPixelsBuffered(x, y, ex, ey, cs);
        if s.Err? {
          return Err;
        }
      } else {
        PerformsNothing(hw.trace, hw.fails);
      }
      return Ok(());
    }

    /** `DrawTarget::clear`: the whole-screen window and `width * height`
        copies of the colour, buffered. */
    method Clear(color: Color) returns (r: Result<()>)
      requires 0 < width < 0x1_0000 && 0 < height < 0x1_0000 && Fits(width, height, dx, dy)
      modifies hw
      ensures hw.Did(old(hw.trace), ClearPlan(opcode, color, width, height, dx, dy), r.Ok?)
    {
      var s := SetPixelsBuffered(0, 0, width - 1, height - 1, Repeat(color.raw, width * height));
      if s.Err? {
        return Err;
      }
      return Ok(());
    }
  }
}
