/** The ST7735 command protocol as the driver speaks it: command framing,
    the address window, the memory-access-control byte and the fixed
    initialisation table. Everything here is a plan, the sequence of events
    an operation produces when no write fails. */
module Protocol {
  import opened Bus
  import opened Sequences
  import opened Instructions
  import opened Encoding

  /** `write_command`: pin low, the opcode as one write, then, only when
      there are parameters, pin high and the parameters as one write. */
  function CommandPlan(op: byte, params: seq<byte>): seq<Event>
  {
    [DcLow, Write([op])] + (if params == [] then [] else [DcHigh, Write(params)])
  }

  /** A command's events, one at a time. */
  lemma CommandPlanShape(op: byte, params: seq<byte>)
    ensures params == [] ==> CommandPlan(op, params) == [DcLow] + [Write([op])]
    ensures params != [] ==> CommandPlan(op, params) == [DcLow] + [Write([op])] + [DcHigh] + [Write(params)]
  {
  }

  /** What the controller receives from a command: the opcode as a command
      byte and the parameters, unchanged and in order, as data. The pin is
      left at data level exactly when there were parameters. */
  lemma CommandFraming(op: byte, params: seq<byte>, data: bool)
    ensures Frames(CommandPlan(op, params), data)
            == [Frame(false, [op])] + (if params == [] then [] else [Frame(true, params)])
    ensures CommandBytes(Frames(CommandPlan(op, params), data)) == [op]
    ensures DataBytes(Frames(CommandPlan(op, params), data)) == params
    ensures DcAfter(CommandPlan(op, params), data) == (params != [])
    ensures WriteCount(CommandPlan(op, params)) == if params == [] then 1 else 2
  {
    var head: seq<Event> := [DcLow, Write([op])];
    var tail: seq<Event> := if params == [] then [] else [DcHigh, Write(params)];
    assert head == [DcLow] + [Write([op])];
    FramesCons(DcLow, [Write([op])], data);
    FramesSingle(DcLow, data);
    FramesSingle(Write([op]), false);
    FramesAppend(head, tail, data);
    WriteCountAppend(head, tail);
    FrameBytesSingle(Frame(false, [op]));
    if params != [] {
      assert tail == [DcHigh] + [Write(params)];
      FramesCons(DcHigh, [Write(params)], false);
      FramesSingle(DcHigh, false);
      FramesSingle(Write(params), true);
      FrameBytesSingle(Frame(true, params));
      DataBytesAppend([Frame(false, [op])], [Frame(true, params)]);
      CommandBytesAppend([Frame(false, [op])], [Frame(true, params)]);
    } else {
      assert [Frame(false, [op])] + [] == [Frame(false, [op])];
    }
  }

  // ---------------------------------------------------------------- address window

  /** The window coordinates plus the global offset stay within `u16`. */
  predicate WindowFits(sx: u16, sy: u16, ex: u16, ey: u16, dx: u16, dy: u16) {
    sx + dx < 0x1_0000 && ex + dx < 0x1_0000 && sy + dy < 0x1_0000 && ey + dy < 0x1_0000
  }

  /** Pin high, then one write per word. */
  function WordPair(a: u16, b: u16): seq<Event>
  {
    [DcHigh, Write(BigEndian(a)), Write(BigEndian(b))]
  }

  /** One axis of `set_address_window`: the command, the pin high, then the
      start and the end word, each its own write. */
  function AxisPlan(cmd: byte, lo: u16, hi: u16): seq<Event>
  {
    CommandPlan(cmd, []) + WordPair(lo, hi)
  }

  /** `set_address_window`: CASET with the two column words shifted by `dx`,
      then RASET with the two row words shifted by `dy`. */
  function WindowPlan(op: OpcodeTable, sx: u16, sy: u16, ex: u16, ey: u16, dx: u16, dy: u16): seq<Event>
    requires WindowFits(sx, sy, ex, ey, dx, dy)
  {
    AxisPlan(op(CASET), sx + dx, ex + dx) + AxisPlan(op(RASET), sy + dy, ey + dy)
  }

  /** An axis's events, cut where the driver's calls begin and end. */
  lemma AxisSlices(cmd: byte, lo: u16, hi: u16)
    ensures var full := AxisPlan(cmd, lo, hi);
            && |full| == 5 && full[..5] == full && full[..0] == []
            && full[0..2] == CommandPlan(cmd, []) && full[2..3] == [DcHigh]
            && full[3..4] == [Write(BigEndian(lo))] && full[4..5] == [Write(BigEndian(hi))]
  {
  }

  /** The window's two axes. */
  lemma WindowSlices(op: OpcodeTable, sx: u16, sy: u16, ex: u16, ey: u16, dx: u16, dy: u16)
    requires WindowFits(sx, sy, ex, ey, dx, dy)
    ensures var full := WindowPlan(op, sx, sy, ex, ey, dx, dy);
            && |full| == 10 && full[..10] == full && full[..0] == []
            && full[0..5] == AxisPlan(op(CASET), sx + dx, ex + dx)
            && full[5..10] == AxisPlan(op(RASET), sy + dy, ey + dy)
  {
  }

  lemma FlattenPair(a: u16, b: u16)
    ensures Flatten([a, b]) == BigEndian(a) + BigEndian(b)
  {
    assert [a, b][..1] == [a];
    assert [a][..0] == [];
  }

  /** Pin high and two word writes: both words reach the controller as data,
      big-endian, and the pin is left high. */
  lemma WordPairFraming(a: u16, b: u16, data: bool)
    ensures Frames(WordPair(a, b), data) == [Frame(true, BigEndian(a)), Frame(true, BigEndian(b))]
    ensures DataBytes(Frames(WordPair(a, b), data)) == Flatten([a, b])
    ensures CommandBytes(Frames(WordPair(a, b), data)) == []
    ensures DcAfter(WordPair(a, b), data)
    ensures WriteCount(WordPair(a, b)) == 2
  {
    var wa, wb := Write(BigEndian(a)), Write(BigEndian(b));
    assert WordPair(a, b) == [DcHigh] + ([wa] + [wb]);
    FramesCons(DcHigh, [wa] + [wb], data);
    FramesSingle(DcHigh, data);
    FramesCons(wa, [wb], true);
    FramesSingle(wa, true);
    FramesSingle(wb, true);
    var fa, fb := Frame(true, BigEndian(a)), Frame(true, BigEndian(b));
    FrameBytesSingle(fa);
    FrameBytesSingle(fb);
    DataBytesAppend([fa], [fb]);
    CommandBytesAppend([fa], [fb]);
    FlattenPair(a, b);
  }

  /** What the controller receives from one axis: the command byte, then
      the start and end word as data; the pin is left high. */
  lemma AxisFraming(cmd: byte, lo: u16, hi: u16, data: bool)
    ensures Frames(AxisPlan(cmd, lo, hi), data)
            == [Frame(false, [cmd]), Frame(true, BigEndian(lo)), Frame(true, BigEndian(hi))]
    ensures DcAfter(AxisPlan(cmd, lo, hi), data)
    ensures WriteCount(AxisPlan(cmd, lo, hi)) == 3
  {
    var c, w := CommandPlan(cmd, []), WordPair(lo, hi);
    CommandFraming(cmd, [], data);
    WordPairFraming(lo, hi, false);
    FramesAppend(c, w, data);
    WriteCountAppend(c, w);
  }

  /** What the controller receives from the window: CASET then RASET as
      commands, each followed by its start and end word, offset applied, as
      data; the pin is left high for the pixel data that follows. */
  lemma WindowFraming(op: OpcodeTable, sx: u16, sy: u16, ex: u16, ey: u16, dx: u16, dy: u16, data: bool)
    requires WindowFits(sx, sy, ex, ey, dx, dy)
    ensures Frames(WindowPlan(op, sx, sy, ex, ey, dx, dy), data)
            == [Frame(false, [op(CASET)]), Frame(true, BigEndian(sx + dx)), Frame(true, BigEndian(ex + dx)),
                Frame(false, [op(RASET)]), Frame(true, BigEndian(sy + dy)), Frame(true, BigEndian(ey + dy))]
    ensures DcAfter(WindowPlan(op, sx, sy, ex, ey, dx, dy), data)
    ensures WriteCount(WindowPlan(op, sx, sy, ex, ey, dx, dy)) == 6
  {
    var x, y := AxisPlan(op(CASET), sx + dx, ex + dx), AxisPlan(op(RASET), sy + dy, ey + dy);
    AxisFraming(op(CASET), sx + dx, ex + dx, data);
    AxisFraming(op(RASET), sy + dy, ey + dy, true);
    FramesAppend(x, y, data);
    WriteCountAppend(x, y);
  }

  // ---------------------------------------------------------------- pixel data

  /** RAMWR with no parameters, then the pin high for the pixel data. */
  function RamwrPlan(op: OpcodeTable): seq<Event>
  {
    CommandPlan(op(RAMWR), []) + [DcHigh]
  }

  /** `write_pixels`: RAMWR, then one 2-byte write per colour word. */
  function PixelsPlan(op: OpcodeTable, colors: seq<u16>): seq<Event>
  {
    RamwrPlan(op) + WordWrites(colors)
  }

  /** `write_pixels_buffered`: RAMWR, then the colours in 32-byte chunks. */
  function PixelsBufferedPlan(op: OpcodeTable, colors: seq<u16>): seq<Event>
  {
    RamwrPlan(op) + BufferedPlan(colors)
  }

  /** `set_pixel`: a one-pixel window, RAMWR, one colour word. */
  function SetPixelPlan(op: OpcodeTable, x: u16, y: u16, color: u16, dx: u16, dy: u16): seq<Event>
    requires WindowFits(x, y, x, y, dx, dy)
  {
    WindowPlan(op, x, y, x, y, dx, dy) + PixelsPlan(op, [color])
  }

  /** `set_pixels`: the window, then the unbuffered stream. */
  function SetPixelsPlan(op: OpcodeTable, sx: u16, sy: u16, ex: u16, ey: u16, colors: seq<u16>, dx: u16, dy: u16): seq<Event>
    requires WindowFits(sx, sy, ex, ey, dx, dy)
  {
    WindowPlan(op, sx, sy, ex, ey, dx, dy) + PixelsPlan(op, colors)
  }

  /** `set_pixels_buffered`: the window, then the buffered stream. */
  function SetPixelsBufferedPlan(op: OpcodeTable, sx: u16, sy: u16, ex: u16, ey: u16, colors: seq<u16>, dx: u16, dy: u16): seq<Event>
    requires WindowFits(sx, sy, ex, ey, dx, dy)
  {
    WindowPlan(op, sx, sy, ex, ey, dx, dy) + PixelsBufferedPlan(op, colors)
  }

  /** The unbuffered stream, cut where the driver's calls begin and end. */
  lemma PixelsSlices(op: OpcodeTable, colors: seq<u16>)
    ensures var full := PixelsPlan(op, colors);
            && |full| == 3 + |colors| && full[..|full|] == full && full[..0] == []
            && full[0..2] == CommandPlan(op(RAMWR), []) && full[2..3] == [DcHigh]
  {
  }

  /** The i-th colour's write in the unbuffered stream. */
  lemma PixelAt(op: OpcodeTable, colors: seq<u16>, i: nat)
    requires i < |colors|
    ensures PixelsPlan(op, colors)[3 + i..4 + i] == [Write(BigEndian(colors[i]))]
  {
    assert PixelsPlan(op, colors)[3 + i] == Write(BigEndian(colors[i]));
  }

  /** The buffered stream, cut where the driver's calls begin and end. */
  lemma BufferedSlices(op: OpcodeTable, colors: seq<u16>)
    ensures var full := PixelsBufferedPlan(op, colors);
            && |full| >= 3 && full[..|full|] == full && full[..0] == []
            && full[0..2] == CommandPlan(op(RAMWR), []) && full[2..3] == [DcHigh]
            && full[3..|full|] == BufferedPlan(colors)
  {
  }

  /** A single pixel, cut where the driver's calls begin and end. */
  lemma SetPixelSlices(op: OpcodeTable, x: u16, y: u16, color: u16, dx: u16, dy: u16)
    requires WindowFits(x, y, x, y, dx, dy)
    ensures var full := SetPixelPlan(op, x, y, color, dx, dy);
            && |full| == 14 && full[..14] == full && full[..0] == []
            && full[0..10] == WindowPlan(op, x, y, x, y, dx, dy)
            && full[10..12] == CommandPlan(op(RAMWR), []) && full[12..13] == [DcHigh]
            && full[13..14] == [Write(BigEndian(color))]
  {
    WindowSlices(op, x, y, x, y, dx, dy);
    var w := WindowPlan(op, x, y, x, y, dx, dy);
    var p := PixelsPlan(op, [color]);
    PixelsSlices(op, [color]);
    PixelAt(op, [color], 0);
    assert (w + p)[10..14] == p;
  }

  lemma RamwrFraming(op: OpcodeTable, data: bool)
    ensures Frames(RamwrPlan(op), data) == [Frame(false, [op(RAMWR)])]
    ensures DcAfter(RamwrPlan(op), data)
  {
    CommandFraming(op(RAMWR), [], data);
    FramesAppend(CommandPlan(op(RAMWR), []), [DcHigh], data);
    FramesSingle(DcHigh, false);
  }

  /** A stream of writes after RAMWR: RAMWR is the only command byte and the
      written bytes are all data. */
  lemma StreamFraming(op: OpcodeTable, writes: seq<Event>, data: bool)
    requires OnlyWrites(writes)
    ensures CommandBytes(Frames(RamwrPlan(op) + writes, data)) == [op(RAMWR)]
    ensures DataBytes(Frames(RamwrPlan(op) + writes, data)) == WrittenBytes(writes)
  {
    RamwrFraming(op, data);
    FramesAppend(RamwrPlan(op), writes, data);
    WritesAreData(writes);
    var f := [Frame(false, [op(RAMWR)])];
    FrameBytesSingle(Frame(false, [op(RAMWR)]));
    DataBytesAppend(f, Frames(writes, true));
    CommandBytesAppend(f, Frames(writes, true));
  }

  /** The two pixel paths agree: whichever of them streams the colours, the
      controller receives RAMWR as the only command and the big-endian
      colour words, in order, as data. */
  lemma PixelPathsAgree(op: OpcodeTable, colors: seq<u16>, data: bool)
    ensures CommandBytes(Frames(PixelsPlan(op, colors), data)) == [op(RAMWR)]
    ensures CommandBytes(Frames(PixelsBufferedPlan(op, colors), data)) == [op(RAMWR)]
    ensures DataBytes(Frames(PixelsPlan(op, colors), data)) == Flatten(colors)
    ensures DataBytes(Frames(PixelsBufferedPlan(op, colors), data)) == Flatten(colors)
  {
    WordWritesBytes(colors);
    StreamFraming(op, WordWrites(colors), data);
    BufferedChunking(colors);
    BufferedContent(colors);
    StreamFraming(op, BufferedPlan(colors), data);
  }

  // ---------------------------------------------------------------- orientation

  /** The panel orientations, each with its memory-access-control code. */
  datatype Orientation = Portrait | Landscape | PortraitSwapped | LandscapeSwapped

  /** `orientation as u8`. Bit 3 (the colour-order bit) is clear in every code. */
  function Code(o: Orientation): (b: byte)
    ensures (b / 8) % 2 == 0
  {
    match o
    case Portrait => 0x00
    case Landscape => 0x60
    case PortraitSwapped => 0xC0
    case LandscapeSwapped => 0xA0
  }

  /** `b | 0x08`: sets bit 3 and leaves every other bit as it was. */
  function SetBgrBit(b: byte): (r: byte)
    ensures (r / 8) % 2 == 1
    ensures r % 8 == b % 8 && r / 16 == b / 16
    ensures (b / 8) % 2 == 1 ==> r == b
  {
    if (b / 8) % 2 == 1 then b else b + 8
  }

  /** The MADCTL parameter `set_orientation` sends: the code itself for an RGB
      panel, the code with the colour-order bit set for a BGR panel. */
  function MadctlByte(o: Orientation, rgb: bool): byte
  {
    if rgb then Code(o) else SetBgrBit(Code(o))
  }

  /** The colour order lives in bit 3 alone: the BGR byte is the RGB byte
      plus that bit, and bit 3 tells which order was requested. */
  lemma MadctlColourBit(o: Orientation)
    ensures MadctlByte(o, false) == MadctlByte(o, true) + 8
    ensures (MadctlByte(o, true) / 8) % 2 == 0 && (MadctlByte(o, false) / 8) % 2 == 1
  {
  }

  /** Reading a MADCTL byte back: the orientation and colour order it encodes. */
  function DecodeMadctl(b: byte): (r: Option<(Orientation, bool)>)
  {
    var rgb := (b / 8) % 2 == 0;
    var code := if rgb then b else b - 8;
    if code == 0x00 then Some((Portrait, rgb))
    else if code == 0x60 then Some((Landscape, rgb))
    else if code == 0xC0 then Some((PortraitSwapped, rgb))
    else if code == 0xA0 then Some((LandscapeSwapped, rgb))
    else None
  }

  /** Round trip: every byte `set_orientation` can send decodes to the
      orientation and colour order it was sent for. */
  lemma MadctlRoundTrip(o: Orientation, rgb: bool)
    ensures DecodeMadctl(MadctlByte(o, rgb)) == Some((o, rgb))
  {
  }

  /** Consequently no two requests share a byte. */
  lemma MadctlInjective(o1: Orientation, rgb1: bool, o2: Orientation, rgb2: bool)
    ensures MadctlByte(o1, rgb1) == MadctlByte(o2, rgb2) <==> o1 == o2 && rgb1 == rgb2
  {
    MadctlRoundTrip(o1, rgb1);
    MadctlRoundTrip(o2, rgb2);
  }

  /** `set_orientation`: one MADCTL command carrying the orientation byte. */
  function OrientationPlan(op: OpcodeTable, o: Orientation, rgb: bool): seq<Event>
  {
    CommandPlan(op(MADCTL), [MadctlByte(o, rgb)])
  }

  /** What the controller receives from `set_orientation`: the MADCTL opcode
      and a single parameter byte decoding to the request. */
  lemma OrientationFraming(op: OpcodeTable, o: Orientation, rgb: bool, data: bool)
    ensures CommandBytes(Frames(OrientationPlan(op, o, rgb), data)) == [op(MADCTL)]
    ensures var ps := DataBytes(Frames(OrientationPlan(op, o, rgb), data));
            |ps| == 1 && DecodeMadctl(ps[0]) == Some((o, rgb))
  {
    CommandFraming(op(MADCTL), [MadctlByte(o, rgb)], data);
    MadctlRoundTrip(o, rgb);
  }

  // ---------------------------------------------------------------- initialisation

  /** One line of the initialisation table: a command with its parameters,
      or a pause. */
  datatype Step = Send(ins: Instruction, params: seq<byte>) | Wait(ms: byte)

  /** The commands `init` sends after the hardware reset, in order. */
  function InitSteps(inverted: bool, rgb: bool): (steps: seq<Step>)
    ensures |steps| == 19
  {
    [ Send(SWRESET, []), Wait(200),
      Send(SLPOUT, []), Wait(200),
      Send(FRMCTR1, [0x01, 0x2C, 0x2D]),
      Send(FRMCTR2, [0x01, 0x2C, 0x2D]),
      Send(FRMCTR3, [0x01, 0x2C, 0x2D, 0x01, 0x2C, 0x2D]),
      Send(INVCTR, [0x07]),
      Send(PWCTR1, [0xA2, 0x02, 0x84]),
      Send(PWCTR2, [0xC5]),
      Send(PWCTR3, [0x0A, 0x00]),
      Send(PWCTR4, [0x8A, 0x2A]),
      Send(PWCTR5, [0x8A, 0xEE]),
      Send(VMCTR1, [0x0E]),
      Send(if inverted then INVON else INVOFF, []),
      Send(MADCTL, if rgb then [0x00] else [0x08]),
      Send(COLMOD, [0x05]),
      Send(DISPON, []), Wait(200) ]
  }

  /** Whether the table sends instruction `i`. */
  predicate Sends(steps: seq<Step>, i: Instruction) {
    exists k :: 0 <= k < |steps| && steps[k].Send? && steps[k].ins == i
  }

  /** Inversion: INVON is sent exactly when the panel is inverted, INVOFF
      exactly when it is not. */
  lemma InitInversion(inverted: bool, rgb: bool)
    ensures Sends(InitSteps(inverted, rgb), INVON) <==> inverted
    ensures Sends(InitSteps(inverted, rgb), INVOFF) <==> !inverted
  {
    var steps := InitSteps(inverted, rgb);
    assert steps[14].Send? && steps[14].ins == (if inverted then INVON else INVOFF);
    forall k | 0 <= k < |steps| && k != 14 ensures steps[k].Wait? || (steps[k].ins != INVON && steps[k].ins != INVOFF) {
    }
  }

  /** Colour order: the table's MADCTL parameter is the byte `set_orientation`
      would send for the portrait orientation, and COLMOD selects 16-bit colour
      (the format of the colour words the driver streams). */
  lemma InitMadctl(inverted: bool, rgb: bool)
    ensures var steps := InitSteps(inverted, rgb);
            forall k :: 0 <= k < |steps| && steps[k].Send? && steps[k].ins == MADCTL ==>
              steps[k].params == [MadctlByte(Portrait, rgb)]
    ensures var steps := InitSteps(inverted, rgb);
            forall k :: 0 <= k < |steps| && steps[k].Send? && steps[k].ins == COLMOD ==>
              steps[k].params == [0x05]
  {
  }

  /** Pacing: the only pauses are 200 ms, each right after SWRESET, SLPOUT
      or DISPON ... */
  lemma InitPauses(inverted: bool, rgb: bool)
    ensures var steps := InitSteps(inverted, rgb);
            forall k :: 0 <= k < |steps| && steps[k].Wait? ==>
              && steps[k].ms == 200 && 0 < k
              && steps[k - 1] in {Send(SWRESET, []), Send(SLPOUT, []), Send(DISPON, [])}
  {
  }

  /** ... and each of those three commands is followed by one. */
  lemma InitPausesFollow(inverted: bool, rgb: bool)
    ensures var steps := InitSteps(inverted, rgb);
            forall k :: 0 <= k < |steps| && steps[k] in {Send(SWRESET, []), Send(SLPOUT, []), Send(DISPON, [])} ==>
              k + 1 < |steps| && steps[k + 1] == Wait(200)
  {
  }

  /** Each instruction appears at most once in the table. */
  lemma InitDistinct(inverted: bool, rgb: bool)
    ensures var steps := InitSteps(inverted, rgb);
            forall j, k :: 0 <= j < k < |steps| && steps[j].Send? && steps[k].Send? ==> steps[j].ins != steps[k].ins
  {
  }

  /** The events of one table line. */
  function StepPlan(op: OpcodeTable, s: Step): seq<Event>
  {
    match s
    case Send(i, ps) => CommandPlan(op(i), ps)
    case Wait(ms) => [Delay(ms)]
  }

  /** The events of the table lines, in order. */
  function StepsPlan(op: OpcodeTable, steps: seq<Step>): seq<Event>
    decreases |steps|
  {
    if steps == [] then [] else StepsPlan(op, steps[..|steps| - 1]) + StepPlan(op, steps[|steps| - 1])
  }

  lemma {:induction false} StepsPlanAppend(op: OpcodeTable, a: seq<Step>, b: seq<Step>)
    ensures StepsPlan(op, a + b) == StepsPlan(op, a) + StepsPlan(op, b)
    decreases |b|
  {
    if b == [] {
      assert a + b == a;
    } else {
      var b', last := b[..|b| - 1], b[|b| - 1];
      assert (a + b)[..|a + b| - 1] == a + b';
      assert (a + b)[|a + b| - 1] == last;
      assert StepsPlan(op, a + b) == StepsPlan(op, a + b') + StepPlan(op, last);
      StepsPlanAppend(op, a, b');
      assert StepsPlan(op, b) == StepsPlan(op, b') + StepPlan(op, last);
      Associate(StepsPlan(op, a), StepsPlan(op, b'), StepPlan(op, last));
    }
  }

  /** The first k lines of the table plan to a prefix of the whole table's plan. */
  lemma StepsPlanPrefix(op: OpcodeTable, steps: seq<Step>, k: nat)
    requires k <= |steps|
    ensures StepsPlan(op, steps[..k]) <= StepsPlan(op, steps)
  {
    SplitAt(steps, k);
    StepsPlanAppend(op, steps[..k], steps[k..]);
    PrefixOfConcat(StepsPlan(op, steps[..k]), StepsPlan(op, steps[k..]));
  }

  /** Line k extends the plan of the lines before it. */
  lemma StepsPlanSnoc(op: OpcodeTable, steps: seq<Step>, k: nat)
    requires k < |steps|
    ensures StepsPlan(op, steps[..k + 1]) == StepsPlan(op, steps[..k]) + StepPlan(op, steps[k])
  {
    TakeTake(steps, k);
  }

  /** `hard_reset`: reset high, 10 ms, reset low, 10 ms, reset high. */
  function ResetPlan(): seq<Event>
  {
    [RstHigh, Delay(10), RstLow, Delay(10), RstHigh]
  }

  /** `init`: the hardware reset, then the table. */
  function InitPlan(op: OpcodeTable, inverted: bool, rgb: bool): seq<Event>
  {
    ResetPlan() + StepsPlan(op, InitSteps(inverted, rgb))
  }

  /** The reset pulse comes first, leaves the pin high, and sends nothing. */
  lemma InitStartsWithReset(op: OpcodeTable, inverted: bool, rgb: bool)
    ensures InitPlan(op, inverted, rgb)[..5] == [RstHigh, Delay(10), RstLow, Delay(10), RstHigh]
    ensures WriteCount(ResetPlan()) == 0
  {
    var r := ResetPlan();
    assert r[1..][1..][1..][1..][1..] == [];
  }

  /** Straight-line replay of the table: after line k the trace holds the
      plan of lines 0..k; a failure in line k is a failure of the whole plan. */
  lemma Advance(t0: seq<Event>, t1: seq<Event>, t2: seq<Event>, fails: nat -> bool,
                op: OpcodeTable, pre: seq<Event>, steps: seq<Step>, k: nat, ok: bool)
    requires k < |steps|
    requires Performs(t0, t1, fails, pre + StepsPlan(op, steps[..k]), true)
    requires Performs(t1, t2, fails, StepPlan(op, steps[k]), ok)
    ensures Performs(t0, t2, fails, pre + StepsPlan(op, steps[..k + 1]), ok)
    ensures !ok ==> Performs(t0, t2, fails, pre + StepsPlan(op, steps), false)
  {
    var done := pre + StepsPlan(op, steps[..k]);
    PerformsThen(t0, t1, t2, fails, done, StepPlan(op, steps[k]), ok);
    StepsPlanSnoc(op, steps, k);
    Associate(pre, StepsPlan(op, steps[..k]), StepPlan(op, steps[k]));
    if !ok {
      StepsPlanPrefix(op, steps, k + 1);
      PrefixUnder(pre, StepsPlan(op, steps[..k + 1]), StepsPlan(op, steps));
      PerformsStop(t0, t2, fails, pre + StepsPlan(op, steps[..k + 1]), pre + StepsPlan(op, steps));
    }
  }
}
