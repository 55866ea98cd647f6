/** The collaborators of the driver -- the SPI bus, the data/command pin, the
    reset pin and the millisecond delay -- seen together as one append-only
    trace of events, and the failure semantics of replaying a planned
    sequence of events on a bus whose writes may fail. */
module Bus {
  import opened Sequences

  /** An 8-bit byte as the bus transmits it. */
  type byte = x: int | 0 <= x < 0x100

  /** Rust's `u16` and `u32`. */
  type u16 = x: int | 0 <= x < 0x1_0000
  type u32 = x: int | 0 <= x < 0x1_0000_0000

  /** The driver's `Result<T, ()>`: every failure is the same, uninterpreted bus error. */
  datatype Result<T> = Ok(value: T) | Err

  datatype Option<T> = None | Some(value: T)

  /** One observable action on the hardware. */
  datatype Event =
    | DcLow                     // data/command pin low: what follows is a command
    | DcHigh                    // data/command pin high: what follows is data
    | RstHigh
    | RstLow
    | Delay(ms: byte)           // blocking `delay_ms`
    | Write(bytes: seq<byte>)   // one SPI write call

  /** How many SPI write calls the events contain. */
  function WriteCount(events: seq<Event>): nat
  {
    if events == [] then 0
    else (if events[0].Write? then 1 else 0) + WriteCount(events[1..])
  }

  lemma {:induction false} WriteCountAppend(a: seq<Event>, b: seq<Event>)
    ensures WriteCount(a + b) == WriteCount(a) + WriteCount(b)
  {
    if a == [] {
      assert a + b == b;
    } else {
      assert (a + b)[0] == a[0];
      assert (a + b)[1..] == a[1..] + b;
      WriteCountAppend(a[1..], b);
    }
  }

  /** What replaying a plan produced: how many of its events happened, and
      whether every write succeeded. */
  datatype Outcome = Outcome(done: nat, ok: bool)

  /** Replays `plan` on a bus whose k-th write call (counted from the start of the
      trace) fails exactly when `fails(k)`; `n` writes happened before. Every
      `?` of the driver returns right after a failing write, so the replay stops
      there: the failing write was attempted and nothing after it happens. */
  function Run(plan: seq<Event>, fails: nat -> bool, n: nat): (o: Outcome)
    ensures o.done <= |plan|
    ensures o.ok ==> o.done == |plan|
    decreases |plan|
  {
    if plan == [] then Outcome(0, true)
    else if plan[0].Write? && fails(n) then Outcome(1, false)
    else
      var rest := Run(plan[1..], fails, n + (if plan[0].Write? then 1 else 0));
      Outcome(1 + rest.done, rest.ok)
  }

  /** A replay succeeds exactly when none of the writes of its plan fail. */
  lemma {:induction false} RunOkIff(plan: seq<Event>, fails: nat -> bool, n: nat)
    ensures Run(plan, fails, n).ok <==> forall k :: n <= k < n + WriteCount(plan) ==> !fails(k)
    decreases |plan|
  {
    if plan != [] {
      RunOkIff(plan[1..], fails, n + (if plan[0].Write? then 1 else 0));
    }
  }

  /** A failed replay stops right after a write, the first one of the plan that
      fails: every write before it succeeded. */
  lemma {:induction false} RunStopsAtFirstFailure(plan: seq<Event>, fails: nat -> bool, n: nat)
    ensures var o := Run(plan, fails, n);
            !o.ok ==>
              && o.done > 0 && plan[o.done - 1].Write?
              && var w := WriteCount(plan[..o.done]);
                 w > 0 && fails(n + w - 1) && forall k :: n <= k < n + w - 1 ==> !fails(k)
    decreases |plan|
  {
    if plan != [] && !(plan[0].Write? && fails(n)) {
      var step := if plan[0].Write? then 1 else 0;
      RunStopsAtFirstFailure(plan[1..], fails, n + step);
      var o := Run(plan[1..], fails, n + step);
      if !o.ok {
        assert plan[..1 + o.done][1..] == plan[1..][..o.done];
      }
    } else if plan != [] {
      assert plan[..1][1..] == [];
    }
  }

  /** Replaying `a + b` after a successful replay of `a` continues with `b`,
      whose writes are counted from `m`, the count after the writes of `a`. */
  lemma {:induction false} RunAppendOkFrom(a: seq<Event>, b: seq<Event>, fails: nat -> bool, n: nat, m: nat)
    requires Run(a, fails, n).ok && m == n + WriteCount(a)
    ensures Run(a + b, fails, n) == Outcome(|a| + Run(b, fails, m).done, Run(b, fails, m).ok)
    decreases |a|
  {
    if a == [] {
      assert a + b == b;
    } else {
      var step := if a[0].Write? then 1 else 0;
      assert (a + b)[0] == a[0] && (a + b)[1..] == a[1..] + b;
      RunAppendOkFrom(a[1..], b, fails, n + step, m);
    }
  }

  /** Replaying `a + b` after a successful replay of `a` continues with `b`. */
  lemma RunAppendOk(a: seq<Event>, b: seq<Event>, fails: nat -> bool, n: nat)
    requires Run(a, fails, n).ok
    ensures var p := Run(b, fails, n + WriteCount(a));
            Run(a + b, fails, n) == Outcome(|a| + p.done, p.ok)
  {
    RunAppendOkFrom(a, b, fails, n, n + WriteCount(a));
  }

  /** Once a replay of `a` fails, whatever follows `a` is never replayed. */
  lemma {:induction false} RunAppendFail(a: seq<Event>, b: seq<Event>, fails: nat -> bool, n: nat)
    requires !Run(a, fails, n).ok
    ensures Run(a + b, fails, n) == Run(a, fails, n)
    decreases |a|
  {
    assert (a + b)[0] == a[0];
    if !(a[0].Write? && fails(n)) {
      assert (a + b)[1..] == a[1..] + b;
      RunAppendFail(a[1..], b, fails, n + (if a[0].Write? then 1 else 0));
    }
  }

  /** The trace went from `t0` to `t1` by replaying `plan` (with failure oracle
      `fails`): the events that happened are the plan up to where the replay
      stopped, and `ok` tells whether it ran to the end. */
  ghost predicate Performs(t0: seq<Event>, t1: seq<Event>, fails: nat -> bool, plan: seq<Event>, ok: bool) {
    var o := Run(plan, fails, WriteCount(t0));
    t1 == t0 + plan[..o.done] && ok == o.ok
  }

  /** Sequencing: a successful `a` followed by `b` performs `a + b`. */
  lemma PerformsThen(t0: seq<Event>, t1: seq<Event>, t2: seq<Event>, fails: nat -> bool,
                     a: seq<Event>, b: seq<Event>, ok: bool)
    requires Performs(t0, t1, fails, a, true)
    requires Performs(t1, t2, fails, b, ok)
    ensures Performs(t0, t2, fails, a + b, ok)
  {
    var n := WriteCount(t0);
    var p := Run(b, fails, WriteCount(t1));
    assert t1 == t0 + a;
    assert WriteCount(t1) == n + WriteCount(a) by { WriteCountAppend(t0, a); }
    RunAppendOk(a, b, fails, n);
    assert t2 == t0 + (a + b)[..|a| + p.done] by {
      TakeAppend(a, b, p.done);
      assert (t0 + a) + b[..p.done] == t0 + (a + b[..p.done]);
    }
  }

  /** Early return: a failed replay of a prefix of `full` is a failed replay of `full`. */
  lemma PerformsStop(t0: seq<Event>, t1: seq<Event>, fails: nat -> bool, a: seq<Event>, full: seq<Event>)
    requires Performs(t0, t1, fails, a, false)
    requires a <= full
    ensures Performs(t0, t1, fails, full, false)
  {
    var o := Run(a, fails, WriteCount(t0));
    assert full == a + full[|a|..];
    RunAppendFail(a, full[|a|..], fails, WriteCount(t0));
    assert full[..o.done] == a[..o.done];
  }

  /** Nothing planned, nothing done. */
  lemma PerformsNothing(t0: seq<Event>, fails: nat -> bool)
    ensures Performs(t0, t0, fails, [], true)
  {
  }

  /** A pin change or a delay always happens. */
  lemma PerformsSilent(t0: seq<Event>, e: Event, fails: nat -> bool)
    requires !e.Write?
    ensures Performs(t0, t0 + [e], fails, [e], true)
  {
    assert [e][1..] == [];
    assert [e][..1] == [e];
  }

  /** A write happens; it fails exactly when the oracle says so for its index. */
  lemma PerformsWrite(t0: seq<Event>, bs: seq<byte>, fails: nat -> bool)
    ensures Performs(t0, t0 + [Write(bs)], fails, [Write(bs)], !fails(WriteCount(t0)))
  {
    assert [Write(bs)][1..] == [];
    assert [Write(bs)][..1] == [Write(bs)];
  }

  /** One step of a straight-line operation: after a successful `done`, the
      step `next` is performed; if it fails, the operation as a whole (any
      continuation `full` of `done + next`) has failed. */
  lemma PerformsStep(t0: seq<Event>, t1: seq<Event>, t2: seq<Event>, fails: nat -> bool,
                     done: seq<Event>, next: seq<Event>, full: seq<Event>, ok: bool)
    requires Performs(t0, t1, fails, done, true)
    requires Performs(t1, t2, fails, next, ok)
    requires done + next <= full
    ensures Performs(t0, t2, fails, done + next, ok)
    ensures !ok ==> Performs(t0, t2, fails, full, false)
  {
    PerformsThen(t0, t1, t2, fails, done, next, ok);
    if !ok {
      PerformsStop(t0, t2, fails, done + next, full);
    }
  }

  /** An operation that only changes pins and waits performs its whole plan. */
  lemma {:induction false} PerformsNoWrites(t0: seq<Event>, es: seq<Event>, fails: nat -> bool)
    requires WriteCount(es) == 0
    ensures Performs(t0, t0 + es, fails, es, true)
  {
    RunOkIff(es, fails, WriteCount(t0));
    assert es[..|es|] == es;
  }

  /** Step `full[k..j]` after `full[..k]`: a prefix of `full` done, or all of `full` failed. */
  lemma PerformsSlice(t0: seq<Event>, t1: seq<Event>, t2: seq<Event>, fails: nat -> bool,
                      full: seq<Event>, k: nat, j: nat, ok: bool)
    requires k <= j <= |full|
    requires Performs(t0, t1, fails, full[..k], true)
    requires Performs(t1, t2, fails, full[k..j], ok)
    ensures Performs(t0, t2, fails, full[..j], ok)
    ensures !ok ==> Performs(t0, t2, fails, full, false)
  {
    assert full[..k] + full[k..j] == full[..j];
    PerformsStep(t0, t1, t2, fails, full[..k], full[k..j], full, ok);
  }

  /** A replay performs a prefix of its plan, and all of it exactly when it succeeds. */
  lemma PerformsPrefix(t0: seq<Event>, t1: seq<Event>, fails: nat -> bool, plan: seq<Event>, ok: bool)
    requires Performs(t0, t1, fails, plan, ok)
    ensures t1[..|t0|] == t0 && t1[|t0|..] <= plan
    ensures ok ==> t1 == t0 + plan
  {
    assert t1[|t0|..] == plan[..Run(plan, fails, WriteCount(t0)).done];
  }

  /** The failing write of a failed replay, by position: the replay stopped
      after event `d - 1` of the plan, a write, and the `w` writes up to it are
      the writes `n .. n + w - 1` of the trace, of which only the last fails. */
  lemma RunFailure(plan: seq<Event>, fails: nat -> bool, n: nat) returns (d: nat, w: nat)
    requires !Run(plan, fails, n).ok
    ensures d == Run(plan, fails, n).done && 0 < d <= |plan| && plan[d - 1].Write?
    ensures w == WriteCount(plan[..d]) && w > 0
    ensures fails(n + w - 1) && forall k :: n <= k < n + w - 1 ==> !fails(k)
  {
    RunStopsAtFirstFailure(plan, fails, n);
    d := Run(plan, fails, n).done;
    w := WriteCount(plan[..d]);
  }

  /** Write indices: after `n` earlier writes, a run of `w` writes whose last
      one fails and whose others pass ends the trace at write `c - 1`. */
  lemma FirstFailingIndex(fails: nat -> bool, n: nat, w: nat, c: nat)
    requires c == n + w && w > 0
    requires fails(n + w - 1) && forall k :: n <= k < n + w - 1 ==> !fails(k)
    ensures c > n && fails(c - 1) && forall k :: n <= k < c - 1 ==> !fails(k)
  {
  }

  /** A failed replay ends at the failing write: the trace grew by a prefix
      of the plan whose last event is a write, the first write the oracle
      fails; every write before it, since `t0`, succeeded. */
  lemma PerformsFailure(t0: seq<Event>, t1: seq<Event>, fails: nat -> bool, plan: seq<Event>)
    requires Performs(t0, t1, fails, plan, false)
    ensures |t1| > |t0| && t1[..|t0|] == t0 && t1[|t0|..] <= plan
    ensures WriteCount(t1) > WriteCount(t0) && t1[|t1| - 1].Write? && fails(WriteCount(t1) - 1)
    ensures forall k :: WriteCount(t0) <= k < WriteCount(t1) - 1 ==> !fails(k)
  {
    var n := WriteCount(t0);
    var d, w := RunFailure(plan, fails, n);
    var pre := plan[..d];
    assert t1 == t0 + pre;
    assert t1[|t1| - 1] == plan[d - 1];
    WriteCountAppend(t0, pre);
    FirstFailingIndex(fails, n, w, WriteCount(t1));
    PerformsPrefix(t0, t1, fails, plan, false);
  }

  /** A bus write as seen by the controller: the bytes and whether the
      data/command pin was high (data) or low (command) when they were sent. */
  datatype Frame = Frame(data: bool, bytes: seq<byte>)

  /** The frames a sequence of events puts on the wire, when the data/command
      pin starts at level `data`. */
  function Frames(events: seq<Event>, data: bool): (fs: seq<Frame>)
    ensures |fs| == WriteCount(events)
    decreases |events|
  {
    if events == [] then []
    else
      match events[0]
      case DcLow => Frames(events[1..], false)
      case DcHigh => Frames(events[1..], true)
      case Write(bs) => [Frame(data, bs)] + Frames(events[1..], data)
      case _ => Frames(events[1..], data)
  }

  /** The level of the data/command pin after the events. */
  function DcAfter(events: seq<Event>, data: bool): bool
    decreases |events|
  {
    if events == [] then data
    else
      match events[0]
      case DcLow => DcAfter(events[1..], false)
      case DcHigh => DcAfter(events[1..], true)
      case _ => DcAfter(events[1..], data)
  }

  lemma {:induction false} FramesAppend(a: seq<Event>, b: seq<Event>, data: bool)
    ensures Frames(a + b, data) == Frames(a, data) + Frames(b, DcAfter(a, data))
    ensures DcAfter(a + b, data) == DcAfter(b, DcAfter(a, data))
    decreases |a|
  {
    if a == [] {
      assert a + b == b;
    } else {
      assert (a + b)[0] == a[0];
      assert (a + b)[1..] == a[1..] + b;
      match a[0]
      case DcLow => FramesAppend(a[1..], b, false);
      case DcHigh => FramesAppend(a[1..], b, true);
      case Write(bs) => FramesAppend(a[1..], b, data);
      case _ => FramesAppend(a[1..], b, data);
    }
  }

  /** One event: a write becomes one frame at the current level, a pin change
      sets the level, anything else leaves it. */
  lemma FramesSingle(e: Event, data: bool)
    ensures Frames([e], data) == if e.Write? then [Frame(data, e.bytes)] else []
    ensures DcAfter([e], data) == if e.DcLow? then false else if e.DcHigh? then true else data
    ensures WriteCount([e]) == if e.Write? then 1 else 0
    ensures WrittenBytes([e]) == if e.Write? then e.bytes else []
  {
    assert [e][1..] == [];
  }

  /** The events `[e] + rest`, taken apart at the first event. */
  lemma FramesCons(e: Event, rest: seq<Event>, data: bool)
    ensures Frames([e] + rest, data) == Frames([e], data) + Frames(rest, DcAfter([e], data))
    ensures DcAfter([e] + rest, data) == DcAfter(rest, DcAfter([e], data))
    ensures WriteCount([e] + rest) == WriteCount([e]) + WriteCount(rest)
  {
    FramesAppend([e], rest, data);
    WriteCountAppend([e], rest);
  }

  /** The bytes the controller receives as parameters / pixel data, in order. */
  function DataBytes(fs: seq<Frame>): seq<byte>
  {
    if fs == [] then [] else (if fs[0].data then fs[0].bytes else []) + DataBytes(fs[1..])
  }

  /** The bytes the controller receives as commands, in order. */
  function CommandBytes(fs: seq<Frame>): seq<byte>
  {
    if fs == [] then [] else (if fs[0].data then [] else fs[0].bytes) + CommandBytes(fs[1..])
  }

  lemma {:induction false} DataBytesAppend(f: seq<Frame>, g: seq<Frame>)
    ensures DataBytes(f + g) == DataBytes(f) + DataBytes(g)
  {
    if f == [] {
      assert f + g == g;
    } else {
      assert (f + g)[0] == f[0];
      assert (f + g)[1..] == f[1..] + g;
      DataBytesAppend(f[1..], g);
    }
  }

  lemma {:induction false} CommandBytesAppend(f: seq<Frame>, g: seq<Frame>)
    ensures CommandBytes(f + g) == CommandBytes(f) + CommandBytes(g)
  {
    if f == [] {
      assert f + g == g;
    } else {
      assert (f + g)[0] == f[0];
      assert (f + g)[1..] == f[1..] + g;
      CommandBytesAppend(f[1..], g);
    }
  }

  lemma FrameBytesSingle(f: Frame)
    ensures DataBytes([f]) == if f.data then f.bytes else []
    ensures CommandBytes([f]) == if f.data then [] else f.bytes
  {
    assert [f][1..] == [];
  }

  /** Every byte handed to the bus, in order, whatever the pin levels. */
  function WrittenBytes(events: seq<Event>): seq<byte>
  {
    if events == [] then []
    else (if events[0].Write? then events[0].bytes else []) + WrittenBytes(events[1..])
  }

  lemma {:induction false} WrittenBytesAppend(a: seq<Event>, b: seq<Event>)
    ensures WrittenBytes(a + b) == WrittenBytes(a) + WrittenBytes(b)
  {
    if a == [] {
      assert a + b == b;
    } else {
      assert (a + b)[0] == a[0];
      assert (a + b)[1..] == a[1..] + b;
      WrittenBytesAppend(a[1..], b);
    }
  }

  /** Events that are bus writes only, with no pin change or delay among them. */
  predicate OnlyWrites(events: seq<Event>) {
    forall k :: 0 <= k < |events| ==> events[k].Write?
  }

  /** Writes issued while the data/command pin is high all reach the controller as data. */
  lemma {:induction false} WritesAreData(events: seq<Event>)
    requires OnlyWrites(events)
    ensures DataBytes(Frames(events, true)) == WrittenBytes(events)
    ensures CommandBytes(Frames(events, true)) == []
    ensures DcAfter(events, true)
  {
    if events != [] {
      WritesAreData(events[1..]);
      var fs := Frames(events[1..], true);
      assert ([Frame(true, events[0].bytes)] + fs)[1..] == fs;
    }
  }
}
