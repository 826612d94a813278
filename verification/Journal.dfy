/**
  The engine's command journal: frames of a type byte, a little-endian length and a payload, written
  before each command is applied, and replayed into a fresh engine at start.
 */
module Journals {
  import opened Common

  type Byte = b: int | 0 <= b < 256

  const U32_MAX: nat := 0xFFFF_FFFF
  const RESTORE_LIMIT: nat := 64 * 1024 * 1024

  /** A command as it is journaled: its type letter and its serialised message. */
  datatype Command = Command(kind: Byte, payload: seq<Byte>)

  /** Letters `A`, `C`, `S`, `X`, `M`: add and close a book, submit, cancel and amend an order. */
  predicate Known(kind: Byte) { kind in {65, 67, 83, 88, 77} }

  datatype Corruption = CorruptHeader | Truncated | UnknownCommand | InvalidCommand

  // ---------------------------------------------------------------- frames

  function LengthBytes(n: nat): (r: seq<Byte>)
    requires n <= U32_MAX
    ensures |r| == 4
  {
    [n % 256, n / 256 % 256, n / 65536 % 256, n / 16777216]
  }

  function LengthOf(b: seq<Byte>): nat
    requires |b| == 4
  {
    b[0] as int + 256 * b[1] as int + 65536 * b[2] as int + 16777216 * b[3] as int
  }

  lemma DigitsOf(b0: Byte, b1: Byte, b2: Byte, b3: Byte)
    ensures var n := b0 as int + 256 * b1 as int + 65536 * b2 as int + 16777216 * b3 as int;
            n <= U32_MAX && n % 256 == b0 && n / 256 % 256 == b1 && n / 65536 % 256 == b2 && n / 16777216 == b3
  {
    var n := b0 as int + 256 * b1 as int + 65536 * b2 as int + 16777216 * b3 as int;
    assert n / 256 == b1 as int + 256 * b2 as int + 65536 * b3 as int;
    assert n / 65536 == b2 as int + 256 * b3 as int;
  }

  lemma NumberOf(n: nat)
    requires n <= U32_MAX
    ensures n % 256 + 256 * (n / 256 % 256) + 65536 * (n / 65536 % 256) + 16777216 * (n / 16777216) == n
  {
    assert n / 65536 == n / 256 / 256 && n / 16777216 == n / 65536 / 256;
  }

  lemma LengthRoundTrips(n: nat)
    requires n <= U32_MAX
    ensures LengthOf(LengthBytes(n)) == n
  {
    NumberOf(n);
  }

  lemma LengthIsCanonical(b: seq<Byte>)
    requires |b| == 4
    ensures LengthOf(b) <= U32_MAX && LengthBytes(LengthOf(b)) == b
  {
    DigitsOf(b[0], b[1], b[2], b[3]);
  }

  function Frame(c: Command): (r: seq<Byte>)
    requires |c.payload| <= U32_MAX
    ensures |r| == 5 + |c.payload|
  {
    [c.kind] + LengthBytes(|c.payload|) + c.payload
  }

  predicate Writable(cs: seq<Command>) { forall k :: 0 <= k < |cs| ==> |cs[k].payload| <= U32_MAX }

  function Encode(cs: seq<Command>): seq<Byte>
    requires Writable(cs)
  {
    if cs == [] then [] else Frame(cs[0]) + Encode(cs[1..])
  }

  // ---------------------------------------------------------------- decoding

  /** Why the frame at the front cannot be read, if it cannot. */
  function Fault(bytes: seq<Byte>, parses: Command -> bool): Option<Corruption>
    requires bytes != []
  {
    if |bytes| < 5 || LengthOf(bytes[1..5]) > RESTORE_LIMIT then Some(CorruptHeader)
    else if |bytes| < 5 + LengthOf(bytes[1..5]) then Some(Truncated)
    else if !Known(bytes[0]) then Some(UnknownCommand)
    else if !parses(Command(bytes[0], bytes[5..5 + LengthOf(bytes[1..5])])) then Some(InvalidCommand)
    else None
  }

  /** The commands of a journal file, up to its end or the first fault. */
  function Decode(bytes: seq<Byte>, parses: Command -> bool): Result<seq<Command>, Corruption>
    decreases |bytes|
  {
    if bytes == [] then Ok([])
    else
      var fault := Fault(bytes, parses);
      if fault.Some? then Err(fault.value)
      else
        var end := 5 + LengthOf(bytes[1..5]);
        Behind([Command(bytes[0], bytes[5..end])], Decode(bytes[end..], parses))
  }

  /** The result of what follows, behind `cs`. */
  function Behind(cs: seq<Command>, r: Result<seq<Command>, Corruption>): Result<seq<Command>, Corruption> {
    match r
    case Ok(rest) => Ok(cs + rest)
    case Err(e) => Err(e)
  }

  lemma BehindBoth(a: seq<Command>, b: seq<Command>, r: Result<seq<Command>, Corruption>)
    ensures Behind(a, Behind(b, r)) == Behind(a + b, r) && Behind([], r) == r
  {
    if r.Ok? { assert a + (b + r.value) == (a + b) + r.value && [] + r.value == r.value; }
  }

  predicate Restorable(c: Command, parses: Command -> bool) {
    |c.payload| <= RESTORE_LIMIT && Known(c.kind) && parses(c)
  }

  predicate AllRestorable(cs: seq<Command>, parses: Command -> bool) {
    forall k :: 0 <= k < |cs| ==> Restorable(cs[k], parses)
  }

  lemma FrameParts(c: Command, more: seq<Byte>)
    requires |c.payload| <= U32_MAX
    ensures var bytes := Frame(c) + more;
            && |bytes| >= 5 + |c.payload| && bytes[0] == c.kind && bytes[1..5] == LengthBytes(|c.payload|)
            && bytes[5..5 + |c.payload|] == c.payload && bytes[5 + |c.payload|..] == more
  {
  }

  /** A frame in front is read back, or refused for its size, its letter or its message. */
  lemma FrameFault(c: Command, more: seq<Byte>, parses: Command -> bool)
    requires |c.payload| <= U32_MAX
    ensures Fault(Frame(c) + more, parses)
            == if |c.payload| > RESTORE_LIMIT then Some(CorruptHeader)
               else if !Known(c.kind) then Some(UnknownCommand)
               else if !parses(c) then Some(InvalidCommand) else None
  {
    FrameParts(c, more);
    LengthRoundTrips(|c.payload|);
  }

  lemma DecodeFrame(c: Command, more: seq<Byte>, parses: Command -> bool)
    requires Restorable(c, parses)
    ensures Decode(Frame(c) + more, parses) == Behind([c], Decode(more, parses))
  {
    FrameFault(c, more, parses);
    FrameParts(c, more);
    LengthRoundTrips(|c.payload|);
  }

  /** Behind the frames of restorable commands, decoding goes on as if at the start of a file. */
  lemma {:induction false} DecodePrefix(cs: seq<Command>, more: seq<Byte>, parses: Command -> bool)
    requires AllRestorable(cs, parses)
    ensures Decode(Encode(cs) + more, parses) == Behind(cs, Decode(more, parses))
  {
    if cs == [] {
      assert [] + more == more;
      BehindBoth([], [], Decode(more, parses));
    } else {
      DecodePrefix(cs[1..], more, parses);
      Regroup(Frame(cs[0]), Encode(cs[1..]), more);
      DecodeFrame(cs[0], Encode(cs[1..]) + more, parses);
      BehindBoth([cs[0]], cs[1..], Decode(more, parses));
      assert [cs[0]] + cs[1..] == cs;
    }
  }

  lemma FrameFromBytes(bytes: seq<Byte>, parses: Command -> bool)
    requires bytes != [] && Fault(bytes, parses).None?
    ensures var end := 5 + LengthOf(bytes[1..5]);
            var c := Command(bytes[0], bytes[5..end]);
            Restorable(c, parses) && bytes == Frame(c) + bytes[end..]
  {
    LengthIsCanonical(bytes[1..5]);
  }

  lemma {:induction false} DecodedIsEncoded(bytes: seq<Byte>, parses: Command -> bool)
    requires Decode(bytes, parses).Ok?
    ensures var cs := Decode(bytes, parses).value; AllRestorable(cs, parses) && bytes == Encode(cs)
    decreases |bytes|
  {
    if bytes != [] {
      var end := 5 + LengthOf(bytes[1..5]);
      FrameFromBytes(bytes, parses);
      DecodedIsEncoded(bytes[end..], parses);
      var c, rest := Command(bytes[0], bytes[5..end]), Decode(bytes[end..], parses).value;
      assert ([c] + rest)[1..] == rest;
    }
  }

  /** A file decodes to some commands exactly when it is their journal and each of them can be restored. */
  lemma DecodesIff(bytes: seq<Byte>, cs: seq<Command>, parses: Command -> bool)
    ensures Decode(bytes, parses) == Ok(cs) <==> AllRestorable(cs, parses) && bytes == Encode(cs)
  {
    if Decode(bytes, parses) == Ok(cs) { DecodedIsEncoded(bytes, parses); }
    if AllRestorable(cs, parses) && bytes == Encode(cs) {
      DecodePrefix(cs, [], parses);
      assert Encode(cs) + [] == Encode(cs) && cs + [] == cs;
    }
  }

  /** A crash inside an append leaves part of a frame: the file then restores only if not one byte of it was written. */
  lemma TornTailStopsRestore(cs: seq<Command>, c: Command, k: nat, parses: Command -> bool)
    requires AllRestorable(cs, parses) && |c.payload| <= U32_MAX && k < |Frame(c)|
    ensures Decode(Encode(cs) + Frame(c)[..k], parses)
            == if k == 0 then Ok(cs) else if k < 5 || |c.payload| > RESTORE_LIMIT then Err(CorruptHeader)
               else Err(Truncated)
  {
    var tail := Frame(c)[..k];
    DecodePrefix(cs, tail, parses);
    assert cs + [] == cs;
    if k >= 5 {
      assert tail[1..5] == LengthBytes(|c.payload|);
      LengthRoundTrips(|c.payload|);
    }
  }

  // ---------------------------------------------------------------- replay

  /** The engine after the commands, from `s`; what a command does depends on the state and the command only. */
  function Replay<S>(apply: (S, Command) -> S, s: S, cs: seq<Command>): S {
    if cs == [] then s else Replay(apply, apply(s, cs[0]), cs[1..])
  }

  lemma {:induction false} ReplayAppend<S>(apply: (S, Command) -> S, s: S, cs: seq<Command>, c: Command)
    ensures Replay(apply, s, cs + [c]) == apply(Replay(apply, s, cs), c)
  {
    if cs == [] {
      assert [] + [c] == [c];
    } else {
      ReplayAppend(apply, apply(s, cs[0]), cs[1..], c);
      assert (cs + [c])[1..] == cs[1..] + [c];
    }
  }

  lemma {:induction false} EncodeAppend(cs: seq<Command>, c: Command)
    requires Writable(cs) && |c.payload| <= U32_MAX
    ensures Writable(cs + [c]) && Encode(cs + [c]) == Encode(cs) + Frame(c)
  {
    if cs == [] {
      assert [] + [c] == [c] && Frame(c) + [] == Frame(c) == [] + Frame(c);
    } else {
      EncodeAppend(cs[1..], c);
      assert (cs + [c])[1..] == cs[1..] + [c] && (cs + [c])[0] == cs[0];
      Regroup(Frame(cs[0]), Encode(cs[1..]), Frame(c));
    }
  }

  /** What a start from `bytes` makes of the state `s`. */
  function Started<S>(bytes: seq<Byte>, parses: Command -> bool, apply: (S, Command) -> S, s: S)
    : Result<S, Corruption>
  {
    match Decode(bytes, parses)
    case Ok(cs) => Ok(Replay(apply, s, cs))
    case Err(e) => Err(e)
  }

  /** `restore_journal`: reads and applies one frame after the other. */
  method RestoreJournal<S>(input: seq<Byte>, parses: Command -> bool, apply: (S, Command) -> S, start: S)
    returns (r: Result<S, Corruption>)
    ensures r == Started(input, parses, apply, start)
  {
    var at, state := 0, start;
    assert input[0..] == input;
    while at < |input|
      invariant at <= |input|
      invariant Started(input[at..], parses, apply, state) == Started(input, parses, apply, start)
    {
      var rest := input[at..];
      var fault := Fault(rest, parses);
      if fault.Some? {
        return Err(fault.value);
      }
      var length := LengthOf(rest[1..5]);
      var c := Command(rest[0], rest[5..5 + length]);
      StartStep(rest, parses, apply, state, c, rest[5 + length..]);
      assert rest[5 + length..] == input[at + 5 + length..];
      state := apply(state, c);
      at := at + 5 + length;
    }
    r := Ok(state);
  }

  lemma StartStep<S>(bytes: seq<Byte>, parses: Command -> bool, apply: (S, Command) -> S, s: S, c: Command,
                     rest: seq<Byte>)
    requires bytes != [] && Fault(bytes, parses).None?
    requires c == Command(bytes[0], bytes[5..5 + LengthOf(bytes[1..5])]) && rest == bytes[5 + LengthOf(bytes[1..5])..]
    ensures Started(bytes, parses, apply, s) == Started(rest, parses, apply, apply(s, c))
  {
    if Decode(rest, parses).Ok? { assert ([c] + Decode(rest, parses).value)[1..] == Decode(rest, parses).value; }
  }

  /** The journaling engine. `log` is every command it took, refused orders included. */
  class Sequencer<S> {
    const apply: (S, Command) -> S
    const start: S
    var state: S
    var file: seq<Byte>
    ghost var log: seq<Command>

    constructor (apply: (S, Command) -> S, start: S)
      ensures Valid() && this.apply == apply && this.start == start && log == []
    {
      this.apply, this.start, state, file, log := apply, start, start, [], [];
    }

    ghost predicate Valid()
      reads this
    {
      Writable(log) && file == Encode(log) && state == Replay(apply, start, log)
    }

    /**
      A command of the sequencer thread: journaled, then applied. One too long to
      frame is dropped as of unknown outcome.
     */
    method Execute(c: Command) returns (unknown: bool)
      requires Valid()
      modifies this
      ensures Valid() && unknown == (|c.payload| > U32_MAX)
      ensures log == if unknown then old(log) else old(log) + [c]
      ensures state == if unknown then old(state) else apply(old(state), c)
    {
      unknown := |c.payload| > U32_MAX;
      if !unknown {
        EncodeAppend(log, c);
        ReplayAppend(apply, start, log, c);
        file := file + Frame(c);
        state := apply(state, c);
        log := log + [c];
      }
    }
  }

  lemma {:induction false} LongPayloadStopsRestore(cs: seq<Command>, parses: Command -> bool, k: nat)
    requires Writable(cs) && k < |cs| && |cs[k].payload| > RESTORE_LIMIT && AllRestorable(cs[..k], parses)
    ensures Decode(Encode(cs), parses) == Err(CorruptHeader)
  {
    if k == 0 {
      FrameFault(cs[0], Encode(cs[1..]), parses);
    } else {
      assert cs[1..][..k - 1] == cs[..k][1..];
      LongPayloadStopsRestore(cs[1..], parses, k - 1);
      assert Restorable(cs[..k][0], parses);
      DecodeFrame(cs[0], Encode(cs[1..]), parses);
    }
  }

  lemma {:induction false} FirstLong(cs: seq<Command>) returns (k: nat)
    requires exists i :: 0 <= i < |cs| && |cs[i].payload| > RESTORE_LIMIT
    ensures k < |cs| && |cs[k].payload| > RESTORE_LIMIT && forall j :: 0 <= j < k ==> |cs[j].payload| <= RESTORE_LIMIT
  {
    k := 0;
    while |cs[k].payload| <= RESTORE_LIMIT
      invariant k < |cs| && forall j :: 0 <= j < k ==> |cs[j].payload| <= RESTORE_LIMIT
      decreases |cs| - k
    {
      k := k + 1;
    }
  }

  /**
    A restart reaches the state of the uninterrupted run exactly when no journaled payload is over 64 MiB.
    Appending accepts up to four gigabytes, so one long message makes the whole journal unreadable.
   */
  lemma RestartReachesLiveRunIff<S>(apply: (S, Command) -> S, start: S, log: seq<Command>, parses: Command -> bool)
    requires Writable(log) && forall k :: 0 <= k < |log| ==> Known(log[k].kind) && parses(log[k])
    ensures (forall k :: 0 <= k < |log| ==> |log[k].payload| <= RESTORE_LIMIT)
            <==> Started(Encode(log), parses, apply, start) == Ok(Replay(apply, start, log))
  {
    if forall k :: 0 <= k < |log| ==> |log[k].payload| <= RESTORE_LIMIT {
      DecodesIff(Encode(log), log, parses);
    } else {
      var k := FirstLong(log);
      LongPayloadStopsRestore(log, parses, k);
    }
  }
}
