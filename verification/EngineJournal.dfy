/**
  The journal and the engine together. A start from a journal replays its commands into a fresh
  engine, so books, orders, what was published and the counters that number events and fills are
  all to be what they were.
 */
module EngineJournals {
  import opened Common
  import opened Journals
  import opened MatchingEngines

  /** The message format: how a request is serialised and how bytes are parsed for a command letter. */
  datatype Format = Format(write: Request -> seq<Byte>, parse: (Byte, seq<Byte>) -> Option<Request>)

  function Letter(r: Request): Byte {
    match r
    case AddBook(_, _, _, _) => 65
    case CloseBook(_) => 67
    case SubmitOrder(_, _, _, _, _, _, _, _) => 83
    case CancelOrder(_) => 88
    case AmendOrder(_, _, _) => 77
  }

  function Written(f: Format, r: Request): Command { Command(Letter(r), f.write(r)) }

  function AllWritten(f: Format, rs: seq<Request>): (cs: seq<Command>)
    ensures |cs| == |rs| && forall k :: 0 <= k < |rs| ==> cs[k] == Written(f, rs[k])
  {
    if rs == [] then [] else AllWritten(f, rs[..|rs| - 1]) + [Written(f, rs[|rs| - 1])]
  }

  /** The format gives back what it was given, and its messages fit a frame. */
  predicate Frames(f: Format, rs: seq<Request>) {
    forall k :: 0 <= k < |rs| ==> |f.write(rs[k])| <= U32_MAX && f.parse(Letter(rs[k]), f.write(rs[k])) == Some(rs[k])
  }

  function Parses(f: Format): Command -> bool { (c: Command) => f.parse(c.kind, c.payload).Some? }

  ghost function Replayed(f: Format): (Engine, Command) -> Engine {
    (e: Engine, c: Command) => if f.parse(c.kind, c.payload).Some? then Apply(e, f.parse(c.kind, c.payload).value).0
        else e
  }

  /** The engine that starts from this journal file. */
  ghost function EngineFrom(f: Format, bytes: seq<Byte>): Result<Engine, Corruption> {
    Started(bytes, Parses(f), Replayed(f), FRESH)
  }

  /** Replaying what was written is running what was asked. */
  lemma {:induction false} ReplayIsRun(f: Format, rs: seq<Request>)
    requires Frames(f, rs)
    ensures Replay(Replayed(f), FRESH, AllWritten(f, rs)) == RunEngine(FRESH, rs)
  {
    if rs != [] {
      var n := |rs| - 1;
      ReplayIsRun(f, rs[..n]);
      ReplayAppend(Replayed(f), FRESH, AllWritten(f, rs[..n]), Written(f, rs[n]));
    }
  }

  predicate ShortPayloads(f: Format, rs: seq<Request>) {
    forall k :: 0 <= k < |rs| ==> |f.write(rs[k])| <= RESTORE_LIMIT
  }

  /**
    After any run of commands, accepted and refused, a restart finds the engine as it was if and
    only if no message in the journal is over 64 MiB; otherwise it does not start.
   */
  lemma RestartRebuildsEngineIff(f: Format, rs: seq<Request>)
    requires Frames(f, rs)
    ensures Writable(AllWritten(f, rs))
    ensures EngineFrom(f, Encode(AllWritten(f, rs))) == Ok(RunEngine(FRESH, rs)) <==> ShortPayloads(f, rs)
    ensures !ShortPayloads(f, rs) ==> EngineFrom(f, Encode(AllWritten(f, rs))) == Err(CorruptHeader)
  {
    var log := AllWritten(f, rs);
    ReplayIsRun(f, rs);
    RestartReachesLiveRunIff(Replayed(f), FRESH, log, Parses(f));
    if !ShortPayloads(f, rs) {
      var k := FirstLong(log);
      LongPayloadStopsRestore(log, Parses(f), k);
    }
  }

  lemma {:induction false} RunConcat(e: Engine, rs: seq<Request>, more: seq<Request>)
    ensures RunEngine(e, rs + more) == RunEngine(RunEngine(e, rs), more)
  {
    if more == [] {
      assert rs + [] == rs;
    } else {
      var n := |more| - 1;
      assert (rs + more)[..|rs| + n] == rs + more[..n];
      RunConcat(e, rs, more[..n]);
    }
  }

  /**
    The engine dies between two commands, starts again from its journal and goes on: it ends as if
    it had never stopped, so no event is numbered twice and no order, level or fill is lost.
   */
  lemma RestartIsInvisible(f: Format, rs: seq<Request>, more: seq<Request>)
    requires Frames(f, rs + more) && ShortPayloads(f, rs)
    ensures Writable(AllWritten(f, rs)) && EngineFrom(f, Encode(AllWritten(f, rs))).Ok?
    ensures var e := EngineFrom(f, Encode(AllWritten(f, rs))).value;
            && RunEngine(e, more) == RunEngine(FRESH, rs + more)
            && AllExtend(e, RunEngine(e, more))
  {
    assert forall k :: 0 <= k < |rs| ==> (rs + more)[k] == rs[k];
    RestartRebuildsEngineIff(f, rs);
    RunConcat(FRESH, rs, more);
    RunKeeps(FRESH, rs);
    RunKeeps(RunEngine(FRESH, rs), more);
  }

  /**
    It dies inside an append: the command is in no state, but if any byte of it was written the
    journal as a whole is refused, and the engine does not start at all.
   */
  lemma TornCommandStopsEngine(f: Format, rs: seq<Request>, r: Request, k: nat)
    requires Frames(f, rs + [r]) && ShortPayloads(f, rs) && k < 5 + |f.write(r)|
    ensures Writable(AllWritten(f, rs)) && |f.write(r)| <= U32_MAX
    ensures EngineFrom(f, Encode(AllWritten(f, rs)) + Frame(Written(f, r))[..k]) == Ok(RunEngine(FRESH, rs)) <==> k == 0
    ensures k > 0 ==> EngineFrom(f, Encode(AllWritten(f, rs)) + Frame(Written(f, r))[..k]).Err?
  {
    assert (rs + [r])[|rs|] == r;
    assert forall i :: 0 <= i < |rs| ==> (rs + [r])[i] == rs[i];
    ReplayIsRun(f, rs);
    TornTailStopsRestore(AllWritten(f, rs), Written(f, r), k, Parses(f));
  }
}
