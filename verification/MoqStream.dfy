/** The stream record of the client: unparsed bytes and progress, updated in place by
    every arrival. Each routine leaves the record exactly as `Parse`, `Data` and `Fin`
    of the specification say. */
module MoqStreamRecord {
  import opened MoqParser
  import opened MoqWire

  /** moq_msg_read, on offsets into the buffer. */
  method MsgReadAt(p: Bytes, off: nat) returns (m: MsgRead)
    requires off <= |p|
    ensures m == ReadMsg(p[off..])
  {
    var n, o := VarintRead(p, |p|, off);
    assert p[off..|p|] == p[off..];
    match n
    case None => return NeedMore;
    case Some(len) =>
      if len > MAX_MESSAGE {
        return TooLarge;
      }
      if len > |p| - o {
        return NeedMore;
      }
      return Message(o - off, o - off + len);
  }

  datatype Round = Again | Short | Return

  class MoqStream {
    /** The subscriptions of the session, looked up by id. */
    const subs: set<nat>

    var ctl: Control
    var buf: Bytes

    function Abs(): Stream
      reads this
    {
      Stream(ctl, buf)
    }

    constructor (subs: set<nat>, st: Stream)
      ensures Abs() == st && this.subs == subs
    {
      this.subs, ctl, buf := subs, st.ctl, st.buf;
    }

    /** Finds the next unit at the front of the buffer, without consuming it. */
    method TakeUnit() returns (u: Unit)
      ensures u == NextUnit(ctl, buf)
    {
      assert buf[0..|buf|] == buf && buf[0..] == buf;
      var tag, boff := 0, 0;
      if !PlainPhase(ctl) {
        var t, off := VarintRead(buf, |buf|, 0);
        if t.None? {
          return Incomplete;
        }
        if !ctl.typed {
          return Unit(t.value, [], off);
        }
        tag, boff := t.value, off;
      }
      var m := MsgReadAt(buf, boff);
      match m
      case NeedMore => return Incomplete;
      case TooLarge => return Oversize;
      case Message(start, end) =>
        SliceOfDrop(buf, boff, start, end);
        return Unit(tag, buf[boff + start..boff + end], boff + end);
    }

    /** One pass of a parsing loop. */
    method OneRound() returns (r: Round)
      modifies this
      ensures match Step(subs, old(Abs()))
              case More(st) => r.Again? && Abs() == st
              case Stop(st) => r.Return? && Abs() == st
              case Wait => r.Short? && Abs() == old(Abs())
    {
      var u := TakeUnit();
      match u
      case Incomplete => return Short;
      case Oversize =>
        ctl := OnOversize(ctl).ctl;
        return Return;
      case Unit(_, _, size) =>
        TagBelow64(ctl, buf);
        match OnUnit(subs, ctl, u)
        case Go(ctl') =>
          ctl := ctl';
          buf := buf[size..];
          return Again;
        case Halt(ctl', eaten) =>
          ctl := ctl';
          if eaten {
            buf := buf[size..];
          }
          return Return;
    }

    /** stream_parse: continues from wherever the last arrival left off. */
    method StreamParse()
      modifies this
      ensures Abs() == Parse(subs, old(Abs()))
    {
      if ctl.done {
        return;
      }
      ghost var start := Abs();
      var r := Again;
      while r.Again?
        invariant match r
                  case Again => Drain(subs, Abs()) == Drain(subs, start)
                  case Short => Waiting(Abs()) == Drain(subs, start)
                  case Return => Stopped(Abs()) == Drain(subs, start)
        decreases r.Again?, |buf|
      {
        r := OneRound();
      }
      if r.Short? && ctl.fin {
        ctl := Finish(subs, ctl);
      }
    }

    /** on_session_stream_data */
    method OnData(chunk: Bytes)
      modifies this
      ensures Abs() == Data(subs, old(Abs()), chunk)
    {
      if ctl.done {
        return;
      }
      if chunk != [] && |buf| + |chunk| > MAX_RECV_BUF {
        ctl := Refuse(ctl, INTERNAL_ERROR);
        buf := [];
        return;
      }
      buf := buf + chunk;
      StreamParse();
    }

    /** on_session_stream_fin */
    method OnFin()
      modifies this
      ensures Abs() == Fin(subs, old(Abs()))
    {
      if ctl.done {
        return;
      }
      ctl := ctl.(fin := true);
      StreamParse();
    }

    /** A whole delivery: chunks of any size within the receive limit, then the end of the
        stream. The callbacks are those of the bytes taken at once. */
    method Receive(chunks: seq<Bytes>)
      requires Step(subs, Abs()).Wait? && !ctl.done && !ctl.fin && Fits(subs, Abs(), chunks)
      requires Drain(subs, Abs().Plus(Concat(chunks))).Waiting?
      modifies this
      ensures Abs() == Fin(subs, DataAll(subs, old(Abs()), chunks))
      ensures ctl.log == Fin(subs, Drain(subs, old(Abs()).Plus(Concat(chunks))).st).ctl.log
    {
      ghost var start := Abs();
      for i := 0 to |chunks|
        invariant Abs() == DataAll(subs, start, chunks[..i])
      {
        assert chunks[..i + 1][..i] == chunks[..i];
        OnData(chunks[i]);
      }
      assert chunks[..|chunks|] == chunks;
      ChunksAreOne(subs, start, chunks);
      OnFin();
    }
  }
}
