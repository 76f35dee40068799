/** The connection's payload buffer and flush timer, worked on in place. */
module AssemblerConn {
  import opened AssemblerSpec
  import opened Octets

  /** QUIC_MAX_PKT_SIZE */
  const BUF_SIZE: nat := 1500

  /** The bytes of a payload. */
  function Flatten(blocks: seq<Block>): Bytes
    decreases |blocks|
  {
    if blocks == [] then [] else Flatten(blocks[..|blocks| - 1]) + blocks[|blocks| - 1].bytes
  }

  function FlattenAll(packets: seq<seq<Block>>): seq<Bytes>
    decreases |packets|
  {
    if packets == [] then [] else FlattenAll(packets[..|packets| - 1]) + [Flatten(packets[|packets| - 1])]
  }

  lemma {:induction false} FlattenSize(blocks: seq<Block>)
    ensures |Flatten(blocks)| == Size(blocks)
    decreases |blocks|
  {
    if blocks != [] {
      FlattenSize(blocks[..|blocks| - 1]);
    }
  }

  lemma FlattenBack(blocks: seq<Block>, b: Block)
    ensures Flatten(blocks + [b]) == Flatten(blocks) + b.bytes
  {
  }

  lemma {:induction false} FlattenFront(b: Block, blocks: seq<Block>)
    ensures Flatten([b] + blocks) == b.bytes + Flatten(blocks)
    decreases |blocks|
  {
    var n := |blocks| - 1;
    if n < 0 {
      assert [b] + blocks == [b] && [b][..0] == [];
    } else {
      FlattenFront(b, blocks[..n]);
      assert ([b] + blocks)[..n + 1] == [b] + blocks[..n];
    }
  }

  lemma FlattenPacket(packets: seq<seq<Block>>, p: seq<Block>)
    ensures FlattenAll(packets + [p]) == FlattenAll(packets) + [Flatten(p)]
  {
  }

  lemma OneAck(packets: seq<seq<Block>>, ack: Bytes)
    ensures FlattenAll(packets + [[Ack(ack)]]) == FlattenAll(packets) + [ack]
  {
    FlattenPacket(packets, [Ack(ack)]);
    FlattenBack([], Ack(ack));
    assert [] + [Ack(ack)] == [Ack(ack)] && Flatten([]) + ack == ack;
  }

  class PacketConn {
    const payload: array<Octet>
    var payloadLen: nat
    var flushActive: bool
    var backoffMs: nat
    var needAck: bool
    /** The payloads given to send_quic_packet. */
    var wire: seq<Bytes>

    ghost var abs: Conn

    /** The buffer and the log are the bytes of the blocks. */
    ghost predicate Valid()
      reads this, payload
    {
      && payload.Length == BUF_SIZE && payloadLen <= MAX_PAYLOAD
      && payload[..payloadLen] == Flatten(abs.pend)
      && wire == FlattenAll(abs.sent)
      && abs.armed == flushActive && abs.backoff == backoffMs && abs.needAck == needAck
    }

    constructor ()
      ensures Valid() && abs == Fresh && fresh(payload)
    {
      payload := new Octet[BUF_SIZE];
      payloadLen, flushActive, backoffMs, needAck, wire := 0, false, 0, false, [];
      abs := Fresh;
    }

    method ArmFlushBackoff()
      requires Valid()
      modifies this
      ensures Valid() && abs == ArmBackoff(old(abs)) && payloadLen == old(payloadLen)
    {
      if backoffMs < 1 {
        backoffMs := 1;
      }
      if backoffMs < BACKOFF_MAX {
        backoffMs := backoffMs * 2;
      }
      if backoffMs > BACKOFF_MAX {
        backoffMs := BACKOFF_MAX;
      }
      flushActive := true;
      abs := ArmBackoff(abs);
    }

    method StartTimer()
      requires Valid()
      modifies this
      ensures Valid() && abs == old(abs).(armed := true) && payloadLen == old(payloadLen)
    {
      flushActive := true;
      abs := abs.(armed := true);
    }

    /** Hands the pending payload to send_quic_packet and forgets it. */
    method SendPending()
      requires Valid()
      modifies this
      ensures Valid() && abs == Send(old(abs)) && payloadLen == 0
    {
      FlattenPacket(abs.sent, abs.pend);
      wire := wire + [payload[..payloadLen]];
      payloadLen := 0;
      abs := Send(abs);
      assert payload[..payloadLen] == [];
    }

    method FlushPacket(canSend: bool, paced: bool)
      requires Valid()
      modifies this
      ensures Valid() && abs == Flush(old(abs), canSend, paced)
    {
      FlattenSize(abs.pend);
      if payloadLen == 0 {
        StartTimer();
        return;
      }
      if !canSend {
        ArmFlushBackoff();
        return;
      }
      if !paced {
        StartTimer();
        return;
      }
      SendPending();
      backoffMs := 1;
      abs := abs.(backoff := 1);
      StartTimer();
    }

    method CopyBack(frames: Bytes)
      requires payloadLen + |frames| <= payload.Length
      modifies payload
      ensures payload[..payloadLen + |frames|] == old(payload[..payloadLen]) + frames
    {
      var at := payloadLen;
      forall i | 0 <= i < |frames| {
        payload[at + i] := frames[i];
      }
    }

    /** memmove up, then the new bytes in front. */
    method CopyFront(bytes: Bytes)
      requires payloadLen + |bytes| <= payload.Length
      modifies payload
      ensures payload[..payloadLen + |bytes|] == bytes + old(payload[..payloadLen])
    {
      var n, k := payloadLen, |bytes|;
      forall i | 0 <= i < n + k {
        payload[i] := if i < k then bytes[i] else payload[i - k];
      }
    }

    method QueueFramesOn(frames: Bytes, canSend: bool, canSend': bool, paced: bool) returns (ok: bool)
      requires Valid()
      modifies this, payload
      ensures Valid() && (abs, ok) == QueueFrames(old(abs), frames, canSend, canSend', paced)
    {
      FlattenSize(abs.pend);
      if |frames| > MAX_PAYLOAD {
        return false;
      }
      if payloadLen + |frames| > MAX_PAYLOAD {
        if payloadLen > 0 {
          if !canSend {
            ArmFlushBackoff();
            return false;
          }
          FlushPacket(canSend', paced);
          FlattenSize(abs.pend);
          if payloadLen + |frames| > MAX_PAYLOAD {
            ArmFlushBackoff();
            return false;
          }
        }
      }
      TakeFrames(frames);
      return true;
    }

    method TakeFrames(frames: Bytes)
      requires Valid() && payloadLen + |frames| <= MAX_PAYLOAD
      modifies this, payload
      ensures Valid() && abs == Take(old(abs), frames)
    {
      FlattenBack(abs.pend, Frames(frames));
      CopyBack(frames);
      payloadLen := payloadLen + |frames|;
      flushActive := true;
      abs := Take(abs, frames);
    }

    /** `ack` is the encoded frame, None when encoding failed. */
    method QueueAckOn(ack: Bytes, encodes: bool, canSend: bool)
      requires Valid() && |ack| <= MAX_ACK
      modifies this, payload
      ensures Valid() && abs == QueueAck(old(abs), ack, encodes, canSend)
    {
      if !needAck {
        return;
      }
      needAck := false;
      abs := abs.(needAck := false);
      if !encodes {
        return;
      }
      FlattenSize(abs.pend);
      abs := abs.(acks := abs.acks + multiset{ack});
      if payloadLen + |ack| > MAX_PAYLOAD {
        if payloadLen > 0 && canSend {
          SendPending();
        } else if payloadLen > 0 {
          SendAckAlone(ack);
          if !flushActive {
            ArmFlushBackoff();
          }
          return;
        }
      }
      PutAckFirst(ack);
    }

    method SendAckAlone(ack: Bytes)
      requires Valid()
      modifies this
      ensures Valid() && abs == old(abs).(sent := old(abs).sent + [[Ack(ack)]])
    {
      hide Flatten;
      hide FlattenAll;
      OneAck(abs.sent, ack);
      wire := wire + [ack];
      abs := abs.(sent := abs.sent + [[Ack(ack)]]);
      assert payload[..payloadLen] == Flatten(abs.pend);
      assert wire == FlattenAll(abs.sent);
    }

    method PutAckFirst(ack: Bytes)
      requires Valid() && payloadLen + |ack| <= MAX_PAYLOAD
      modifies this, payload
      ensures Valid() && abs == old(abs).(pend := [Ack(ack)] + old(abs).pend, armed := true)
    {
      FlattenFront(Ack(ack), abs.pend);
      CopyFront(ack);
      payloadLen := payloadLen + |ack|;
      if !flushActive {
        flushActive := true;
      }
      abs := abs.(pend := [Ack(ack)] + abs.pend, armed := true);
    }

    /** quic_conn_retry_send: the stream layer may queue and flush as it likes. */
    method RetrySend(script: seq<Refill>)
      requires Valid()
      modifies this, payload
      ensures Valid() && abs == Refilled(old(abs), script)
    {
      ghost var c := abs;
      for i := 0 to |script|
        invariant Valid() && abs == Refilled(c, script[..i])
      {
        assert script[..i + 1][..i] == script[..i];
        match script[i]
        case Queue(block, canSend, canSend', paced) =>
          var _ := QueueFramesOn(block, canSend, canSend', paced);
        case FlushNow(canSend, paced) =>
          FlushPacket(canSend, paced);
      }
      assert script[..|script|] == script;
    }

    /** pacing_drain */
    method PacingDrain(env: nat -> Round) returns (r: int)
      requires Valid()
      modifies this, payload
      ensures Valid() && (abs, r) == Drain(old(abs), env, 0)
    {
      ghost var c := abs;
      var n := 0;
      while true
        invariant n < MAX_DRAIN && Valid()
        invariant Drain(abs, env, n) == Drain(c, env, 0)
        decreases MAX_DRAIN - n
      {
        var ended;
        ended, r := OneTurn(env(n), n);
        if ended {
          return;
        }
        n := n + 1;
      }
    }

    method OneTurn(round: Round, sent: nat) returns (ended: bool, r: int)
      requires Valid() && sent < MAX_DRAIN
      modifies this, payload
      ensures Valid() && match DrainTurn(old(abs), round, sent)
                         case Ended(c, result) => ended && abs == c && r == result
                         case SentOne(c) => !ended && abs == c && sent + 1 < MAX_DRAIN
    {
      FlattenSize(abs.pend);
      if payloadLen == 0 {
        RetrySend(round.script);
        FlattenSize(abs.pend);
        if payloadLen == 0 {
          return true, sent;
        }
      }
      if !round.canSend {
        ArmFlushBackoff();
        return true, if sent > 0 then sent else -1;
      }
      if !round.paced {
        StartTimer();
        return true, if sent > 0 then sent else -1;
      }
      SendPending();
      backoffMs := 1;
      abs := abs.(backoff := 1);
      if sent + 1 >= MAX_DRAIN {
        StartTimer();
        return true, sent + 1;
      }
      return false, sent + 1;
    }

    /** on_flush_timer: the wheel has just taken the timer off its list. */
    method OnFlushTimer(env: nat -> Round, starved: bool)
      requires Valid()
      modifies this, payload
      ensures Valid() && abs == OnTimer(old(abs), env, starved)
    {
      flushActive := false;
      abs := abs.(armed := false);
      var r := PacingDrain(env);
      FlattenSize(abs.pend);
      if r == 0 && payloadLen == 0 {
        backoffMs := 1;
        abs := abs.(backoff := 1);
        if !flushActive && starved {
          StartTimer();
        }
      }
    }
  }
}
