/** The net.Conn handed to the SOCKS library (internal/socks/conn.go): reads with a leftover buffer
    over the rx channel, and writes into the session. One reader at a time. */
module VirtualConns {
  import opened Bytes
  import opened Frames
  import opened Sessions
  import Runs = SessionRuns
  import RxChannel

  datatype ReadOutcome = Got(n: nat) | Eof | DeadlineExceeded | WouldBlock

  class VirtualConn {
    const s: Session
    var readBuf: bytes
    var readDeadline: nat  // 0: none

    constructor (s: Session)
      ensures this.s == s && readBuf == [] && readDeadline == 0
    {
      this.s := s;
      readBuf, readDeadline := [], 0;
    }

    /** Bytes that reached the channel and were not yet returned to the caller. */
    ghost function Unread(): bytes
      reads this, s
    {
      readBuf + Concat(s.rxChan)
    }

    method CopyOut(b: array<byte>, data: bytes) returns (n: nat)
      modifies b
      ensures n == Min(b.Length, |data|) && b[..n] == data[..n] && b[n..] == old(b[n..])
    {
      n := Min(b.Length, |data|);
      for i := 0 to n
        invariant b[..i] == data[..i] && b[i..] == old(b[i..])
      {
        b[i] := data[i];
      }
    }

    /** The leftover bytes go out first. */
    method TakeLeft(b: array<byte>) returns (n: nat)
      modifies this`readBuf, b
      ensures n == Min(b.Length, |old(readBuf)|) && b[..n] + readBuf == old(readBuf) && b[n..] == old(b[n..])
    {
      n := CopyOut(b, readBuf);
      assert readBuf == b[..n] + readBuf[n..];
      readBuf := readBuf[n..];
    }

    /** A payload goes out as far as there is room, and the rest is left over. */
    method TakePayload(b: array<byte>, data: bytes) returns (n: nat)
      requires readBuf == []
      modifies this`readBuf, b
      ensures n == Min(b.Length, |data|) && b[..n] + readBuf == data && b[n..] == old(b[n..])
    {
      n := CopyOut(b, data);
      assert data == data[..n] + data[n..];
      if n < |data| {
        readBuf := data[n..];
      }
    }

    /** One attempt of Read, which returns what `ReadOnce` says: WouldBlock stands for waiting on in the
        select. Whatever it returns, no byte is skipped, repeated or reordered. Without a deadline it returns
        bytes exactly if any are unread, the end exactly with nothing unread on a closed channel, and waits on
        otherwise; a deadline that has passed is reported unless bytes were left over. */
    method Read(b: array<byte>, now: nat) returns (r: ReadOutcome)
      modifies this`readBuf, s`rxChan, b
      ensures r.Got? ==>
        r.n <= b.Length && b[..r.n] + Unread() == old(Unread()) && b[r.n..] == old(b[r.n..])
          && (b.Length > 0 ==> r.n > 0)
      ensures r.Got? ==> (b[..r.n], readBuf, s.rxChan) == RxChannel.ReadOnce(old(readBuf), old(s.rxChan), b.Length)
      ensures !r.Got? ==> Unread() == old(Unread()) && b[..] == old(b[..])
      ensures r.Got? ==> old(Unread()) != []
      ensures r.Eof? || r.WouldBlock? ==> old(Unread()) == [] && s.rxChan == [] && r.Eof? == s.rxChanClosed
      ensures r.DeadlineExceeded? ==> readDeadline != 0
      ensures old(readBuf) != [] ==> r.Got?
      ensures old(readBuf) == [] && 0 < readDeadline <= now ==> r.DeadlineExceeded?
    {
      ghost var left, chan, all := readBuf, s.rxChan, Unread();
      while true
        invariant readBuf == left && Unread() == all && b[..] == old(b[..]) && (left != [] ==> s.rxChan == chan)
        invariant left == [] ==> RxChannel.ReadOnce([], s.rxChan, b.Length) == RxChannel.ReadOnce([], chan, b.Length)
        decreases |s.rxChan|
      {
        if |readBuf| > 0 {
          var n := TakeLeft(b);
          return Got(n);
        }
        if readDeadline != 0 && readDeadline <= now {
          return DeadlineExceeded;
        }
        var timerFires :| !timerFires || readDeadline != 0;
        if timerFires {
          return DeadlineExceeded;
        }
        if |s.rxChan| == 0 {
          return if s.rxChanClosed then Eof else WouldBlock;
        }
        var data := s.rxChan[0];
        s.rxChan := s.rxChan[1..];
        assert all == data + Concat(s.rxChan);
        if |data| == 0 {
          continue;
        }
        var n := TakePayload(b, data);
        return Got(n);
      }
    }

    /** One attempt of Write; an empty write does nothing. */
    method Write(b: bytes, now: nat) returns (outcome: WriteOutcome)
      requires s.Valid()
      modifies s`txBuf, s`firstQueuedAt, s`stream
      ensures s.Valid()
      ensures b == [] || outcome == Blocked ==> s.Log() == old(s.Log())
      ensures b != [] && outcome != Blocked ==> s.Log() == Runs.Next(old(s.Log()), Runs.WriteInitial(b, now))
    {
      outcome := Accepted;
      if |b| > 0 {
        outcome := s.EnqueueInitialData(b, now);
      }
    }
  }
}
