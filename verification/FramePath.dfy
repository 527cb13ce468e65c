/**
 The way of a frame beyond the demux: the ingress loops of server and client
 (bridge/bridge.go `write` and `Transmit`, bridge/client.go `runStream`).
 */
module FramePath {
  import opened Wrappers
  import opened Sequences
  import opened LinkReporter
  import opened Demux

  const MAX_FRAME_SIZE: nat := 65535

  /** The errors a write can return, as far as the bridge tells them apart. */
  datatype WriteError = NetClosed | Eof | FileClosed | Oversized | Errno(name: Errno) | OtherError

  datatype Errno = EBADF | ENODEV | ESHUTDOWN | EINVAL | EMSGSIZE | ENOBUFS | ENETDOWN | OtherErrno

  predicate IsFatalWriteError(e: WriteError) {
    match e
    case NetClosed => true
    case Eof => true
    case FileClosed => true
    case Errno(n) => n.EBADF? || n.ENODEV? || n.ESHUTDOWN? || n.EINVAL?
    case _ => false
  }

  /** A message of a Wire stream: a frame, a link state, or both. */
  datatype Packet = Packet(data: Frame, linkState: LinkState)

  /** What the world answers while a message is handled: is the demux cancelled, and how does the socket write end. */
  datatype World = World(cancelled: bool, outcome: Option<WriteError>)

  /** What becomes of the frame of one message. `Lost(n)` adds n to the count of dropped frames. */
  datatype Fate = Absent | Put | Lost(n: nat) | Stops

  /** On the server an oversized frame is counted by `write` and once more by the ingress loop. */
  function ServerFate(p: Packet, w: World): Fate {
    if p.data == [] then Absent
    else if w.cancelled then Stops
    else if |p.data| > MAX_FRAME_SIZE then Lost(2)
    else if w.outcome.None? then Put
    else if IsFatalWriteError(w.outcome.value) then Stops
    else Lost(1)
  }

  /** The client drops oversized frames without counting them. */
  function ClientFate(p: Packet, w: World): Fate {
    if p.data == [] then Absent
    else if |p.data| > MAX_FRAME_SIZE then Lost(0)
    else if w.outcome.None? then Put
    else if IsFatalWriteError(w.outcome.value) then Stops
    else Lost(0)
  }

  // ---- Reference definitions over the first n messages ----------------------

  /** The frames with fate `Put`, in order. */
  function PutFrames(ps: seq<Packet>, fates: seq<Fate>, n: nat): seq<Frame>
    requires n <= |ps| == |fates|
  {
    if n == 0 then []
    else PutFrames(ps, fates, n - 1) + if fates[n - 1].Put? then [ps[n - 1].data] else []
  }

  function LostFrames(fates: seq<Fate>, n: nat): nat
    requires n <= |fates|
  {
    if n == 0 then 0 else LostFrames(fates, n - 1) + if fates[n - 1].Lost? then fates[n - 1].n else 0
  }

  function LinkStates(ps: seq<Packet>, n: nat): seq<LinkState>
    requires n <= |ps|
  {
    if n == 0 then []
    else LinkStates(ps, n - 1) + if ps[n - 1].linkState != Unknown then [ps[n - 1].linkState] else []
  }

  function Frames(ps: seq<Packet>, n: nat): seq<Frame>
    requires n <= |ps|
  {
    if n == 0 then [] else Frames(ps, n - 1) + if ps[n - 1].data != [] then [ps[n - 1].data] else []
  }

  function ServerFates(ps: seq<Packet>, ws: seq<World>): (fates: seq<Fate>)
    requires |ps| == |ws|
  {
    seq(|ps|, i requires 0 <= i < |ps| => ServerFate(ps[i], ws[i]))
  }

  function ClientFates(ps: seq<Packet>, ws: seq<World>): (fates: seq<Fate>)
    requires |ps| == |ws|
  {
    seq(|ps|, i requires 0 <= i < |ps| => ClientFate(ps[i], ws[i]))
  }

  /** A loop handles the messages before the first one that stops it. */
  ghost predicate StopsAt(fates: seq<Fate>, n: nat) {
    n <= |fates| && (forall i :: 0 <= i < n ==> !fates[i].Stops?) && (n < |fates| ==> fates[n].Stops?)
  }

  lemma AppendNext<T>(first: seq<T>, done: seq<T>, now: seq<T>, more: seq<T>)
    requires now == first + done
    ensures now + more == first + (done + more)
  {
  }

  // ---- The loops ----------------------------------------------------------

  class ServerIngress {
    var droppedWriteFrames: nat
    var written: seq<Frame>
    var applied: seq<LinkState>

    constructor ()
      ensures droppedWriteFrames == 0 && written == [] && applied == []
    {
      droppedWriteFrames, written, applied := 0, [], [];
    }

    /** `InterfaceDemux.write`. */
    method Write(pkt: Frame, w: World) returns (err: Option<WriteError>)
      modifies this`droppedWriteFrames, this`written
      ensures w.cancelled ==> err == Some(NetClosed)
      ensures !w.cancelled && pkt == [] ==> err == None
      ensures !w.cancelled && |pkt| > MAX_FRAME_SIZE ==> err == Some(Oversized)
      ensures !w.cancelled && 0 < |pkt| <= MAX_FRAME_SIZE ==> err == w.outcome
      ensures droppedWriteFrames == old(droppedWriteFrames) + if err == Some(Oversized) && |pkt| > MAX_FRAME_SIZE then 1 else 0
      ensures written == old(written) + if err == None && pkt != [] then [pkt] else []
    {
      if w.cancelled {
        return Some(NetClosed);
      }
      if |pkt| == 0 {
        return None;
      }
      if |pkt| > MAX_FRAME_SIZE {
        droppedWriteFrames := droppedWriteFrames + 1;
        return Some(Oversized);
      }
      err := w.outcome;
      if err == None {
        written := written + [pkt];
      }
    }

    /** One round of the server's ingress loop. */
    method Handle(req: Packet, w: World) returns (stop: bool)
      modifies this
      ensures var fate := ServerFate(req, w);
              && (stop <==> fate.Stops?)
              && written == old(written) + (if fate.Put? then [req.data] else [])
              && droppedWriteFrames == old(droppedWriteFrames) + (if fate.Lost? then fate.n else 0)
      ensures applied == old(applied) + if req.linkState == Unknown then [] else [req.linkState]
    {
      if req.linkState != Unknown {
        applied := applied + [req.linkState];
      }
      if |req.data| > 0 {
        var err := Write(req.data, w);
        if err.Some? {
          if IsFatalWriteError(err.value) {
            return true;
          }
          droppedWriteFrames := droppedWriteFrames + 1;
        }
      }
      return false;
    }

    /** The server's ingress loop over the messages of one stream; `n` messages did not stop it. */
    method Ingress(ps: seq<Packet>, ws: seq<World>) returns (n: nat)
      requires |ps| == |ws|
      modifies this
      ensures StopsAt(ServerFates(ps, ws), n)
      ensures written == old(written) + PutFrames(ps, ServerFates(ps, ws), n)
      ensures droppedWriteFrames == old(droppedWriteFrames) + LostFrames(ServerFates(ps, ws), n)
      ensures applied == old(applied) + LinkStates(ps, if n < |ps| then n + 1 else n)
    {
      n := 0;
      ghost var fates := ServerFates(ps, ws);
      while n < |ps|
        invariant 0 <= n <= |ps|
        invariant forall i :: 0 <= i < n ==> !fates[i].Stops?
        invariant written == old(written) + PutFrames(ps, fates, n)
        invariant droppedWriteFrames == old(droppedWriteFrames) + LostFrames(fates, n)
        invariant applied == old(applied) + LinkStates(ps, n)
      {
        assert fates[n] == ServerFate(ps[n], ws[n]);
        ghost var written0, applied0 := written, applied;
        var stop := Handle(ps[n], ws[n]);
        AppendNext(old(applied), LinkStates(ps, n), applied0, if ps[n].linkState == Unknown then [] else [ps[n].linkState]);
        if stop {
          return;
        }
        AppendNext(old(written), PutFrames(ps, fates, n), written0, if fates[n].Put? then [ps[n].data] else []);
        n := n + 1;
      }
    }
  }

  class ClientIngress {
    var written: seq<Frame>
    var applied: seq<LinkState>

    constructor ()
      ensures written == [] && applied == []
    {
      written, applied := [], [];
    }

    /** One round of the client's ingress loop. */
    method Handle(resp: Packet, w: World) returns (stop: bool)
      modifies this
      ensures var fate := ClientFate(resp, w);
              (stop <==> fate.Stops?) && written == old(written) + (if fate.Put? then [resp.data] else [])
      ensures applied == old(applied) + if resp.linkState == Unknown then [] else [resp.linkState]
    {
      if resp.linkState != Unknown {
        applied := applied + [resp.linkState];
      }
      if |resp.data| > 0 {
        if |resp.data| > MAX_FRAME_SIZE {
          return false;
        }
        var err := w.outcome;
        if err.Some? {
          return IsFatalWriteError(err.value);
        }
        written := written + [resp.data];
      }
      return false;
    }

    method Ingress(ps: seq<Packet>, ws: seq<World>) returns (n: nat)
      requires |ps| == |ws|
      modifies this
      ensures StopsAt(ClientFates(ps, ws), n)
      ensures written == old(written) + PutFrames(ps, ClientFates(ps, ws), n)
      ensures applied == old(applied) + LinkStates(ps, if n < |ps| then n + 1 else n)
    {
      n := 0;
      ghost var fates := ClientFates(ps, ws);
      while n < |ps|
        invariant 0 <= n <= |ps|
        invariant forall i :: 0 <= i < n ==> !fates[i].Stops?
        invariant written == old(written) + PutFrames(ps, fates, n)
        invariant applied == old(applied) + LinkStates(ps, n)
      {
        assert fates[n] == ClientFate(ps[n], ws[n]);
        var stop := Handle(ps[n], ws[n]);
        assert applied == old(applied) + LinkStates(ps, n + 1);
        if stop {
          return;
        }
        assert written == old(written) + PutFrames(ps, fates, n + 1);
        n := n + 1;
      }
    }
  }

  // ---- What the counters and the order mean -------------------------------

  /** The messages, among the first n, with a frame too long to write. */
  function OversizedFrames(ps: seq<Packet>, n: nat): set<nat>
    requires n <= |ps|
  {
    set i: nat | i < n && |ps[i].data| > MAX_FRAME_SIZE
  }

  /** The messages, among the first n, whose frame had a size the socket takes but was not written. */
  function FailedWrites(ps: seq<Packet>, ws: seq<World>, n: nat): set<nat>
    requires n <= |ps| == |ws|
  {
    set i: nat | i < n && 0 < |ps[i].data| <= MAX_FRAME_SIZE && ws[i].outcome.Some?
  }

  lemma OversizedNext(ps: seq<Packet>, n: nat)
    requires n < |ps|
    ensures |OversizedFrames(ps, n + 1)| == |OversizedFrames(ps, n)| + if |ps[n].data| > MAX_FRAME_SIZE then 1 else 0
  {
    var before := OversizedFrames(ps, n);
    if |ps[n].data| > MAX_FRAME_SIZE {
      assert OversizedFrames(ps, n + 1) == before + {n};
    } else {
      assert OversizedFrames(ps, n + 1) == before;
    }
  }

  lemma FailedNext(ps: seq<Packet>, ws: seq<World>, n: nat)
    requires n < |ps| == |ws|
    ensures |FailedWrites(ps, ws, n + 1)| == |FailedWrites(ps, ws, n)|
              + if 0 < |ps[n].data| <= MAX_FRAME_SIZE && ws[n].outcome.Some? then 1 else 0
  {
    var before := FailedWrites(ps, ws, n);
    if 0 < |ps[n].data| <= MAX_FRAME_SIZE && ws[n].outcome.Some? {
      assert FailedWrites(ps, ws, n + 1) == before + {n};
    } else {
      assert FailedWrites(ps, ws, n + 1) == before;
    }
  }

  /** The dropped-frame counter is twice the oversized frames plus the other failed writes that did not stop the loop. */
  lemma {:induction false} DroppedWriteFramesCount(ps: seq<Packet>, ws: seq<World>, n: nat)
    requires n <= |ps| == |ws|
    requires forall i :: 0 <= i < n ==> !ServerFates(ps, ws)[i].Stops?
    ensures LostFrames(ServerFates(ps, ws), n) == 2 * |OversizedFrames(ps, n)| + |FailedWrites(ps, ws, n)|
    decreases n
  {
    if n == 0 {
      assert OversizedFrames(ps, n) == {} && FailedWrites(ps, ws, n) == {};
    } else {
      var i := n - 1;
      DroppedWriteFramesCount(ps, ws, i);
      OversizedNext(ps, i);
      FailedNext(ps, ws, i);
      assert ServerFates(ps, ws)[i] == ServerFate(ps[i], ws[i]);
    }
  }

  // ---- Which frames are written, told from the messages alone -------------

  /** The frames of a size the socket takes and whose write it accepted, in order. */
  function AcceptedFrames(ps: seq<Packet>, ws: seq<World>, n: nat): seq<Frame>
    requires n <= |ps| == |ws|
  {
    if n == 0 then []
    else
      AcceptedFrames(ps, ws, n - 1)
      + if 0 < |ps[n - 1].data| <= 65535 && ws[n - 1].outcome == None then [ps[n - 1].data] else []
  }

  /** The write of the message's frame is attempted and ends in an error that ends the stream. */
  predicate BreaksWrite(p: Packet, w: World) {
    && 0 < |p.data| <= 65535
    && w.outcome in {Some(NetClosed), Some(Eof), Some(FileClosed),
                     Some(Errno(EBADF)), Some(Errno(ENODEV)), Some(Errno(ESHUTDOWN)), Some(Errno(EINVAL))}
  }

  lemma {:induction false} ClientWritesExactly(ps: seq<Packet>, ws: seq<World>, n: nat)
    requires n <= |ps| == |ws|
    ensures PutFrames(ps, ClientFates(ps, ws), n) == AcceptedFrames(ps, ws, n)
  {
    if n > 0 {
      ClientWritesExactly(ps, ws, n - 1);
      assert ClientFates(ps, ws)[n - 1] == ClientFate(ps[n - 1], ws[n - 1]);
    }
  }

  /** The client's loop handles exactly the messages before the first whose write breaks. */
  lemma ClientStopsExactly(ps: seq<Packet>, ws: seq<World>, n: nat)
    requires |ps| == |ws|
    ensures StopsAt(ClientFates(ps, ws), n)
            <==> && n <= |ps|
                 && (forall i :: 0 <= i < n ==> !BreaksWrite(ps[i], ws[i]))
                 && (n < |ps| ==> BreaksWrite(ps[n], ws[n]))
  {
    var fates := ClientFates(ps, ws);
    assert forall i :: 0 <= i < |ps| ==> (fates[i].Stops? <==> BreaksWrite(ps[i], ws[i]));
  }

  lemma {:induction false} ServerWritesExactly(ps: seq<Packet>, ws: seq<World>, n: nat)
    requires n <= |ps| == |ws|
    requires forall i :: 0 <= i < n ==> !ServerFates(ps, ws)[i].Stops?
    ensures PutFrames(ps, ServerFates(ps, ws), n) == AcceptedFrames(ps, ws, n)
  {
    if n > 0 {
      ServerWritesExactly(ps, ws, n - 1);
      assert ServerFates(ps, ws)[n - 1] == ServerFate(ps[n - 1], ws[n - 1]);
    }
  }

  /** The server's loop also ends at the first frame that comes after the cancellation. */
  lemma ServerStopsExactly(ps: seq<Packet>, ws: seq<World>, n: nat)
    requires |ps| == |ws|
    ensures StopsAt(ServerFates(ps, ws), n)
            <==> && n <= |ps|
                 && (forall i :: 0 <= i < n ==> !BreaksWrite(ps[i], ws[i]) && !(ws[i].cancelled && ps[i].data != []))
                 && (n < |ps| ==> BreaksWrite(ps[n], ws[n]) || (ws[n].cancelled && ps[n].data != []))
  {
    var fates := ServerFates(ps, ws);
    assert forall i :: 0 <= i < |ps| ==>
      (fates[i].Stops? <==> BreaksWrite(ps[i], ws[i]) || (ws[i].cancelled && ps[i].data != []));
  }

  /** Every state a message carries is applied, in the place it has among the messages that carry one. */
  lemma {:induction false} EachLinkStateIsApplied(ps: seq<Packet>, i: nat, n: nat)
    requires i < n <= |ps| && ps[i].linkState != Unknown
    ensures LinkStates(ps, i) + [ps[i].linkState] <= LinkStates(ps, n)
  {
    if i < n - 1 {
      EachLinkStateIsApplied(ps, i, n - 1);
    }
  }

  /** The messages, among the first n, that carry a link state. */
  function Carriers(ps: seq<Packet>, n: nat): set<nat>
    requires n <= |ps|
  {
    set i: nat | i < n && ps[i].linkState != Unknown
  }

  lemma {:induction false} NothingElseIsApplied(ps: seq<Packet>, n: nat)
    requires n <= |ps|
    ensures |LinkStates(ps, n)| == |Carriers(ps, n)|
  {
    if n == 0 {
      assert Carriers(ps, n) == {};
    } else {
      NothingElseIsApplied(ps, n - 1);
      assert Carriers(ps, n) == Carriers(ps, n - 1) + if ps[n - 1].linkState != Unknown then {n - 1} else {};
    }
  }

  /** The frames put are frames received, in order, whatever the fates. */
  lemma {:induction false} PutAreReceived(ps: seq<Packet>, fates: seq<Fate>, n: nat)
    requires n <= |ps| == |fates| && forall i :: 0 <= i < n && fates[i].Put? ==> ps[i].data != []
    ensures Subsequence(PutFrames(ps, fates, n), Frames(ps, n))
    decreases n
  {
    if n > 0 {
      PutAreReceived(ps, fates, n - 1);
      PutOneMore(PutFrames(ps, fates, n - 1), Frames(ps, n - 1), ps[n - 1].data, fates[n - 1].Put?);
    }
  }

  lemma PutOneMore(put: seq<Frame>, all: seq<Frame>, f: Frame, isPut: bool)
    requires Subsequence(put, all) && (isPut ==> f != [])
    ensures Subsequence(put + (if isPut then [f] else []), all + (if f != [] then [f] else []))
  {
    SubsequenceExtend(put, all, f);
    assert put + [] == put && all + [] == all;
  }

  lemma PutIsSubsequence(ps: seq<Packet>, ws: seq<World>, n: nat)
    requires n <= |ps| == |ws|
    ensures Subsequence(PutFrames(ps, ClientFates(ps, ws), n), Frames(ps, n))
  {
    PutAreReceived(ps, ClientFates(ps, ws), n);
  }

  lemma ServerPutIsSubsequence(ps: seq<Packet>, ws: seq<World>, n: nat)
    requires n <= |ps| == |ws|
    ensures Subsequence(PutFrames(ps, ServerFates(ps, ws), n), Frames(ps, n))
  {
    PutAreReceived(ps, ServerFates(ps, ws), n);
  }

  lemma {:induction false} FramesOfPrefix(ps: seq<Packet>, n: nat, m: nat)
    requires n <= m <= |ps|
    ensures Frames(ps, n) <= Frames(ps, m)
    decreases m
  {
    if n < m {
      FramesOfPrefix(ps, n, m - 1);
    }
  }

  /**
   From capture at the server to the client's interface: whatever the subscriber took from channel i,
   the stream delivered a prefix of and the client's loop wrote, is in capture order with
   nothing added. `received` are the stream's messages, whose frames are a prefix of what was taken.
   */
  lemma EndToEndOrder(run: seq<State>, steps: seq<Step>, i: nat, received: seq<Packet>, ws: seq<World>, n: nat)
    requires Execution(run, steps) && i < |Last(run).chans|
    requires |ws| == |received| && StopsAt(ClientFates(received, ws), n)
    requires Frames(received, |received|) <= Last(run).chans[i].taken
    ensures Subsequence(PutFrames(received, ClientFates(received, ws), n), Last(run).captured)
  {
    var c, frames := Last(run).chans[i], Frames(received, n);
    FramesConserved(run, steps);
    PutIsSubsequence(received, ws, n);
    FramesOfPrefix(received, n, |received|);
    assert frames <= c.Contents();
    SubsequenceOfPrefix(frames, c.Contents());
    SubsequenceTransitive(frames, c.Contents(), Last(run).captured);
    SubsequenceTransitive(PutFrames(received, ClientFates(received, ws), n), frames, Last(run).captured);
  }

  /**
   And the other way: the client sends every frame it captures, the stream delivers a prefix of them, and what the
   server's loop writes to its interface is in capture order with nothing added.
   */
  lemma EndToEndOrderToServer(captured: seq<Frame>, received: seq<Packet>, ws: seq<World>, n: nat)
    requires |ws| == |received| && StopsAt(ServerFates(received, ws), n)
    requires Frames(received, |received|) <= captured
    ensures Subsequence(PutFrames(received, ServerFates(received, ws), n), captured)
  {
    var frames := Frames(received, n);
    ServerPutIsSubsequence(received, ws, n);
    FramesOfPrefix(received, n, |received|);
    SubsequenceOfPrefix(frames, captured);
    SubsequenceTransitive(PutFrames(received, ServerFates(received, ws), n), frames, captured);
  }
}
