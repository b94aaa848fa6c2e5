/** Message buffers: a ring of stored messages, tasks that wait to send and tasks that wait to
    receive. */
module MessageBuffers {
  import opened Tasks
  import opened Sequences
  import opened WaitQueues
  import opened MessageRing

  /** A task that waits to send its message. */
  type Sender = Entry<Message>

  datatype Sent = SendError(ercd: SndErcd) | Handed(to: Task) | Kept | SenderWaits

  datatype SndErcd = E_PAR | E_TMOUT

  datatype Received = Got(msg: Message) | NothingThere | ReceiverWaits

  function Messages(q: seq<Sender>): (r: seq<Message>)
    ensures |r| == |q| && forall i :: 0 <= i < |q| ==> r[i] == q[i].what
  {
    if q == [] then [] else [q[0].what] + Messages(q[1..])
  }

  lemma {:induction false} MessagesAppend(p: seq<Sender>, q: seq<Sender>)
    ensures Messages(p + q) == Messages(p) + Messages(q)
  {
    if p == [] {
      assert p + q == q;
    } else {
      assert (p + q)[1..] == p[1..] + q;
      MessagesAppend(p[1..], q);
    }
  }

  ghost predicate Proper(q: seq<Sender>, maxmsz: nat) {
    forall s :: s in q ==> 0 < |s.what| <= maxmsz
  }

  /** A queue from which the first senders have gone. */
  ghost predicate Later(q: seq<Sender>, q': seq<Sender>) {
    |q'| <= |q| && q' == q[|q| - |q'|..]
  }

  lemma LaterIsFine(tpri: bool, q: seq<Sender>, q': seq<Sender>, maxmsz: nat)
    requires Later(q, q') && Proper(q, maxmsz)
    ensures Proper(q', maxmsz) && (InTurn(tpri, q) ==> InTurn(tpri, q'))
  {
    hide InTurn;
    if InTurn(tpri, q) {
      LaterInTurn(tpri, q, |q| - |q'|);
    }
  }

  lemma Start(q: seq<Sender>)
    ensures Later(q, q)
  {
  }

  lemma LaterTwice(q: seq<Sender>, q1: seq<Sender>, q2: seq<Sender>)
    requires Later(q, q1) && Later(q1, q2)
    ensures Later(q, q2)
  {
  }

  lemma NoMessages()
    ensures Messages([]) == []
  {
  }

  lemma OneLater(q: seq<Sender>, q': seq<Sender>)
    requires Later(q, q') && q' != []
    ensures Later(q, q'[1..]) && Messages(q') == [q'[0].what] + Messages(q'[1..])
  {
  }

  lemma FirstIsFine(q: seq<Sender>, maxmsz: nat)
    requires q != [] && Proper(q, maxmsz)
    ensures 0 < |q[0].what| <= maxmsz
  {
  }

  lemma RemovedIsFine(tpri: bool, q: seq<Sender>, i: nat, maxmsz: nat)
    requires i < |q| && Proper(q, maxmsz) && InTurn(tpri, q)
    ensures Proper(RemoveAt(q, i), maxmsz) && InTurn(tpri, RemoveAt(q, i)) && 0 < |q[i].what| <= maxmsz
    ensures Messages(RemoveAt(q, i)) == Messages(q[..i]) + Messages(q[i + 1..])
  {
    hide InTurn, Messages;
    MessagesAppend(q[..i], q[i + 1..]);
    CutInTurn(tpri, q, i);
  }

  lemma JoinedIsFine(q: seq<Sender>, q': seq<Sender>, s: Sender, maxmsz: nat)
    requires Proper(q, maxmsz) && 0 < |s.what| <= maxmsz && forall x :: x in q' <==> x in q || x == s
    ensures Proper(q', maxmsz)
  {
  }

  lemma JoinedMessages(tpri: bool, q: seq<Sender>, q': seq<Sender>, s: Sender)
    requires Joined(tpri, q, q', s) && !tpri
    ensures Messages(q') == Messages(q) + [s.what]
  {
    MessagesAppend(q, [s]);
    assert Messages([s]) == [s.what] + Messages([s][1..]);
  }

  class MessageBuffer {
    const tpri: bool
    const maxmsz: nat
    const ring: Ring
    var send_queue: seq<Sender>
    var recv_queue: seq<Task>
    /** All messages sent, but for those whose senders gave up, and all received. */
    ghost var sent: seq<Message>
    ghost var got: seq<Message>

    /** The messages on their way: those in the ring, then those of the waiting senders. */
    ghost function Pending(): seq<Message>
      reads this, ring
    {
      ring.msgs + Messages(send_queue)
    }

    ghost predicate Valid()
      reads this, ring, ring.buffer
    {
      && ring.Valid() && Proper(send_queue, maxmsz) && InTurn(tpri, send_queue)
      && HeadMustWait()
      && (recv_queue != [] ==> ring.msgs == [] && send_queue == [])
      && (!tpri ==> sent == got + Pending())
    }

    /** A message of `msgsz` bytes, with its header and rounded, fits in behind those stored. */
    ghost predicate HasRoom(msgsz: nat)
      reads this, ring
    {
      Used(ring.msgs) + Space(msgsz) <= ring.bufsz
    }

    /** In every state between two calls the first sender has to wait for room. */
    lemma NoRoomForFirst()
      requires Valid() && send_queue != []
      ensures !HasRoom(|send_queue[0].what|)
    {
      ring.FreeMeans(|send_queue[0].what|);
    }

    /** The first sender could not store its message now. */
    predicate HeadMustWait()
      reads this, ring
    {
      send_queue != [] ==> !ring.Free(|send_queue[0].what|)
    }

    constructor (bufsz: nat, maxmsz: nat, tpri: bool)
      requires Round(bufsz) < 0x8000_0000
      ensures Valid() && Pending() == [] && recv_queue == [] && fresh(ring) && fresh(ring.buffer)
      ensures this.maxmsz == maxmsz && this.tpri == tpri
    {
      this.maxmsz, this.tpri := maxmsz, tpri;
      ring := new Ring(bufsz);
      send_queue, recv_queue, sent, got := [], [], [], [];
    }

    /** `mbf_wakeup`: as long as the first sender's message fits, it is stored. */
    method Wakeup()
      requires ring.Valid() && Proper(send_queue, maxmsz)
      modifies this`send_queue, ring, ring.buffer
      ensures ring.Valid() && ring.buffer == old(ring.buffer) && HeadMustWait()
      ensures Pending() == old(Pending())
      ensures Later(old(send_queue), send_queue) && Proper(send_queue, maxmsz)
      ensures InTurn(tpri, old(send_queue)) ==> InTurn(tpri, send_queue)
    {
      hide Layout, InTurn, Proper, Messages, Later;
      Start(send_queue);
      while send_queue != [] && ring.Free(|send_queue[0].what|)
        invariant ring.Valid() && ring.buffer == old(ring.buffer) && Proper(send_queue, maxmsz)
        invariant Later(old(send_queue), send_queue) && Pending() == old(Pending())
        decreases |send_queue|
      {
        OneLater(old(send_queue), send_queue);
        FirstIsFine(send_queue, maxmsz);
        ring.MsgToMbf(send_queue[0].what);
        send_queue := send_queue[1..];
        LaterIsFine(tpri, old(send_queue), send_queue, maxmsz);
      }
      LaterIsFine(tpri, old(send_queue), send_queue, maxmsz);
    }

    /** `_tk_snd_mbf`, called by task `t` of priority `pri`. */
    method Snd(t: Task, pri: nat, msg: Message, poll: bool) returns (r: Sent)
      requires Valid()
      modifies this, ring, ring.buffer
      ensures Valid() && ring.buffer == old(ring.buffer)
      ensures r == SendError(E_PAR) <==> !(0 < |msg| <= maxmsz)
      ensures r.SendError? ==>
                Pending() == old(Pending()) && send_queue == old(send_queue) && recv_queue == old(recv_queue)
      ensures r.Handed? <==> 0 < |msg| <= maxmsz && old(recv_queue) != []
      ensures r.Handed? ==>
                && r.to == old(recv_queue)[0] && recv_queue == old(recv_queue)[1..] && got == old(got) + [msg]
                && old(Pending()) == [] && Pending() == []
      ensures !r.Handed? ==> recv_queue == old(recv_queue) && got == old(got)
      ensures r == SendError(E_TMOUT) ==>
                poll && old(recv_queue) == [] && !old(WouldBeFirst(tpri, send_queue, pri) && HasRoom(|msg|))
      ensures r.Kept? ==> old(WouldBeFirst(tpri, send_queue, pri) && HasRoom(|msg|))
      ensures r.Kept? ==> ring.msgs == old(ring.msgs) + [msg] && send_queue == old(send_queue)
      ensures r.SenderWaits? ==>
                && !poll && ring.msgs == old(ring.msgs) && !old(WouldBeFirst(tpri, send_queue, pri) && HasRoom(|msg|))
                && Joined(tpri, old(send_queue), send_queue, Entry(t, pri, msg))
      ensures !r.SendError? ==> sent == old(sent) + [msg]
      ensures !r.SendError? && !r.Handed? && !tpri ==> Pending() == old(Pending()) + [msg]
    {
      hide Layout, Messages, InTurn, Joined, Proper;
      if !(0 < |msg| <= maxmsz) {
        return SendError(E_PAR);
      }
      ring.EmptyMeans();
      ring.FreeMeans(|msg|);
      if recv_queue != [] {
        r := Handed(recv_queue[0]);
        recv_queue := recv_queue[1..];
        got, sent := got + [msg], sent + [msg];
      } else if WouldBeFirst(tpri, send_queue, pri) && ring.Free(|msg|) {
        ring.MsgToMbf(msg);
        sent := sent + [msg];
        r := Kept;
      } else if poll {
        r := SendError(E_TMOUT);
      } else {
        Queue(t, pri, msg);
        sent := sent + [msg];
        r := SenderWaits;
      }
    }

    /** `gcb_make_wait` for a sender. */
    method Queue(t: Task, pri: nat, msg: Message)
      requires InTurn(tpri, send_queue) && Proper(send_queue, maxmsz) && 0 < |msg| <= maxmsz
      requires HeadMustWait() && !(WouldBeFirst(tpri, send_queue, pri) && ring.Free(|msg|))
      modifies this`send_queue
      ensures Joined(tpri, old(send_queue), send_queue, Entry(t, pri, msg))
      ensures InTurn(tpri, send_queue) && Proper(send_queue, maxmsz) && HeadMustWait() && send_queue != []
      ensures !tpri ==> Pending() == old(Pending()) + [msg]
    {
      hide Layout, Messages, InTurn, Joined, Proper;
      ghost var q := send_queue;
      var e := Entry(t, pri, msg);
      send_queue := Join(tpri, send_queue, e);
      JoinedIsFine(q, send_queue, e, maxmsz);
      if !tpri {
        JoinedMessages(tpri, q, send_queue, e);
      }
    }

    /** `_tk_rcv_mbf`, called by task `t`. */
    method Rcv(t: Task, poll: bool) returns (r: Received)
      requires Valid()
      modifies this, ring, ring.buffer
      ensures Valid() && ring.buffer == old(ring.buffer)
      ensures r.Got? <==> old(Pending()) != []
      ensures r.Got? ==> old(Pending()) == [r.msg] + Pending() && got == old(got) + [r.msg]
      ensures !r.Got? ==> Pending() == [] && got == old(got)
      ensures Later(old(send_queue), send_queue) && (r.Got? ==> recv_queue == old(recv_queue))
      ensures r == NothingThere ==> poll && recv_queue == old(recv_queue)
      ensures r == ReceiverWaits ==> !poll && recv_queue == old(recv_queue) + [t]
      ensures sent == old(sent)
    {
      hide Layout, Messages, Later, InTurn, Proper;
      ring.EmptyMeans();
      NoMessages();
      Start(send_queue);
      if !ring.Empty() || send_queue != [] {
        var msg := TakeFirst();
        r := Got(msg);
      } else if poll {
        r := NothingThere;
      } else {
        recv_queue := recv_queue + [t];
        r := ReceiverWaits;
      }
    }

    /** The two branches of `_tk_rcv_mbf` that find a message: in the ring, or, when that is
        empty, still with the first sender, whose message may be larger than the ring. */
    method TakeFirst() returns (msg: Message)
      requires Valid() && (!ring.Empty() || send_queue != [])
      modifies this`send_queue, this`got, ring, ring.buffer
      ensures Valid() && ring.buffer == old(ring.buffer)
      ensures old(Pending()) == [msg] + Pending() && got == old(got) + [msg]
      ensures Later(old(send_queue), send_queue)
    {
      hide Layout, Messages, Later, InTurn, Proper;
      ring.EmptyMeans();
      if !ring.Empty() {
        Start(send_queue);
        msg := ring.MbfToMsg();
      } else {
        Start(send_queue);
        OneLater(send_queue, send_queue);
        LaterIsFine(tpri, send_queue, send_queue[1..], maxmsz);
        msg := send_queue[0].what;
        send_queue := send_queue[1..];
      }
      ghost var p := Pending();
      got := got + [msg];
      ghost var q := send_queue;
      Wakeup();
      LaterTwice(old(send_queue), q, send_queue);
      assert got + p == old(got) + ([msg] + p);
    }

    /** A sender gives up, by timeout or forced release: `mbf_rel_wai` lets others in. */
    method ReleaseSender(i: nat)
      requires Valid() && i < |send_queue|
      modifies this, ring, ring.buffer
      ensures Valid() && ring.buffer == old(ring.buffer)
      ensures Pending() == old(ring.msgs + Messages(send_queue[..i]) + Messages(send_queue[i + 1..]))
      ensures Later(old(RemoveAt(send_queue, i)), send_queue)
      ensures got == old(got) && recv_queue == old(recv_queue)
    {
      hide Layout, Messages, InTurn, Proper, Later;
      RemovedIsFine(tpri, send_queue, i, maxmsz);
      send_queue := RemoveAt(send_queue, i);
      sent := got + Pending();
      Wakeup();
    }

    /** A receiver gives up. */
    method ReleaseReceiver(i: nat)
      requires Valid() && i < |recv_queue|
      modifies this`recv_queue
      ensures Valid() && recv_queue == old(recv_queue[..i] + recv_queue[i + 1..])
    {
      recv_queue := recv_queue[..i] + recv_queue[i + 1..];
    }

    /** `mbf_chg_pri`: the sender at place `i` has a new priority. */
    method ChgPri(i: nat, pri: nat)
      requires Valid() && i < |send_queue| && tpri
      modifies this, ring, ring.buffer
      ensures Valid() && ring.buffer == old(ring.buffer)
      ensures exists q :: Joined(true, old(RemoveAt(send_queue, i)), q, old(send_queue[i].(pri := pri)))
                && Pending() == old(ring.msgs) + Messages(q) && Later(q, send_queue)
      ensures got == old(got) && sent == old(sent) && recv_queue == old(recv_queue)
    {
      hide Layout, Messages, Joined, InTurn, Proper, Later;
      RemovedIsFine(tpri, send_queue, i, maxmsz);
      var s := send_queue[i].(pri := pri);
      send_queue := RemoveAt(send_queue, i);
      ghost var others := send_queue;
      send_queue := Join(tpri, send_queue, s);
      JoinedIsFine(others, send_queue, s, maxmsz);
      ghost var q := send_queue;
      Wakeup();
    }
  }
}
