/** The queue of responses and the sending loop together: over every interleaving of Send with
    the sending thread, what each connection has received. */
module ResponseDelivery {
  import opened Bytes
  import opened Options
  import opened ResponseQueue
  import opened SendResponses

  predicate AllBelow(responses: seq<Response>, n: nat) {
    forall i | 0 <= i < |responses| :: responses[i] < n
  }

  lemma AllBelowAppend(rs: seq<Response>, more: seq<Response>, n: nat)
    requires AllBelow(rs, n) && AllBelow(more, n)
    ensures AllBelow(rs + more, n)
  {
  }

  // The packets of these responses, each known by its place in `all`.
  ghost function PacketsAt(all: seq<Packet>, responses: seq<Response>): (packets: seq<Packet>)
    ensures |packets| == |responses|
  {
    if responses == [] then []
    else [if responses[0] < |all| then all[responses[0]] else Packet([], [])] + PacketsAt(all, responses[1..])
  }

  lemma {:induction false} PacketsAtAppend(all: seq<Packet>, rs: seq<Response>, more: seq<Response>)
    ensures PacketsAt(all, rs + more) == PacketsAt(all, rs) + PacketsAt(all, more)
  {
    if rs == [] {
      assert rs + more == more;
    } else {
      assert (rs + more)[1..] == rs[1..] + more;
      PacketsAtAppend(all, rs[1..], more);
    }
  }

  // Every response in the queue is one of the first n.
  predicate Known(s: State, n: nat) {
    && AllBelow(s.first, n) && AllBelow(s.second, n) && AllBelow(s.given, n) && AllBelow(s.packed, n)
    && (s.sending.Push? ==> s.sending.response < n)
  }

  lemma StepKnows(s: State, a: Action, n: nat)
    requires Known(s, n) && Step(s, a).Some? && (a.Sending? ==> a.response < n)
    ensures Known(Step(s, a).value, n)
  {
    if a.Consuming? {
      ConsumerKnows(s, n);
    } else if a.Sending? {
      SendKnows(s, a.response, n);
    }
  }

  lemma ConsumerKnows(s: State, n: nat)
    requires Known(s, n) && ConsumerStep(s).Some?
    ensures Known(ConsumerStep(s).value, n)
  {
    if s.consuming.Transmit? && s.consuming.next < |s.At(s.consumer)| {
      AllBelowAppend(s.packed, [s.At(s.consumer)[s.consuming.next]], n);
    } else {
      assert AllBelow([], n);
      hide AllBelow;
    }
  }

  lemma SendKnows(s: State, response: Response, n: nat)
    requires Known(s, n) && SendStep(s, response).Some? && response < n
    ensures Known(SendStep(s, response).value, n)
  {
    if s.sending.Push? {
      var r := s.sending.response;
      assert AllBelow([r], n);
      hide AllBelow;
      AllBelowAppend(s.At(s.producer), [r], n);
      AllBelowAppend(s.given, [r], n);
    } else {
      hide AllBelow;
    }
  }

  // The response that the sending thread packs in this step, if it packs one.
  function Packing(s: State, a: Action): Option<Response> {
    if a.Consuming? && s.consuming.Transmit? && s.consuming.next < |s.At(s.consumer)|
    then Some(s.At(s.consumer)[s.consuming.next])
    else None
  }

  lemma PackedBy(s: State, a: Action, n: nat)
    requires Known(s, n) && Step(s, a).Some?
    ensures match Packing(s, a)
            case None => Step(s, a).value.packed == s.packed
            case Some(r) => r < n && Step(s, a).value.packed == s.packed + [r]
  {
  }

  lemma SamePrefix(peers: set<Peer>, packets: seq<Packet>, more: seq<Packet>, lines: map<Peer, Line>)
    requires lines.Keys == peers
    ensures SentUpTo(peers, packets, |packets|, lines) <==> SentUpTo(peers, packets + more, |packets|, lines)
  {
    assert packets[..|packets|] == packets && (packets + more)[..|packets|] == packets;
    hide Taken, Row;
  }

  // Where an interleaving stands: the connections have received what is packed.
  ghost predicate Delivered(s: State, outs: seq<Outgoing>, all: seq<Packet>, capacity: nat, peers: set<Peer>, lines: map<Peer, Line>)
    requires lines.Keys == peers
    reads peers, set out <- outs :: out.response
  {
    && Known(s, |outs|)
    && Queued(outs, all, capacity, peers)
    && SentUpTo(peers, PacketsAt(all, s.packed), |s.packed|, lines)
  }

  lemma OnePacked(outs: seq<Outgoing>, all: seq<Packet>, packed: seq<Response>, r: Response)
    requires all == PacketsOf(outs) && r < |outs|
    ensures var packets := PacketsAt(all, packed + [r]);
            packets == PacketsAt(all, packed) + [PacketOf(outs[r])] && packets[|packed|] == PacketOf(outs[r])
  {
    PacketAt(outs, r);
    assert PacketsAt(all, [r]) == [all[r]];
    hide PacketsAt, PacketOf, PacketsOf;
    PacketsAtAppend(all, packed, [r]);
  }

  // The packing step: the packet leaves for the connections it names.
  method PackAndSend(sendBuf: array<byte>, outs: seq<Outgoing>, r: Response, ghost peers: set<Peer>,
                     ghost all: seq<Packet>, ghost packed: seq<Response>, ghost lines: map<Peer, Line>)
    requires r < |outs| && Queued(outs, all, sendBuf.Length, peers)
    requires lines.Keys == peers && SentUpTo(peers, PacketsAt(all, packed), |packed|, lines)
    modifies sendBuf, peers, outs[r].response.state
    ensures SentUpTo(peers, PacketsAt(all, packed + [r]), |packed| + 1, lines)
  {
    hide Sendable, PacketOf, PacketsOf, SentUpTo, PacketsAt;
    OnePacked(outs, all, packed, r);
    SamePrefix(peers, PacketsAt(all, packed), [PacketOf(outs[r])], lines);
    SendNext(sendBuf, outs[r], peers, PacketsAt(all, packed + [r]), |packed|, lines);
  }

  lemma Advances(s: State, a: Action, n: nat)
    requires Known(s, n) && Step(s, a).Some? && (a.Sending? ==> a.response < n)
    ensures var s' := Step(s, a).value;
            && Known(s', n)
            && (match Packing(s, a) case None => s'.packed == s.packed case Some(r) => r < n && s'.packed == s.packed + [r])
  {
    StepKnows(s, a, n);
    PackedBy(s, a, n);
  }

  // One step of the interleaving.
  method Advance(s: State, a: Action, outs: seq<Outgoing>, sendBuf: array<byte>,
                 ghost peers: set<Peer>, ghost all: seq<Packet>, ghost lines: map<Peer, Line>)
    returns (s': State)
    requires Step(s, a).Some? && (a.Sending? ==> a.response < |outs|)
    requires lines.Keys == peers && Delivered(s, outs, all, sendBuf.Length, peers, lines)
    modifies sendBuf, peers, set out <- outs :: out.response.state
    ensures Step(s, a) == Some(s') && Delivered(s', outs, all, sendBuf.Length, peers, lines)
  {
    hide Queued, SentUpTo, Step, PacketsAt, Packing, Known;
    Advances(s, a, |outs|);
    var packing := Packing(s, a);
    s' := Step(s, a).value;
    if packing.Some? {
      PackAndSend(sendBuf, outs, packing.value, peers, all, s.packed, lines);
    }
  }

  // Send and the sending thread under any interleaving: in the state it comes to, each
  // connection has received the packets of the responses packed so far that name it, whole
  // unless a send to it failed. Those packed are the first that Send was called with, and all
  // of them when none is waiting.
  method Interleave(actions: seq<Action>, outs: seq<Outgoing>, sendBuf: array<byte>, ghost peers: set<Peer>)
    returns (s: State)
    requires Run(Init(), actions).Some?
    requires forall a <- actions :: a.Sending? ==> a.response < |outs|
    requires Queued(outs, PacketsOf(outs), sendBuf.Length, peers)
    modifies sendBuf, peers, set out <- outs :: out.response.state
    ensures Run(Init(), actions) == Some(s)
    ensures s.packed <= Entered(Sends(actions))
    ensures Remainder(s) == [] && s.At(s.producer) == [] ==> s.packed == Entered(Sends(actions))
    ensures forall peer <- peers ::
              Taken(old(peer.State()), peer.State(), Row(peer, PacketsAt(old(PacketsOf(outs)), s.packed)))
  {
    ghost var all, lines := PacketsOf(outs), map peer | peer in peers :: peer.State();
    s := Init();
    Starts(outs, all, sendBuf.Length, peers, lines);
    assert actions[0..] == actions;
    hide SentUpTo, PacketsOf, Queued, Step, Run, Taken, Row, Delivered, Known, Peer.State, Entered, Sends, Remainder;
    for i := 0 to |actions|
      invariant Run(s, actions[i..]) == Run(Init(), actions)
      invariant Delivered(s, outs, all, sendBuf.Length, peers, lines)
    {
      RunStep(s, actions, i);
      s := Advance(s, actions[i], outs, sendBuf, peers, all, lines);
    }
    RunEnds(s, actions);
    PackedOfSent(actions);
    Ends(s, outs, all, sendBuf.Length, peers, lines);
  }

  lemma Starts(outs: seq<Outgoing>, all: seq<Packet>, capacity: nat, peers: set<Peer>, lines: map<Peer, Line>)
    requires Queued(outs, all, capacity, peers)
    requires lines.Keys == peers && forall peer <- peers :: peer.State() == lines[peer]
    ensures Delivered(Init(), outs, all, capacity, peers, lines)
  {
    hide SentUpTo;
    NoneSent(peers, [], lines);
  }

  lemma Ends(s: State, outs: seq<Outgoing>, all: seq<Packet>, capacity: nat, peers: set<Peer>, lines: map<Peer, Line>)
    requires lines.Keys == peers && Delivered(s, outs, all, capacity, peers, lines)
    ensures forall peer <- peers :: Taken(lines[peer], peer.State(), Row(peer, PacketsAt(all, s.packed)))
  {
    hide SentUpTo, Taken, Row, PacketsAt, Peer.State;
    AllSent(peers, PacketsAt(all, s.packed), lines);
  }

  lemma RunStep(s: State, actions: seq<Action>, i: nat)
    requires i < |actions| && Run(s, actions[i..]).Some?
    ensures actions[i] in actions && Step(s, actions[i]).Some?
    ensures Run(Step(s, actions[i]).value, actions[i + 1..]) == Run(s, actions[i..])
  {
    assert actions[i..][0] == actions[i] && actions[i..][1..] == actions[i + 1..];
    hide Step;
  }

  lemma RunEnds(s: State, actions: seq<Action>)
    ensures Run(s, actions[|actions|..]) == Some(s)
  {
  }

  // What a connection has received by then is the start of all that the responses Send was
  // called with hold for it; once all of them are packed, it is all of that.
  lemma StreamOfGiven(all: seq<Packet>, actions: seq<Action>, peer: Peer)
    requires Run(Init(), actions).Some?
    ensures var s, sent := Run(Init(), actions).value, Entered(Sends(actions));
            && StreamFor(peer, PacketsAt(all, s.packed)) <= StreamFor(peer, PacketsAt(all, sent))
            && (s.packed == sent ==> StreamFor(peer, PacketsAt(all, s.packed)) == StreamFor(peer, PacketsAt(all, sent)))
  {
    var s := Run(Init(), actions).value;
    PackedOfSent(actions);
    hide Entered, Sends, Remainder, StreamFor, PacketsAt, Run;
    var waiting := Remainder(s) + s.At(s.producer);
    PacketsAtAppend(all, s.packed, waiting);
    StreamOfAppend(peer, PacketsAt(all, s.packed), PacketsAt(all, waiting));
  }

  lemma PackedOfSent(actions: seq<Action>)
    requires Run(Init(), actions).Some?
    ensures var s, sent := Run(Init(), actions).value, Entered(Sends(actions));
            && sent == s.packed + (Remainder(s) + s.At(s.producer)) && s.packed <= sent
            && (s.packed == sent <==> Remainder(s) == [] && s.At(s.producer) == [])
  {
    ResponsesAreHandedOff(actions);
    hide Entered, Sends, Remainder, Run;
    var s := Run(Init(), actions).value;
    Associative(s.packed, Remainder(s), s.At(s.producer));
  }
}
