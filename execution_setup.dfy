/** Alice's side of the execution-setup handshake (`swap::protocol::alice::execution_setup`):
    three rounds over one substream, each reading one of Bob's messages and, in the first
    two rounds, writing one of Alice's, with every failure ending the run. The
    cryptography that turns messages into states is not part of this model; it enters
    as the uninterpreted functions of a `Crypto` value. */
module ExecutionSetup {
  import opened Base

  /** The protocol name the listener registers. */
  const ProtocolId: string := "/execution_setup/1.0.0"

  type Bytes = seq<bv8>

  /** Alice's protocol states, Bob's three messages and Alice's two. */
  type State0
  type State1
  type State2
  type State3
  type BobMessage0
  type BobMessage1
  type BobMessage2
  type AliceMessage0
  type AliceMessage2

  /** Why a state transition rejected a message. */
  type CryptoError

  /** The operations the handshake relies on: the CBOR codec (`serde_cbor::from_slice`
      and `serde_cbor::to_vec`) and the state transitions. `receive1` cannot fail. */
  datatype Crypto = Crypto(
    nextMessage0: State0 -> AliceMessage0,
    decode0: Bytes -> Option<BobMessage0>,
    receive0: (State0, BobMessage0) -> Result<State1, CryptoError>,
    encode0: AliceMessage0 -> Option<Bytes>,
    decode1: Bytes -> Option<BobMessage1>,
    receive1: (State1, BobMessage1) -> State2,
    nextMessage2: State2 -> AliceMessage2,
    encode2: AliceMessage2 -> Option<Bytes>,
    decode2: Bytes -> Option<BobMessage2>,
    receive2: (State2, BobMessage2) -> Result<State3, CryptoError>)

  /** What the peer has sent: a frame, or a frame longer than the read buffer. */
  datatype Incoming = Frame(bytes: Bytes) | Oversized

  /** What happened on the substream, in order. */
  datatype Event = Read(bytes: Bytes) | Wrote(bytes: Bytes)

  datatype ReadError = Closed | TooLarge

  /** The ways a run ends without a `State3`; `round` is the message number 0, 1 or 2. */
  datatype SetupError =
    | ReadFailed(round: nat, reason: ReadError)
    | DeserializeFailed(round: nat)
    | ReceiveFailed(round: nat, cause: CryptoError)
    | SerializeFailed(round: nat)
    | WriteFailed(round: nat)

  /** A substream as a value: the frames still to be read, the events so far, and how
      many more writes succeed before the connection fails. */
  datatype Wire = Wire(incoming: seq<Incoming>, log: seq<Event>, writeCapacity: nat)

  /** `read_message(BUF_SIZE)`: takes the next frame, failing on a closed stream or an
      oversized frame. */
  function ReadStep(w: Wire, round: nat): (result: (Result<Bytes, SetupError>, Wire))
    ensures result.0.Success? <==> w.incoming != [] && w.incoming[0].Frame?
    ensures result.0.Success? ==> result.1 == w.(incoming := w.incoming[1..], log := w.log + [Read(result.0.value)])
    ensures result.0.Failure? ==> result.0.error.ReadFailed? && result.0.error.round == round && result.1.log == w.log
    ensures result.0.Failure? ==>
      && result.1.writeCapacity == w.writeCapacity
      && (result.0.error.reason == Closed <==> w.incoming == [])
      && result.1.incoming == (if w.incoming == [] then [] else w.incoming[1..])
  {
    if w.incoming == [] then (Failure(ReadFailed(round, Closed)), w)
    else match w.incoming[0]
      case Oversized => (Failure(ReadFailed(round, TooLarge)), w.(incoming := w.incoming[1..]))
      case Frame(b) => (Success(b), w.(incoming := w.incoming[1..], log := w.log + [Read(b)]))
  }

  /** `write_message`: sends one frame unless the connection has failed. */
  function WriteStep(w: Wire, round: nat, b: Bytes): (result: (Result<(), SetupError>, Wire))
    ensures result.0.Success? <==> w.writeCapacity > 0
    ensures result.0.Success? ==> result.1 == w.(log := w.log + [Wrote(b)], writeCapacity := w.writeCapacity - 1)
    ensures result.0.Failure? ==> result.0.error == WriteFailed(round) && result.1 == w
  {
    if w.writeCapacity == 0 then (Failure(WriteFailed(round)), w)
    else (Success(()), w.(log := w.log + [Wrote(b)], writeCapacity := w.writeCapacity - 1))
  }

  /** The listener body of `Behaviour::run` as a function of the substream: the result
      and the substream afterwards. A run logs at most five events and takes at most
      three incoming entries; every error names round 0, 1 or 2. */
  function Handshake(c: Crypto, s0: State0, w: Wire): (result: (Result<State3, SetupError>, Wire))
    ensures |w.log| <= |result.1.log| <= |w.log| + 5
    ensures |w.incoming| - 3 <= |result.1.incoming| <= |w.incoming|
    ensures result.1.incoming == w.incoming[|w.incoming| - |result.1.incoming|..]
    ensures result.0.Failure? ==> result.0.error.round <= 2
  {
    var aliceMessage0 := c.nextMessage0(s0);
    // Round 0: read and fold Bob's message 0, then write Alice's.
    var (b0, w1) := ReadStep(w, 0);
    if b0.Failure? then (Failure(b0.error), w1) else
    var bobMessage0 := c.decode0(b0.value);
    if bobMessage0.None? then (Failure(DeserializeFailed(0)), w1) else
    var state1 := c.receive0(s0, bobMessage0.value);
    if state1.Failure? then (Failure(ReceiveFailed(0, state1.error)), w1) else
    var out0 := c.encode0(aliceMessage0);
    if out0.None? then (Failure(SerializeFailed(0)), w1) else
    var (sent0, w2) := WriteStep(w1, 0, out0.value);
    if sent0.Failure? then (Failure(sent0.error), w2) else
    // Round 1: read and fold Bob's message 1.
    var (b1, w3) := ReadStep(w2, 1);
    if b1.Failure? then (Failure(b1.error), w3) else
    var bobMessage1 := c.decode1(b1.value);
    if bobMessage1.None? then (Failure(DeserializeFailed(1)), w3) else
    var state2 := c.receive1(state1.value, bobMessage1.value);
    // Round 2: write Alice's message 2, then read and fold Bob's.
    var out2 := c.encode2(c.nextMessage2(state2));
    if out2.None? then (Failure(SerializeFailed(2)), w3) else
    var (sent2, w4) := WriteStep(w3, 2, out2.value);
    if sent2.Failure? then (Failure(sent2.error), w4) else
    var (b2, w5) := ReadStep(w4, 2);
    if b2.Failure? then (Failure(b2.error), w5) else
    var bobMessage2 := c.decode2(b2.value);
    if bobMessage2.None? then (Failure(DeserializeFailed(2)), w5) else
    var state3 := c.receive2(state2, bobMessage2.value);
    if state3.Failure? then (Failure(ReceiveFailed(2, state3.error)), w5) else
    (Success(state3.value), w5)
  }

  /** The events a run appends to the log. */
  function NewEvents(w: Wire, w': Wire): seq<Event>
    requires |w.log| <= |w'.log|
  {
    w'.log[|w.log|..]
  }

  /** What a complete handshake computes from Bob's three frames, regardless of the
      substream: Alice's two outgoing frames and the final state, or `None` when a
      message does not decode, a fold rejects it, or a message of Alice's does not
      encode. A complete exchange has decoded all three of Bob's frames, and Alice's
      first frame is her encoded opening message, which depends on nothing Bob sent. */
  function Exchange(c: Crypto, s0: State0, f0: Bytes, f1: Bytes, f2: Bytes): (r: Option<(Bytes, Bytes, State3)>)
    ensures r.Some? ==> c.decode0(f0).Some? && c.decode1(f1).Some? && c.decode2(f2).Some?
    ensures r.Some? ==> c.encode0(c.nextMessage0(s0)) == Some(r.value.0)
  {
    match c.decode0(f0)
    case None => None
    case Some(m0) =>
      match c.receive0(s0, m0)
      case Failure(_) => None
      case Success(state1) =>
        match c.encode0(c.nextMessage0(s0))
        case None => None
        case Some(x0) =>
          match c.decode1(f1)
          case None => None
          case Some(m1) =>
            var state2 := c.receive1(state1, m1);
            match c.encode2(c.nextMessage2(state2))
            case None => None
            case Some(x2) =>
              match c.decode2(f2)
              case None => None
              case Some(m2) =>
                match c.receive2(state2, m2)
                case Failure(_) => None
                case Success(state3) => Some((x0, x2, state3))
  }

  /** A run only appends to the log and uses one write capacity per write. */
  lemma HandshakeTrace(c: Crypto, s0: State0, w: Wire)
    ensures var (_, w') := Handshake(c, s0, w);
      && |w.log| <= |w'.log|
      && w'.log[..|w.log|] == w.log
      && w'.writeCapacity == w.writeCapacity - (|w'.log| - |w.log|) / 2
  {
  }

  /** The appended events alternate read, write, read, ..., starting with a read. */
  lemma HandshakeAlternates(c: Crypto, s0: State0, w: Wire)
    ensures var (_, w') := Handshake(c, s0, w);
      |w.log| <= |w'.log| &&
      var events := NewEvents(w, w');
      && (|events| > 0 ==> events[0].Read?)
      && (|events| > 1 ==> events[1].Wrote?)
      && (|events| > 2 ==> events[2].Read?)
      && (|events| > 3 ==> events[3].Wrote?)
      && (|events| > 4 ==> events[4].Read?)
  {
    var w' := Handshake(c, s0, w).1;
    var (b0, w1) := ReadStep(w, 0);
    if b0.Failure? || c.decode0(b0.value).None? || c.receive0(s0, c.decode0(b0.value).value).Failure?
       || c.encode0(c.nextMessage0(s0)).None? {
      assert w' == w1;
      return;
    }
    var (sent0, w2) := WriteStep(w1, 0, c.encode0(c.nextMessage0(s0)).value);
    if sent0.Failure? {
      assert w' == w2;
      return;
    }
    assert NewEvents(w, w2) == [Read(b0.value), Wrote(c.encode0(c.nextMessage0(s0)).value)];
    var (b1, w3) := ReadStep(w2, 1);
    var state1 := c.receive0(s0, c.decode0(b0.value).value).value;
    if b1.Failure? || c.decode1(b1.value).None?
       || c.encode2(c.nextMessage2(c.receive1(state1, c.decode1(b1.value).value))).None? {
      if b1.Success? {
        assert NewEvents(w, w3) == NewEvents(w, w2) + [Read(b1.value)];
      }
      assert w' == w3;
      return;
    }
    assert NewEvents(w, w3) == NewEvents(w, w2) + [Read(b1.value)];
    var out2 := c.encode2(c.nextMessage2(c.receive1(state1, c.decode1(b1.value).value))).value;
    var (sent2, w4) := WriteStep(w3, 2, out2);
    if sent2.Failure? {
      assert w' == w4;
      return;
    }
    assert NewEvents(w, w4) == NewEvents(w, w3) + [Wrote(out2)];
    var (b2, w5) := ReadStep(w4, 2);
    assert w' == w5;
    if b2.Success? {
      assert NewEvents(w, w5) == NewEvents(w, w4) + [Read(b2.value)];
    }
  }

  /** The frames a run reads (events 0, 2 and 4) are Bob's frames, in the order they
      arrived. */
  lemma HandshakeReadsInput(c: Crypto, s0: State0, w: Wire)
    ensures var (_, w') := Handshake(c, s0, w);
      |w.log| <= |w'.log| &&
      var events := NewEvents(w, w');
      && (|events| > 0 ==> |w.incoming| > 0 && w.incoming[0] == Frame(events[0].bytes))
      && (|events| > 2 ==> |w.incoming| > 1 && w.incoming[1] == Frame(events[2].bytes))
      && (|events| > 4 ==> |w.incoming| > 2 && w.incoming[2] == Frame(events[4].bytes))
  {
  }

  /** Alice's first frame is the encoding of `next_message` of the initial state
      alone, and it is written only after Bob's first message has been folded into
      `state1`. */
  lemma HandshakeFirstWrite(c: Crypto, s0: State0, w: Wire)
    ensures var (_, w') := Handshake(c, s0, w);
      |w.log| <= |w'.log| &&
      (|NewEvents(w, w')| >= 2 ==>
        && c.encode0(c.nextMessage0(s0)).Some?
        && NewEvents(w, w')[1] == Wrote(c.encode0(c.nextMessage0(s0)).value)
        && w.incoming[0].Frame?
        && c.decode0(w.incoming[0].bytes).Some?
        && c.receive0(s0, c.decode0(w.incoming[0].bytes).value).Success?)
  {
  }

  /** When Bob's first message does not decode, or the initial state rejects it, the
      run fails in round 0 having read that one frame and written nothing. */
  lemma HandshakeRoundZeroRejects(c: Crypto, s0: State0, w: Wire)
    requires w.incoming != [] && w.incoming[0].Frame?
    requires var f0 := w.incoming[0].bytes;
      c.decode0(f0).None? || c.receive0(s0, c.decode0(f0).value).Failure?
    ensures var (r, w') := Handshake(c, s0, w);
      && r.Failure? && r.error.round == 0
      && (r.error.DeserializeFailed? || r.error.ReceiveFailed?)
      && w'.log == w.log + [Read(w.incoming[0].bytes)]
      && w'.writeCapacity == w.writeCapacity
  {
  }

  /** A round-0 read, decode or fold failure leaves no write in the log. */
  lemma HandshakeRoundZeroWritesNothing(c: Crypto, s0: State0, w: Wire)
    ensures var (r, w') := Handshake(c, s0, w);
      r.Failure? && r.error.round == 0 && !r.error.SerializeFailed? && !r.error.WriteFailed? ==>
        |w.log| <= |w'.log| <= |w.log| + 1 && forall e | e in NewEvents(w, w') :: e.Read?
  {
  }

  /** Folding Bob's second message cannot fail: the only round-1 errors are a failed
      read and a failed decode, and every error names round 0, 1 or 2. */
  lemma HandshakeRoundOneInfallible(c: Crypto, s0: State0, w: Wire)
    ensures var (r, _) := Handshake(c, s0, w);
      r.Failure? ==>
        && r.error.round <= 2
        && (r.error.round == 1 ==> r.error.ReadFailed? || r.error.DeserializeFailed?)
        && (r.error.ReceiveFailed? ==> r.error.round != 1)
  {
  }

  /** Alice's second frame encodes `next_message` of `state2`, the fold of Bob's first
      two messages, and it is written before Bob's third frame is read. */
  lemma HandshakeSecondWrite(c: Crypto, s0: State0, w: Wire)
    ensures var (_, w') := Handshake(c, s0, w);
      |w.log| <= |w'.log| &&
      (|NewEvents(w, w')| >= 4 ==>
        && |w.incoming| >= 2 && w.incoming[0].Frame? && w.incoming[1].Frame?
        && c.decode0(w.incoming[0].bytes).Some?
        && c.receive0(s0, c.decode0(w.incoming[0].bytes).value).Success?
        && c.decode1(w.incoming[1].bytes).Some?
        && var state2 := c.receive1(c.receive0(s0, c.decode0(w.incoming[0].bytes).value).value,
                                    c.decode1(w.incoming[1].bytes).value);
           c.encode2(c.nextMessage2(state2)).Some?
           && NewEvents(w, w')[3] == Wrote(c.encode2(c.nextMessage2(state2)).value)
           && (|NewEvents(w, w')| == 5 ==> NewEvents(w, w')[4] == Read(w.incoming[2].bytes)))
  {
  }

  /** A run succeeds exactly when Bob sends three frames that make a complete
      exchange and the substream accepts Alice's two frames; the state it returns is
      the fold of all three messages, and the log gains exactly read, write, read,
      write, read. */
  lemma {:induction false} HandshakeSucceeds(c: Crypto, s0: State0, w: Wire)
    ensures var (r, w') := Handshake(c, s0, w);
      r.Success? <==>
        && |w.incoming| >= 3 && w.incoming[0].Frame? && w.incoming[1].Frame? && w.incoming[2].Frame?
        && w.writeCapacity >= 2
        && Exchange(c, s0, w.incoming[0].bytes, w.incoming[1].bytes, w.incoming[2].bytes).Some?
    ensures var (r, w') := Handshake(c, s0, w);
      r.Success? ==>
        var (x0, x2, state3) := Exchange(c, s0, w.incoming[0].bytes, w.incoming[1].bytes, w.incoming[2].bytes).value;
        && r.value == state3
        && w'.log == w.log + [Read(w.incoming[0].bytes), Wrote(x0), Read(w.incoming[1].bytes), Wrote(x2),
                              Read(w.incoming[2].bytes)]
        && w'.incoming == w.incoming[3..]
        && w'.writeCapacity == w.writeCapacity - 2
  {
    var (r, w') := Handshake(c, s0, w);
    var (b0, w1) := ReadStep(w, 0);
    if b0.Failure? {
      assert r.Failure?;
      return;
    }
    var f0 := b0.value;
    if c.decode0(f0).None? || c.receive0(s0, c.decode0(f0).value).Failure?
       || c.encode0(c.nextMessage0(s0)).None? {
      assert r.Failure?;
      return;
    }
    var x0 := c.encode0(c.nextMessage0(s0)).value;
    var (sent0, w2) := WriteStep(w1, 0, x0);
    var (b1, w3) := ReadStep(w2, 1);
    if sent0.Failure? || b1.Failure? {
      assert r.Failure?;
      return;
    }
    var f1 := b1.value;
    if c.decode1(f1).None? {
      assert r.Failure?;
      return;
    }
    var state2 := c.receive1(c.receive0(s0, c.decode0(f0).value).value, c.decode1(f1).value);
    if c.encode2(c.nextMessage2(state2)).None? {
      assert r.Failure?;
      return;
    }
    var x2 := c.encode2(c.nextMessage2(state2)).value;
    var (sent2, w4) := WriteStep(w3, 2, x2);
    var (b2, w5) := ReadStep(w4, 2);
    if sent2.Failure? || b2.Failure? {
      assert r.Failure?;
      return;
    }
    var f2 := b2.value;
    assert w.incoming[..3] == [Frame(f0), Frame(f1), Frame(f2)];
    assert w' == w5;
    assert w5.log == w.log + [Read(f0), Wrote(x0), Read(f1), Wrote(x2), Read(f2)];
  }

  /** `libp2p_async_await::BehaviourOutEvent` for a protocol whose inbound side yields a
      `State3` and whose outbound side yields nothing. */
  datatype BehaviourOutEvent<Peer> =
    | Inbound(peer: Peer, result: Result<State3, SetupError>)
    | Outbound(peer: Peer, outcome: Result<(), SetupError>)

  /** The behaviour's only event: a finished run. */
  datatype OutEvent = Done(result: Result<State3, SetupError>)

  /** `From<BehaviourOutEvent> for OutEvent`: Alice only listens, so an outbound event
      cannot occur. */
  function FromBehaviourOutEvent<Peer>(e: BehaviourOutEvent<Peer>): (r: OutEvent)
    requires e.Inbound?
    ensures r.result.Success? <==> e.result.Success?
    ensures r.result.Success? ==> r.result.value == e.result.value
    ensures r.result.Failure? ==> r.result.error == e.result.error
  {
    match e
    case Inbound(_, Success(state3)) => Done(Success(state3))
    case Inbound(_, Failure(err)) => Done(Failure(err))
  }

  /** A finished listener run reaches the swap as `Done` with the run's own result. */
  lemma DoneCarriesHandshake<Peer>(c: Crypto, s0: State0, w: Wire, bob: Peer)
    ensures FromBehaviourOutEvent(Inbound(bob, Handshake(c, s0, w).0)) == Done(Handshake(c, s0, w).0)
  {
  }

  /** The substream of one attempt. */
  class Substream {
    var incoming: seq<Incoming>
    var log: seq<Event>
    var writeCapacity: nat

    constructor(frames: seq<Incoming>, capacity: nat)
      ensures incoming == frames && log == [] && writeCapacity == capacity
    {
      incoming := frames;
      log := [];
      writeCapacity := capacity;
    }

    function State(): Wire
      reads this
    {
      Wire(incoming, log, writeCapacity)
    }

    method ReadMessage(round: nat) returns (r: Result<Bytes, SetupError>)
      modifies this
      ensures (r, State()) == ReadStep(old(State()), round)
    {
      if incoming == [] {
        return Failure(ReadFailed(round, Closed));
      }
      var next := incoming[0];
      incoming := incoming[1..];
      match next
      case Oversized =>
        r := Failure(ReadFailed(round, TooLarge));
      case Frame(b) =>
        log := log + [Read(b)];
        r := Success(b);
    }

    method WriteMessage(round: nat, b: Bytes) returns (r: Result<(), SetupError>)
      modifies this
      ensures (r, State()) == WriteStep(old(State()), round, b)
    {
      if writeCapacity == 0 {
        return Failure(WriteFailed(round));
      }
      log := log + [Wrote(b)];
      writeCapacity := writeCapacity - 1;
      r := Success(());
    }

    /** Runs the listener on this substream; every `?` of the source is an early return. */
    method Listen(c: Crypto, s0: State0) returns (r: Result<State3, SetupError>)
      modifies this
      ensures (r, State()) == Handshake(c, s0, old(State()))
    {
      var aliceMessage0 := c.nextMessage0(s0);
      var b0 :- ReadMessage(0);
      var bobMessage0 := c.decode0(b0);
      if bobMessage0.None? {
        return Failure(DeserializeFailed(0));
      }
      var state1 := c.receive0(s0, bobMessage0.value);
      if state1.Failure? {
        return Failure(ReceiveFailed(0, state1.error));
      }
      var out0 := c.encode0(aliceMessage0);
      if out0.None? {
        return Failure(SerializeFailed(0));
      }
      var _ :- WriteMessage(0, out0.value);
      var b1 :- ReadMessage(1);
      var bobMessage1 := c.decode1(b1);
      if bobMessage1.None? {
        return Failure(DeserializeFailed(1));
      }
      var state2 := c.receive1(state1.value, bobMessage1.value);
      var out2 := c.encode2(c.nextMessage2(state2));
      if out2.None? {
        return Failure(SerializeFailed(2));
      }
      var _ :- WriteMessage(2, out2.value);
      var b2 :- ReadMessage(2);
      var bobMessage2 := c.decode2(b2);
      if bobMessage2.None? {
        return Failure(DeserializeFailed(2));
      }
      var state3 := c.receive2(state2, bobMessage2.value);
      if state3.Failure? {
        return Failure(ReceiveFailed(2, state3.error));
      }
      r := Success(state3.value);
    }
  }
}
