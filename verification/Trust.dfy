/** Whom a client trusts: identities are pinned for good, and only the user makes a pin count. */
module Trust {
  import opened Wrappers
  import opened Bytes
  import opened Messages
  import opened Symbolic
  import opened Sessions
  import opened ClientSpec
  import ClientRuns

  function Unverified(p: Pin): Pin {
    p.(verified := false)
  }

  /** Among the events the user has entered the safety number of this very identity. */
  predicate Entered(events: seq<ClientRuns.Event>, peer: Text, p: Pin) {
    ClientRuns.NumberEntered(peer, NumberOf(peer, p.sign, p.mldsa, p.dh)) in events
  }

  /** One event: a pin keeps its keys and stays verified, and becomes verified only by its number. */
  lemma StepPins(c: ClientState, clock: nat, e: ClientRuns.Event, peer: Text)
    ensures var c' := ClientRuns.Step(c, clock, e).0;
            && (peer in c.pins ==> peer in c'.pins && Unverified(c'.pins[peer]) == Unverified(c.pins[peer])
                                   && (c.pins[peer].verified ==> c'.pins[peer].verified))
            && (peer in c'.pins && c'.pins[peer].verified && !Entered([e], peer, c'.pins[peer]) ==>
                  peer in c.pins && c.pins[peer] == c'.pins[peer])
  {
    if e.InitialArrives? {
      InitialPins(c, e.initial);
    } else if e.InitiateRequested? {
      InitiatePins(c, e.bundle, e.peer, e.plaintext, Draws(e.sessionId, clock, e.seed1, e.seed2));
    }
  }

  /** Handshakes at most add an unverified pin. */
  ghost predicate AtMostPinned(c: ClientState, c': ClientState, peer: Text) {
    c'.pins == c.pins || (peer !in c.pins && exists p: Pin :: !p.verified && c'.pins == c.pins[peer := p])
  }

  lemma InitialPins(c: ClientState, m: Initial)
    ensures AtMostPinned(c, HandleInitial(c, m).0, m.fromUser)
  {
    if HandleInitial(c, m).1.None? {
      ClientRuns.RefusedInitial(c, m);
      assert !Pin(m.identitySign, m.identityMldsa, m.identityDh, false).verified;
    }
  }

  lemma InitiatePins(c: ClientState, b: Bundle, peer: Text, plaintext: Text, d: Draws)
    ensures AtMostPinned(c, Initiate(c, b, peer, plaintext, d).0, peer)
  {
    assert !Pin(b.sign, b.mldsa, b.dh, false).verified;
  }

  /** Pins over runs: the keys of a pin never change, a verified pin stays so, and a pin that is verified
      at the end was so at the start or had its number entered in between. */
  lemma {:induction false} RunPins(c: ClientState, clock: nat, events: seq<ClientRuns.Event>, peer: Text)
    ensures var c' := ClientRuns.Run(c, clock, events).0;
            && (peer in c.pins ==> peer in c'.pins && Unverified(c'.pins[peer]) == Unverified(c.pins[peer])
                                   && (c.pins[peer].verified ==> c'.pins[peer].verified))
            && (peer in c'.pins && c'.pins[peer].verified && !Entered(events, peer, c'.pins[peer]) ==>
                  peer in c.pins && c.pins[peer] == c'.pins[peer])
    decreases |events|
  {
    if events != [] {
      var (c', clock') := ClientRuns.Step(c, clock, events[0]);
      StepPins(c, clock, events[0], peer);
      RunPins(c', clock', events[1..], peer);
    }
  }

  /** No session without the user. For a client that starts without pins, in every run: whoever's initial
      message it accepts, and with whomever it begins a session, the user has entered the safety number of
      exactly the identity that the message or the bundle carries. */
  lemma AcceptedIsVerified(c: ClientState, clock: nat, events: seq<ClientRuns.Event>, m: Initial)
    requires c.pins == map[] && HandleInitial(ClientRuns.Run(c, clock, events).0, m).1.Some?
    ensures Entered(events, m.fromUser, Pin(m.identitySign, m.identityMldsa, m.identityDh, true))
  {
    ClientRuns.AcceptedAuthentic(ClientRuns.Run(c, clock, events).0, m);
    RunPins(c, clock, events, m.fromUser);
  }

  lemma InitiatedIsVerified(c: ClientState, clock: nat, events: seq<ClientRuns.Event>, b: Bundle, peer: Text, plaintext: Text, d: Draws)
    requires c.pins == map[] && Initiate(ClientRuns.Run(c, clock, events).0, b, peer, plaintext, d).1.Some?
    ensures Entered(events, peer, Pin(b.sign, b.mldsa, b.dh, true))
  {
    RunPins(c, clock, events, peer);
  }
}
