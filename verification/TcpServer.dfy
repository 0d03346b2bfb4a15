/** The TCP server object: the rate limiter, the account half and the mailbox half of the server
    behind it, a request served alone, and the steps of connections served side by side. */
module TcpServer {
  import opened Wrappers
  import opened Bytes
  import opened WireCodec
  import opened WirePages
  import opened InboxPages
  import opened Fields
  import opened Mailbox
  import opened AuthWire
  import opened PreAuthGate
  import AuthServer
  import opened AuthSpec
  import opened Dispatch
  import opened Connections

  class Server {
    const config: ServerConfig
    const gate: TcpGate
    const auth: AuthServer.Server
    const mail: InMemoryServer<PrekeyBundle, OneTimePrekey, WireEnvelope>
    var connections: map<nat, Pending>

    ghost predicate Valid() {
      gate.config == config.limits && auth.checks == config.checks
    }

    ghost function State(): ServerState
      reads gate, auth, mail
    {
      ServerState(gate.State(), auth.State(), mail.State())
    }

    constructor (config: ServerConfig)
      ensures Valid() && this.config == config && State() == EmptyWorld().server && connections == map[]
      ensures fresh(gate) && fresh(auth) && fresh(mail)
    {
      this.config := config;
      gate := new TcpGate(config.limits);
      auth := new AuthServer.Server(config.checks);
      mail := new InMemoryServer();
      connections := map[];
    }

    method Login(command: nat, payload: Blob, env: Env) returns (reply: Option<Blob>)
      requires Valid() && CommandOf(command) != OtherCommand
      modifies gate, auth
      ensures (State(), reply) == if command == CmdRegister then HandleRegister(old(State()), payload, env, config)
                                  else if command == CmdAuthBegin then HandleBegin(old(State()), payload, env, config)
                                  else HandleFinish(old(State()), payload, env, config)
    {
      if command == CmdRegister {
        var r := DeserializeRegister(payload);
        if r.None? {
          return None;
        }
        var within := gate.EnforcePreAuthUserRateLimit(Register, env.addr, r.value.user, env.userNow);
        if !within {
          return None;
        }
        var ok := auth.RegisterTransportIdentity(r.value);
        return if ok then Some([]) else None;
      } else if command == CmdAuthBegin {
        var r := DeserializeBegin(payload);
        if r.None? {
          return None;
        }
        var within := gate.EnforcePreAuthUserRateLimit(AuthBegin, env.addr, r.value.user, env.userNow);
        if !within {
          return None;
        }
        var a := auth.BeginTransportAuthentication(r.value, env.now, env.random);
        return if a.Some? then Some(SerializeBeginReply(a.value)) else None;
      } else {
        var r := DeserializeFinish(payload);
        if r.None? {
          return None;
        }
        var within := gate.EnforcePreAuthUserRateLimit(AuthFinish, env.addr, r.value.user, env.userNow);
        if !within {
          return None;
        }
        var a := auth.FinishTransportAuthentication(r.value, env.now, env.newToken);
        return if a.Some? then Some(SerializeFinishReply(a.value)) else None;
      }
    }

    method ActFor(command: nat, user: Text, inner: Blob) returns (reply: Option<Blob>)
      requires Valid()
      modifies mail
      ensures (mail.State(), reply) == HandleForUser(old(mail.State()), command, user, inner, config)
    {
      if command == CmdPublish {
        var b := DeserializeBundle(inner);
        if b.None? || b.value.user != user {
          return None;
        }
        var ok := mail.PublishBundle(Split(b.value), BundleValid(b.value, config));
        return if ok then Some([]) else None;
      } else if command == CmdAcquire {
        var peer := DeserializeString(inner);
        if peer.None? {
          return None;
        }
        var b := mail.AcquireBundleForSession(peer.value);
        return if b.Some? then Some(SerializeBundle(Joined(b.value))) else None;
      } else if command == CmdEnqueue {
        var r := DeserializeEnqueue(inner);
        if r.None? || SenderOf(r.value.envelope) != Some(user) || RecipientOf(r.value.envelope) != Some(r.value.user) {
          return None;
        }
        mail.EnqueueEnvelope(r.value.user, r.value.envelope);
        return Some([]);
      } else if command == CmdDrain {
        var r := DeserializeDrain(inner);
        if r.None? || r.value.user != user {
          return None;
        }
        var page := mail.DrainInbox(user, r.value.ack, SizeOf(SerializeEnvelope));
        return if page.None? then None else SerializeInbox(page.value, SerializeEnvelope);
      } else {
        return None;
      }
    }

    method HandleFrame(command: nat, payload: Blob, env: Env) returns (reply: Option<Blob>)
      requires Valid()
      modifies gate, auth, mail
      ensures (State(), reply) == Handle(old(State()), command, payload, env, config)
    {
      var within := gate.EnforcePreAuthRateLimit(CommandOf(command), env.addr, env.gateNow);
      if !within {
        return None;
      }
      if CommandOf(command) != OtherCommand {
        reply := Login(command, payload, env);
        return;
      }
      var p := DeserializeAuthenticated(payload);
      if p.None? {
        return None;
      }
      var user := auth.AuthenticateSessionToken(p.value.token, env.now);
      if user.None? {
        return None;
      }
      if command == CmdLogout {
        var ok := auth.RevokeSessionToken(p.value.token);
        return if ok then Some([]) else None;
      }
      reply := ActFor(command, user.value, p.value.payload);
    }

    // ---- steps ----

    method LimitAddress(r: Request, look: Look) returns (p: Progress)
      requires Valid()
      modifies gate
      ensures (State(), p) == StepIdle(old(State()), r, look, config)
    {
      var within := gate.EnforcePreAuthRateLimit(CommandOf(r.command), r.addr, look.now);
      return if within then Waiting(Limited(r)) else Replied(None);
    }

    method LimitUserOrCheck(r: Request, look: Look) returns (p: Progress)
      requires Valid()
      modifies gate, auth
      ensures (State(), p) == StepLimited(old(State()), r, look, config)
    {
      if CommandOf(r.command) != OtherCommand {
        var user := LoginUser(r);
        if user.None? {
          return Replied(None);
        }
        var within := gate.EnforcePreAuthUserRateLimit(CommandOf(r.command), r.addr, user.value, look.now);
        return if within then Waiting(Permitted(r)) else Replied(None);
      }
      var a := DeserializeAuthenticated(r.payload);
      if a.None? {
        return Replied(None);
      }
      var actor := auth.AuthenticateSessionToken(a.value.token, look.now);
      return if actor.Some? then Waiting(Checked(r, actor.value)) else Replied(None);
    }

    method LoginCall(r: Request, look: Look) returns (p: Progress)
      requires Valid()
      modifies auth
      ensures (State(), p) == StepPermitted(old(State()), r, look, config)
    {
      match CommandOf(r.command)
      case Register =>
        var m := DeserializeRegister(r.payload);
        if m.None? {
          return Replied(None);
        }
        var ok := auth.RegisterTransportIdentity(m.value);
        return Replied(if ok then Some([]) else None);
      case AuthBegin =>
        var m := DeserializeBegin(r.payload);
        if m.None? {
          return Replied(None);
        }
        var a := auth.BeginTransportAuthentication(m.value, look.now, look.random);
        return Replied(if a.Some? then Some(SerializeBeginReply(a.value)) else None);
      case AuthFinish =>
        var m := DeserializeFinish(r.payload);
        if m.None? {
          return Replied(None);
        }
        var a := auth.FinishTransportAuthentication(m.value, look.now, look.newToken);
        return Replied(if a.Some? then Some(SerializeFinishReply(a.value)) else None);
      case OtherCommand => return Replied(None);
    }

    method UserCall(r: Request, actor: Text) returns (p: Progress)
      requires Valid()
      modifies auth, mail
      ensures (State(), p) == StepChecked(old(State()), r, actor, config)
    {
      var a := DeserializeAuthenticated(r.payload);
      if a.None? {
        return Replied(None);
      }
      if r.command == CmdLogout {
        var ok := auth.RevokeSessionToken(a.value.token);
        return Replied(if ok then Some([]) else None);
      }
      var reply := ActFor(r.command, actor, a.value.payload);
      return Replied(reply);
    }

    /** The next step of one connection. */
    method Step(e: Connections.Event, ghost w: World) returns (p: Progress)
      requires Valid() && w.server == State() && w.connections == connections
      modifies this`connections, gate, auth, mail
      ensures State() == Advance(w, e, config).server && connections == Advance(w, e, config).connections
      ensures p == StepConnection(w.server, PendingOf(w, e.connection), e.request, e.look, config).1
    {
      var pending := if e.connection in connections then connections[e.connection] else Idle;
      match pending {
        case Idle => p := LimitAddress(e.request, e.look);
        case Limited(r) => p := LimitUserOrCheck(r, e.look);
        case Permitted(r) => p := LoginCall(r, e.look);
        case Checked(r, actor) => p := UserCall(r, actor);
      }
      connections := connections[e.connection := if p.Waiting? then p.pending else Idle];
    }

    /** The steps of all connections in the order in which the mutexes let them through. */
    method Serve(events: seq<Connections.Event>, ghost w: World) returns (replies: seq<(nat, Option<Blob>)>)
      requires Valid() && w.server == State() && w.connections == connections
      modifies this`connections, gate, auth, mail
      ensures State() == Connections.Run(w, events, config).server && replies == Replies(w, events, config)
    {
      replies := [];
      ghost var v := w;
      assert events[0..] == events && [] + Replies(w, events, config) == Replies(w, events, config);
      for i := 0 to |events|
        invariant v.server == State() && v.connections == connections
        invariant ServedSoFar(w, events, i, v, replies, config)
      {
        ServeNext(w, events, i, v, replies, config);
        var p := Step(events[i], v);
        v := Advance(v, events[i], config);
        if p.Replied? {
          replies := replies + [(events[i].connection, p.reply)];
        } else {
          assert replies + [] == replies;
        }
      }
      assert events[|events|..] == [] && replies + [] == replies;
    }
  }
}
