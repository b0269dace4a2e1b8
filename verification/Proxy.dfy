/**
 The proxy between game client and server (bot/src/proxy.cpp, 62-160 and 317-584): reassembly of split packets for the
 bot, and forwarding.
 */
module Proxy {
  import opened Bytes
  import opened Options

  /** PacketContainer. */
  datatype Packet = Packet(opcode: Word, data: seq<Byte>, encrypted: bool, massive: bool)

  /** A packet as the security API hands it out, and whether the bot injected it. */
  datatype Received = Received(packet: Packet, injected: bool)

  datatype Direction = ClientToServer | BotToServer | ServerToClient | BotToClient

  // ---------------------------------------------------------------- opcodes

  const MESSAGE_IDENTIFY: Word := 0x2001
  const STATE_REQUEST: Word := 0x6005
  const LOGIN_RESPONSE: Word := 0xa102

  /** The families of packets that come in pieces. */
  datatype Family = CharacterData | Groupspawn | Storage | GuildStorage
  datatype Kind = Begin(f: Family) | Data(f: Family) | End(f: Family) | Whole

  function KindOf(opcode: Word): Kind
  {
    if opcode == 0x34a5 then Begin(CharacterData)
    else if opcode == 0x3013 then Data(CharacterData)
    else if opcode == 0x34a6 then End(CharacterData)
    else if opcode == 0x3017 then Begin(Groupspawn)
    else if opcode == 0x3019 then Data(Groupspawn)
    else if opcode == 0x3018 then End(Groupspawn)
    else if opcode == 0x3047 then Begin(Storage)
    else if opcode == 0x3049 then Data(Storage)
    else if opcode == 0x3048 then End(Storage)
    else if opcode == 0x3253 then Begin(GuildStorage)
    else if opcode == 0x3255 then Data(GuildStorage)
    else if opcode == 0x3254 then End(GuildStorage)
    else Whole
  }

  function DataOpcode(f: Family): (r: Word)
    ensures KindOf(r) == Data(f)
  {
    match f
    case CharacterData => 0x3013
    case Groupspawn => 0x3019
    case Storage => 0x3049
    case GuildStorage => 0x3255
  }

  /** A login response whose result is success. */
  predicate LoginSucceeds(p: Packet)
  {
    p.opcode == LOGIN_RESPONSE && |p.data| > 0 && p.data[0] == 1
  }

  // ---------------------------------------------------------------- what a run delivers

  /** One packet from the server that has been dealt with; `blocked` and `client` tell whether its opcode was blocked
      and a client connected at that time. */
  datatype Entry = Entry(packet: Packet, injected: bool, blocked: bool, client: bool)

  /** What has been collected of family `f`: the last Begin packet under the Data opcode, with all data since. */
  function Collected(h: seq<Entry>, f: Family): Option<Packet>
  {
    if |h| == 0 then None
    else
      var p, before := h[|h| - 1].packet, h[..|h| - 1];
      if KindOf(p.opcode) == Begin(f) then Some(p.(opcode := DataOpcode(f)))
      else if KindOf(p.opcode) == Data(f) then
        match Collected(before, f) case None => None case Some(c) => Some(c.(data := c.data + p.data))
      else if KindOf(p.opcode) == End(f) then None
      else Collected(before, f)
  }

  /** What the processor gets for packet `p` after `h`: nothing for a piece, the collected packet for an End. */
  function Delivery(h: seq<Entry>, p: Packet): seq<Packet>
  {
    match KindOf(p.opcode)
    case Begin(_) => []
    case Data(_) => []
    case End(f) => (match Collected(h, f) case None => [] case Some(c) => [c])
    case Whole => [p]
  }

  function Delivered(h: seq<Entry>): seq<Packet>
  {
    if |h| == 0 then []
    else Delivered(h[..|h| - 1]) + Delivery(h[..|h| - 1], h[|h| - 1].packet)
  }

  /** What the client gets for one packet; `rewritten` is the login response with the bot's own address. */
  function Passed(e: Entry, rewritten: Packet -> Packet): seq<Packet>
  {
    if !e.client then []
    else if LoginSucceeds(e.packet) then [rewritten(e.packet)]
    else if e.injected || !e.blocked then [e.packet]
    else []
  }

  function PassedOn(h: seq<Entry>, rewritten: Packet -> Packet): seq<Packet>
  {
    if |h| == 0 then [] else PassedOn(h[..|h| - 1], rewritten) + Passed(h[|h| - 1], rewritten)
  }

  /** The server sends Data and End only after a Begin. */
  predicate Bracketed(h: seq<Entry>, p: Packet)
  {
    match KindOf(p.opcode)
    case Begin(_) => true
    case Data(f) => Collected(h, f).Some?
    case End(f) => Collected(h, f).Some?
    case Whole => true
  }

  /** The families whose bracket is open after `p`. */
  function Opened(open: set<Family>, p: Packet): set<Family>
  {
    match KindOf(p.opcode)
    case Begin(f) => open + {f}
    case Data(_) => open
    case End(f) => open - {f}
    case Whole => open
  }

  /** Every packet of `items` follows its bracket, whatever was blocked or connected. */
  predicate AllBracketed(open: set<Family>, items: seq<Received>)
    decreases |items|
  {
    |items| > 0 ==>
      match KindOf(items[0].packet.opcode)
      case Begin(f) => AllBracketed(open + {f}, items[1..])
      case Data(f) => f in open && AllBracketed(open, items[1..])
      case End(f) => f in open && AllBracketed(open - {f}, items[1..])
      case Whole => AllBracketed(open, items[1..])
  }

  // ---------------------------------------------------------------- brackets

  /** The payloads of the pieces of `f`, in order. */
  function Payloads(h: seq<Entry>, f: Family): seq<Byte>
  {
    if |h| == 0 then []
    else
      var p := h[|h| - 1].packet;
      Payloads(h[..|h| - 1], f) + if KindOf(p.opcode) == Data(f) then p.data else []
  }

  /** No bracket of `f` begins or ends here. */
  predicate Inside(h: seq<Entry>, f: Family)
  {
    |h| > 0 ==>
      && KindOf(h[|h| - 1].packet.opcode) != Begin(f) && KindOf(h[|h| - 1].packet.opcode) != End(f)
      && Inside(h[..|h| - 1], f)
  }

  /** Whatever other packets and other families come in between, what has been collected since a Begin is its packet
      under the Data opcode, with its payload followed by that of every Data packet of the bracket, in order. */
  lemma {:induction false} BracketCollects(h: seq<Entry>, begin: Entry, middle: seq<Entry>, f: Family)
    requires KindOf(begin.packet.opcode) == Begin(f) && Inside(middle, f)
    ensures Collected(h + [begin] + middle, f) ==
            Some(begin.packet.(opcode := DataOpcode(f), data := begin.packet.data + Payloads(middle, f)))
    decreases |middle|
  {
    var all := h + [begin] + middle;
    if |middle| == 0 {
      assert all[|all| - 1] == begin && begin.packet.data + [] == begin.packet.data;
    } else {
      var m := middle[..|middle| - 1];
      BracketCollects(h, begin, m, f);
      assert all[..|all| - 1] == h + [begin] + m && all[|all| - 1] == middle[|middle| - 1];
      Grouped(begin.packet.data, Payloads(m, f), middle[|middle| - 1].packet.data);
    }
  }

  /** The End of a bracket delivers one packet: what has been collected. */
  lemma BracketDelivers(h: seq<Entry>, begin: Entry, middle: seq<Entry>, f: Family, end: Packet)
    requires KindOf(begin.packet.opcode) == Begin(f) && Inside(middle, f) && KindOf(end.opcode) == End(f)
    ensures var c := begin.packet.(opcode := DataOpcode(f), data := begin.packet.data + Payloads(middle, f));
            Collected(h + [begin] + middle, f) == Some(c) && Delivery(h + [begin] + middle, end) == [c]
  {
    hide Collected, Inside, Payloads;
    BracketCollects(h, begin, middle, f);
  }

  lemma Grouped(x: seq<Byte>, y: seq<Byte>, z: seq<Byte>)
    ensures x + (y + z) == x + y + z && x + (y + []) == x + y
  {
  }

  /** Blocking an opcode changes nothing for the processor. */
  lemma {:induction false} BlockingUnseen(h: seq<Entry>, k: seq<Entry>)
    requires SamePackets(h, k)
    ensures Delivered(h) == Delivered(k) && forall f: Family :: Collected(h, f) == Collected(k, f)
    decreases |h|
  {
    if |h| > 0 {
      BlockingUnseen(h[..|h| - 1], k[..|k| - 1]);
    }
  }

  predicate SamePackets(h: seq<Entry>, k: seq<Entry>)
  {
    |h| == |k| && (|h| > 0 ==> h[|h| - 1].packet == k[|k| - 1].packet && SamePackets(h[..|h| - 1], k[..|k| - 1]))
  }

  lemma AppendEntry(h: seq<Entry>, e: Entry, rewritten: Packet -> Packet)
    ensures Delivered(h + [e]) == Delivered(h) + Delivery(h, e.packet)
    ensures PassedOn(h + [e], rewritten) == PassedOn(h, rewritten) + Passed(e, rewritten)
  {
    assert (h + [e])[..|h|] == h;
  }

  lemma AppendCollected(h: seq<Entry>, e: Entry, f: Family)
    ensures Collected(h + [e], f) ==
            if KindOf(e.packet.opcode) == Begin(f) then Some(e.packet.(opcode := DataOpcode(f)))
            else if KindOf(e.packet.opcode) == Data(f) then
              (match Collected(h, f) case None => None case Some(c) => Some(c.(data := c.data + e.packet.data)))
            else if KindOf(e.packet.opcode) == End(f) then None
            else Collected(h, f)
  {
    assert (h + [e])[..|h|] == h;
  }

  // ---------------------------------------------------------------- the code

  datatype Outcome = Done | LoggedIn | Threw

  class Proxy {
    var blockedOpcodes: set<Word>
    var clientless: bool
    var connectToAgent: bool
    var characterInfo: Option<Packet>
    var groupSpawn: Option<Packet>
    var storage: Option<Packet>
    var guildStorage: Option<Packet>
    var clientConnected: bool            // clientConnection.security
    var serverConnected: bool            // serverConnection.security
    var fromServer: seq<Received>        // packets that a connection has to hand out
    var fromClient: seq<Received>
    var injectedForClientless: seq<Packet>
    var toClient: seq<Packet>            // packets handed to a connection to send
    var toServer: seq<Packet>
    var processed: seq<Packet>           // packets from the server handed to packetProcessor_
    var processedFromClient: seq<Packet>
    const rewritten: Packet -> Packet    // the login response with the bot's own address
    const patchRequest: Packet
    ghost var history: seq<Entry>

    constructor (rewritten: Packet -> Packet, patchRequest: Packet)
      ensures Valid() && history == [] && !clientless && !connectToAgent && blockedOpcodes == {}
      ensures this.rewritten == rewritten && this.patchRequest == patchRequest
    {
      this.rewritten, this.patchRequest := rewritten, patchRequest;
      blockedOpcodes, clientless, connectToAgent, clientConnected, serverConnected := {}, false, false, false, false;
      characterInfo, groupSpawn, storage, guildStorage := None, None, None, None;
      fromServer, fromClient, injectedForClientless, toClient, toServer := [], [], [], [], [];
      processed, processedFromClient, history := [], [], [];
    }

    function Container(f: Family): Option<Packet>
      reads this
    {
      match f
      case CharacterData => characterInfo
      case Groupspawn => groupSpawn
      case Storage => storage
      case GuildStorage => guildStorage
    }

    /** Over all runs, the containers, the processor's packets and the client's packets are those of the history. */
    ghost predicate Valid()
      reads this
    {
      && (forall f: Family :: Container(f) == Collected(history, f))
      && processed == Delivered(history) && toClient == PassedOn(history, rewritten)
    }

    method SetContainer(f: Family, p: Option<Packet>)
      modifies this`characterInfo, this`groupSpawn, this`storage, this`guildStorage
      ensures Container(f) == p && forall g: Family | g != f :: Container(g) == old(Container(g))
    {
      match f {
        case CharacterData => characterInfo := p;
        case Groupspawn => groupSpawn := p;
        case Storage => storage := p;
        case GuildStorage => guildStorage := p;
      }
    }

    // blockOpcode, unblockOpcode and blockingOpcode.
    method BlockOpcode(opcode: Word)
      modifies this`blockedOpcodes
      ensures blockedOpcodes == old(blockedOpcodes) + {opcode}
    {
      blockedOpcodes := blockedOpcodes + {opcode};
    }

    method UnblockOpcode(opcode: Word)
      modifies this`blockedOpcodes
      ensures blockedOpcodes == old(blockedOpcodes) - {opcode}
    {
      if opcode in blockedOpcodes {
        blockedOpcodes := blockedOpcodes - {opcode};
      }
    }

    method BlockingOpcode(opcode: Word) returns (r: bool)
      ensures r == (opcode in blockedOpcodes)
    {
      r := opcode in blockedOpcodes;
    }

    /** inject: into the incoming stream of the source. */
    method Inject(p: Packet, d: Direction)
      modifies this`injectedForClientless, this`fromClient, this`fromServer
      ensures var up := d == ClientToServer || d == BotToServer;
              && injectedForClientless == old(injectedForClientless) + (if up && clientless then [p] else [])
              && fromClient == old(fromClient) + (if up && !clientless && clientConnected then [Received(p, true)]
                                                  else [])
              && fromServer == old(fromServer) + (if !up && serverConnected then [Received(p, true)] else [])
    {
      if d == ClientToServer || d == BotToServer {
        if clientless {
          injectedForClientless := injectedForClientless + [p];
        } else if clientConnected {
          fromClient := fromClient + [Received(p, true)];
        }
      } else if serverConnected {
        fromServer := fromServer + [Received(p, true)];
      }
    }

    ghost function Open(): set<Family>
      reads this
    {
      set f: Family | Container(f).Some?
    }

    /** receivePacketsFromServer.  The queue is worked off in order until a successful login response, which ends the
        gateway connection; a packet for a client that is not there throws. */
    method ReceivePacketsFromServer() returns (r: Outcome)
      requires Valid() && AllBracketed(Open(), fromServer)
      modifies this`fromServer, this`connectToAgent, this`characterInfo, this`groupSpawn, this`storage,
               this`guildStorage, this`clientConnected, this`serverConnected, this`toClient, this`toServer,
               this`processed, this`history
      ensures Valid() && old(history) <= history
      ensures Handled(old(fromServer), fromServer)
      ensures var done := old(fromServer)[..|old(fromServer)| - |fromServer|];
              && toServer == old(toServer) + (if clientless && !old(connectToAgent) then Answers(done, patchRequest)
                                              else [])
              && connectToAgent == (old(connectToAgent) || LoginIn(done))
      ensures !old(serverConnected) ==> history == old(history) && r == Done && fromServer == old(fromServer)
      ensures var now, client := history[|old(history)|..], !clientless && old(clientConnected);
              && Met(old(fromServer), now, blockedOpcodes, client)
              && (old(serverConnected) && r == Done ==> fromServer == [] && |now| == |old(fromServer)| && NoLogin(now))
              && (r == LoggedIn ==>
                    && connectToAgent && !serverConnected && (clientless || !clientConnected)
                    && |now| > 0 && LoginSucceeds(now[|now| - 1].packet) && NoLogin(now[..|now| - 1]))
              && (r == Threw ==> !clientless && !clientConnected && serverConnected)
      ensures r == if !old(serverConnected) then Done
                   else if clientless || old(clientConnected) then (if LoginIn(old(fromServer)) then LoggedIn else Done)
                   else if AnyForClient(old(fromServer), blockedOpcodes) then Threw else Done
    {
      hide Collected, Delivered, PassedOn, LoginSucceeds, KindOf, AllBracketed, Met, NoLogin, LoginIn, AnyForClient,
        Answers, Proxy.Valid, Proxy.Container, Proxy.Open, Opened;
      if !serverConnected {
        MetNothing(fromServer, history, blockedOpcodes, !clientless && clientConnected);
        NoAnswers(fromServer, patchRequest);
        return Done;
      }
      r := WorkOff();
    }

    /** The loop of it. */
    method WorkOff() returns (r: Outcome)
      requires Valid() && AllBracketed(Open(), fromServer) && serverConnected
      modifies this`fromServer, this`connectToAgent, this`characterInfo, this`groupSpawn, this`storage,
               this`guildStorage, this`clientConnected, this`serverConnected, this`toClient, this`toServer,
               this`processed, this`history
      ensures Valid() && old(history) <= history
      ensures Handled(old(fromServer), fromServer)
      ensures var done := old(fromServer)[..|old(fromServer)| - |fromServer|];
              && toServer == old(toServer) + (if clientless && !old(connectToAgent) then Answers(done, patchRequest)
                                              else [])
              && connectToAgent == (old(connectToAgent) || LoginIn(done))
      ensures var now, client := history[|old(history)|..], !clientless && old(clientConnected);
              && Met(old(fromServer), now, blockedOpcodes, client)
              && (r == Done ==> fromServer == [] && |now| == |old(fromServer)| && NoLogin(now))
              && (r == LoggedIn ==>
                    && connectToAgent && !serverConnected && (clientless || !clientConnected)
                    && |now| > 0 && LoginSucceeds(now[|now| - 1].packet) && NoLogin(now[..|now| - 1]))
              && (r == Threw ==> !clientless && !clientConnected && serverConnected)
      ensures r == if clientless || old(clientConnected) then (if LoginIn(old(fromServer)) then LoggedIn else Done)
                   else if AnyForClient(old(fromServer), blockedOpcodes) then Threw else Done
    {
      hide Collected, Delivered, PassedOn, LoginSucceeds, KindOf, AllBracketed, Met, NoLogin, LoginIn, AnyForClient,
        Answers, Proxy.Valid, Proxy.Container, Proxy.Open, Opened;
      r := Done;
      MetNothing(fromServer, history, blockedOpcodes, !clientless && clientConnected);
      NoAnswers(fromServer, patchRequest);
      ghost var k := 0;
      while fromServer != []
        invariant r == Done && serverConnected && Valid() && k <= |old(fromServer)|
        invariant fromServer == old(fromServer)[k..]
        invariant AllBracketed(Open(), fromServer) && old(history) <= history && |history| == |old(history)| + k
        invariant Met(old(fromServer), history[|old(history)|..], blockedOpcodes, !clientless && clientConnected)
        invariant NoLogin(history[|old(history)|..])
        invariant LoginIn(fromServer) == LoginIn(old(fromServer))
        invariant clientless || clientConnected ||
                  AnyForClient(fromServer, blockedOpcodes) == AnyForClient(old(fromServer), blockedOpcodes)
        invariant blockedOpcodes == old(blockedOpcodes) && clientless == old(clientless)
        invariant clientConnected == old(clientConnected)
        invariant toServer == old(toServer) + (if clientless && !old(connectToAgent)
                                               then Answers(old(fromServer)[..k], patchRequest) else [])
        invariant connectToAgent == old(connectToAgent) && !LoginIn(old(fromServer)[..k])
        decreases |fromServer|
      {
        ghost var received, items, client := fromServer[0], fromServer, !clientless && clientConnected;
        ghost var before, now := history, history[|old(history)|..];
        QueueStep(items, blockedOpcodes);
        AnswerMore(old(fromServer), k, patchRequest);
        MetMore(old(fromServer), now, blockedOpcodes, client, received);
        r := HandleNext();
        ghost var e := Entry(received.packet, received.injected, received.packet.opcode in blockedOpcodes, client);
        SuffixAppend(before, e, |old(history)|);
        if r != Done {
          return;
        }
        k := k + 1;
      }
      QueueEmpty(blockedOpcodes);
    }

    /** The first packet of the queue. */
    method HandleNext() returns (r: Outcome)
      requires Valid() && serverConnected && fromServer != [] && AllBracketed(Open(), fromServer)
      modifies this`fromServer, this`connectToAgent, this`characterInfo, this`groupSpawn, this`storage,
               this`guildStorage, this`clientConnected, this`serverConnected, this`toClient, this`toServer,
               this`processed, this`history
      ensures Valid() && fromServer == old(fromServer)[1..] && (r == Done ==> AllBracketed(Open(), fromServer))
      ensures var received := old(fromServer)[0];
              var e := Entry(received.packet, received.injected, received.packet.opcode in blockedOpcodes,
                             !clientless && old(clientConnected));
              && (history == old(history) + [e] || (r == Threw && history == old(history)))
              && (r == LoggedIn <==> LoginSucceeds(received.packet) && (clientless || old(clientConnected)))
              && (r == Threw <==>
                    && !clientless && !old(clientConnected)
                    && (LoginSucceeds(received.packet) || e.injected || !e.blocked))
              && toServer == old(toServer) + (if clientless && !old(connectToAgent) && received.packet.opcode == 0x6005
                                              then [patchRequest] else [])
              && connectToAgent == (old(connectToAgent) || LoginSucceeds(received.packet))
      ensures r == LoggedIn ==> connectToAgent && !serverConnected && (clientless || !clientConnected)
      ensures r != LoggedIn ==> serverConnected && clientConnected == old(clientConnected)
    {
      hide Collected, Delivered, PassedOn, LoginSucceeds, KindOf, AllBracketed;
      var received := fromServer[0];
      ghost var items, open := fromServer, Opened(Open(), received.packet);
      BracketStep(this, items);
      fromServer := fromServer[1..];
      r := HandleFromServer(received);
      assert r == Done ==> Open() == open;
    }

    /** One packet from the server. */
    method HandleFromServer(received: Received) returns (r: Outcome)
      requires Valid() && serverConnected && Bracketed(history, received.packet)
      modifies this`connectToAgent, this`characterInfo, this`groupSpawn, this`storage, this`guildStorage,
               this`clientConnected, this`serverConnected, this`toClient, this`toServer, this`processed, this`history
      ensures Valid()
      ensures var e := Entry(received.packet, received.injected, received.packet.opcode in blockedOpcodes,
                             !clientless && old(clientConnected));
              && (history == old(history) + [e] || (r == Threw && history == old(history)))
              && (r == LoggedIn <==> LoginSucceeds(received.packet) && (clientless || old(clientConnected)))
              && (r == Threw <==>
                    && !clientless && !old(clientConnected)
                    && (LoginSucceeds(received.packet) || e.injected || !e.blocked))
      ensures r == LoggedIn ==> connectToAgent && !serverConnected && (clientless || !clientConnected)
      ensures r != LoggedIn ==> serverConnected && clientConnected == old(clientConnected)
      ensures toServer == old(toServer) + if clientless && !old(connectToAgent) && received.packet.opcode == 0x6005
                                          then [patchRequest] else []
      ensures connectToAgent == (old(connectToAgent) || LoginSucceeds(received.packet))
      ensures forall f: Family :: Container(f).Some? <==>
                if r == Threw && history == old(history) then old(Container(f)).Some?
                else
                  || KindOf(received.packet.opcode) == Begin(f)
                  || (KindOf(received.packet.opcode) != End(f) && old(Container(f)).Some?)
    {
      hide Collected, Delivered, PassedOn, KindOf, LoginSucceeds, Proxy.Valid, Proxy.Container, Bracketed;
      LoginOpcode(received.packet);
      if LoginSucceeds(received.packet) {
        r := HandleLogin(received);
      } else {
        r := HandleOther(received);
      }
    }

    /** A successful login response ends the gateway connection; the client gets it with the bot's own address. */
    method HandleLogin(received: Received) returns (r: Outcome)
      requires Valid() && serverConnected && LoginSucceeds(received.packet)
      modifies this`connectToAgent, this`clientConnected, this`serverConnected, this`toClient, this`processed,
               this`history
      ensures Valid() && connectToAgent
      ensures r == if clientless || old(clientConnected) then LoggedIn else Threw
      ensures r == LoggedIn ==>
                && !serverConnected && (clientless || !clientConnected)
                && history == old(history) +
                     [Entry(received.packet, received.injected, received.packet.opcode in blockedOpcodes,
                            !clientless && old(clientConnected))]
      ensures r == Threw ==> serverConnected && clientConnected == old(clientConnected) && history == old(history)
      ensures KindOf(received.packet.opcode) == Whole && forall f: Family :: Container(f) == old(Container(f))
    {
      hide Collected, Delivered, PassedOn;
      var packet := received.packet;
      ghost var e := Entry(packet, received.injected, packet.opcode in blockedOpcodes, !clientless && clientConnected);
      AppendEntry(history, e, rewritten);
      AppendAll(history, e);
      connectToAgent := true;
      if !clientless {
        if !clientConnected {
          return Threw;
        }
        toClient := toClient + [rewritten(packet)];
        clientConnected := false;
      }
      serverConnected := false;
      processed := processed + [packet];
      history := history + [e];
      return LoggedIn;
    }

    /** Any other packet. */
    method HandleOther(received: Received) returns (r: Outcome)
      requires Valid() && serverConnected && Bracketed(history, received.packet) && !LoginSucceeds(received.packet)
      modifies this`characterInfo, this`groupSpawn, this`storage, this`guildStorage, this`toClient, this`toServer,
               this`processed, this`history
      ensures Valid()
      ensures var e := Entry(received.packet, received.injected, received.packet.opcode in blockedOpcodes,
                             !clientless && clientConnected);
              && history == old(history) + [e]
              && r == if !clientless && !clientConnected && (e.injected || !e.blocked) then Threw else Done
      ensures toServer == old(toServer) + if clientless && !connectToAgent && received.packet.opcode == 0x6005
                                          then [patchRequest] else []
      ensures forall f: Family :: Container(f).Some? <==>
                KindOf(received.packet.opcode) == Begin(f)
                  || (KindOf(received.packet.opcode) != End(f) && old(Container(f)).Some?)
    {
      hide Collected, Delivered, PassedOn, KindOf, LoginSucceeds;
      var packet := received.packet;
      var forward := received.injected || packet.opcode !in blockedOpcodes;
      ghost var e := Entry(packet, received.injected, packet.opcode in blockedOpcodes, !clientless && clientConnected);
      AppendEntry(history, e, rewritten);
      if clientless && packet.opcode == STATE_REQUEST && !connectToAgent {
        toServer := toServer + [patchRequest];
      }
      Dispatch(packet, e);
      if !clientless && forward {
        if !clientConnected {
          return Threw;
        }
        toClient := toClient + [packet];
      }
      return Done;
    }

    /** The processor's part of a packet. */
    method Dispatch(packet: Packet, ghost e: Entry)
      requires (forall f: Family :: Container(f) == Collected(history, f)) && processed == Delivered(history)
      requires Bracketed(history, packet) && e.packet == packet
      modifies this`characterInfo, this`groupSpawn, this`storage, this`guildStorage, this`processed, this`history
      ensures history == old(history) + [e] && processed == Delivered(history)
      ensures forall f: Family :: Container(f) == Collected(history, f)
      ensures forall f: Family :: Container(f).Some? <==>
                KindOf(packet.opcode) == Begin(f) || (KindOf(packet.opcode) != End(f) && old(Container(f)).Some?)
    {
      hide Collected, Delivered, KindOf;
      AppendEntry(history, e, rewritten);
      AppendAll(history, e);
      Collect(packet);
      Process(packet);
      history := history + [e];
    }

    /** Begin and Data pieces. */
    method Collect(packet: Packet)
      requires KindOf(packet.opcode).Data? ==> Container(KindOf(packet.opcode).f).Some?
      modifies this`characterInfo, this`groupSpawn, this`storage, this`guildStorage
      ensures forall f: Family :: Container(f) ==
                if KindOf(packet.opcode) == Begin(f) then Some(packet.(opcode := DataOpcode(f)))
                else if KindOf(packet.opcode) == Data(f)
                  then Some(old(Container(f)).value.(data := old(Container(f)).value.data + packet.data))
                else old(Container(f))
    {
      match KindOf(packet.opcode) {
        case Begin(f) =>
          SetContainer(f, Some(packet.(opcode := DataOpcode(f))));
        case Data(f) =>
          var c := Container(f).value;
          SetContainer(f, Some(c.(data := c.data + packet.data)));
        case End(_) =>
        case Whole =>
      }
    }

    /** End pieces and whole packets go to the processor. */
    method Process(packet: Packet)
      requires KindOf(packet.opcode).End? ==> Container(KindOf(packet.opcode).f).Some?
      modifies this`characterInfo, this`groupSpawn, this`storage, this`guildStorage, this`processed
      ensures processed == old(processed) + match KindOf(packet.opcode)
                                            case Begin(_) => []
                                            case Data(_) => []
                                            case End(f) => [old(Container(f)).value]
                                            case Whole => [packet]
      ensures forall f: Family :: Container(f) == if KindOf(packet.opcode) == End(f) then None else old(Container(f))
    {
      match KindOf(packet.opcode) {
        case End(f) =>
          processed := processed + [Container(f).value];
          SetContainer(f, None);
        case Whole =>
          processed := processed + [packet];
        case Begin(_) =>
        case Data(_) =>
      }
    }

    /** receivePacketsFromClient: every packet goes to the processor; to the server go, in order, all but the blocked
        ones that the bot did not inject and the ones that identify the client. */
    method ReceivePacketsFromClient()
      modifies this`injectedForClientless, this`fromClient, this`processedFromClient, this`toServer
      ensures clientless ==>
                && injectedForClientless == [] && fromClient == old(fromClient)
                && processedFromClient == old(processedFromClient) + old(injectedForClientless)
                && toServer == old(toServer) + if serverConnected then old(injectedForClientless) else []
      ensures !clientless ==>
                && injectedForClientless == old(injectedForClientless)
                && (!clientConnected ==>
                      && fromClient == old(fromClient) && processedFromClient == old(processedFromClient)
                      && toServer == old(toServer))
                && (clientConnected ==>
                      && fromClient == [] && processedFromClient == old(processedFromClient) + Packets(old(fromClient))
                      && toServer == old(toServer) +
                         if serverConnected then ToServer(old(fromClient), blockedOpcodes) else [])
    {
      if clientless {
        ProcessInjected();
        return;
      }
      if clientConnected {
        ProcessReceived();
      }
    }

    /** The loop for injected packets, without a client. */
    method ProcessInjected()
      modifies this`injectedForClientless, this`processedFromClient, this`toServer
      ensures injectedForClientless == []
      ensures processedFromClient == old(processedFromClient) + old(injectedForClientless)
      ensures toServer == old(toServer) + if serverConnected then old(injectedForClientless) else []
    {
      while injectedForClientless != []
        invariant processedFromClient + injectedForClientless == old(processedFromClient) + old(injectedForClientless)
        invariant serverConnected ==> toServer + injectedForClientless == old(toServer) + old(injectedForClientless)
        invariant !serverConnected ==> toServer == old(toServer)
        decreases |injectedForClientless|
      {
        var packet := injectedForClientless[0];
        assert injectedForClientless == [packet] + injectedForClientless[1..];
        injectedForClientless := injectedForClientless[1..];
        processedFromClient := processedFromClient + [packet];
        if serverConnected {
          toServer := toServer + [packet];
        }
      }
    }

    /** The loop for packets from the client. */
    method ProcessReceived()
      modifies this`fromClient, this`processedFromClient, this`toServer
      ensures fromClient == [] && processedFromClient == old(processedFromClient) + Packets(old(fromClient))
      ensures toServer == old(toServer) + if serverConnected then ToServer(old(fromClient), blockedOpcodes) else []
    {
      hide Packets, ToServer;
      while fromClient != []
        invariant processedFromClient + Packets(fromClient) == old(processedFromClient) + Packets(old(fromClient))
        invariant serverConnected ==>
                    toServer + ToServer(fromClient, blockedOpcodes) ==
                    old(toServer) + ToServer(old(fromClient), blockedOpcodes)
        invariant !serverConnected ==> toServer == old(toServer)
        decreases |fromClient|
      {
        FirstPacket(fromClient, blockedOpcodes, processedFromClient, toServer);
        var packet, injected := fromClient[0].packet, fromClient[0].injected;
        var forward := true;
        if !injected && packet.opcode in blockedOpcodes {
          forward := false;
        }
        if packet.opcode == MESSAGE_IDENTIFY {
          forward := false;
        }
        fromClient := fromClient[1..];
        processedFromClient := processedFromClient + [packet];
        if forward && serverConnected {
          toServer := toServer + [packet];
        }
      }
      NoPackets(blockedOpcodes, processedFromClient, toServer);
    }
  }

  lemma FirstPacket(items: seq<Received>, blocked: set<Word>, processed: seq<Packet>, sent: seq<Packet>)
    requires items != []
    ensures processed + Packets(items) == processed + [items[0].packet] + Packets(items[1..])
    ensures sent + ToServer(items, blocked) ==
            sent + (if Forwarded(items[0], blocked) then [items[0].packet] else []) + ToServer(items[1..], blocked)
  {
    hide Packets, ToServer;
    PacketsStep(items, blocked);
    Regroup(processed, [items[0].packet], Packets(items[1..]));
    Regroup(sent, if Forwarded(items[0], blocked) then [items[0].packet] else [], ToServer(items[1..], blocked));
  }

  lemma PacketsStep(items: seq<Received>, blocked: set<Word>)
    requires items != []
    ensures Packets(items) == [items[0].packet] + Packets(items[1..])
    ensures ToServer(items, blocked) ==
            (if Forwarded(items[0], blocked) then [items[0].packet] else []) + ToServer(items[1..], blocked)
  {
  }

  lemma Regroup(a: seq<Packet>, b: seq<Packet>, c: seq<Packet>)
    ensures a + (b + c) == a + b + c
  {
  }

  lemma NoPackets(blocked: set<Word>, processed: seq<Packet>, sent: seq<Packet>)
    ensures processed + Packets([]) == processed && sent + ToServer([], blocked) == sent
  {
  }

  function Packets(items: seq<Received>): seq<Packet>
  {
    if |items| == 0 then [] else [items[0].packet] + Packets(items[1..])
  }

  /** What of the client's packets reaches the server. */
  function ToServer(items: seq<Received>, blocked: set<Word>): seq<Packet>
  {
    if |items| == 0 then []
    else (if Forwarded(items[0], blocked) then [items[0].packet] else []) + ToServer(items[1..], blocked)
  }

  predicate Forwarded(item: Received, blocked: set<Word>)
  {
    (item.injected || item.packet.opcode !in blocked) && item.packet.opcode != MESSAGE_IDENTIFY
  }

  /** What is left of the queue is the end of it. */
  predicate Handled(items: seq<Received>, left: seq<Received>)
  {
    |left| <= |items| && left == items[|items| - |left|..]
  }

  /** One patch request for each state request. */
  function Answers(items: seq<Received>, patch: Packet): seq<Packet>
  {
    if |items| == 0 then []
    else Answers(items[..|items| - 1], patch) + if items[|items| - 1].packet.opcode == 0x6005 then [patch] else []
  }

  /** How many there are. */
  lemma {:induction false} AnswerCount(items: seq<Received>, patch: Packet)
    ensures |Answers(items, patch)| == multiset(Opcodes(items))[0x6005]
    ensures forall p | p in Answers(items, patch) :: p == patch
    decreases |items|
  {
    hide Opcodes;
    if |items| > 0 {
      var n := |items| - 1;
      AnswerCount(items[..n], patch);
      OpcodesSplit(items, n);
    } else {
      assert Opcodes(items) == [];
    }
  }

  lemma OpcodesSplit(items: seq<Received>, n: nat)
    requires n + 1 == |items|
    ensures multiset(Opcodes(items)) == multiset(Opcodes(items[..n])) + multiset{items[n].packet.opcode}
  {
    hide Opcodes;
    assert Opcodes(items) == Opcodes(items[..n]) + [items[n].packet.opcode];
  }

  function Opcodes(items: seq<Received>): (r: seq<Word>)
    ensures |r| == |items| && forall i | 0 <= i < |items| :: r[i] == items[i].packet.opcode
  {
    if |items| == 0 then [] else [items[0].packet.opcode] + Opcodes(items[1..])
  }

  lemma AnswerMore(items: seq<Received>, k: nat, patch: Packet)
    requires k < |items|
    ensures Answers(items[..k + 1], patch) ==
            Answers(items[..k], patch) + if items[k].packet.opcode == 0x6005 then [patch] else []
    ensures LoginIn(items[..k + 1]) <==> LoginIn(items[..k]) || LoginSucceeds(items[k].packet)
    ensures items[k..][0] == items[k] && items[k..][1..] == items[k + 1..]
  {
    hide LoginSucceeds;
    assert items[..k + 1][..k] == items[..k];
    LoginLast(items[..k], items[k]);
    assert items[..k + 1] == items[..k] + [items[k]];
  }

  lemma {:induction false} LoginLast(items: seq<Received>, last: Received)
    ensures LoginIn(items + [last]) <==> LoginIn(items) || LoginSucceeds(last.packet)
    decreases |items|
  {
    hide LoginSucceeds;
    if |items| > 0 {
      LoginLast(items[1..], last);
      assert (items + [last])[1..] == items[1..] + [last];
    } else {
      assert (items + [last])[1..] == [] && !LoginIn([]);
    }
  }

  lemma NoAnswers(items: seq<Received>, patch: Packet)
    ensures Answers(items[..0], patch) == [] && !LoginIn(items[..0]) && items[..|items|] == items
  {
  }

  lemma LoginOpcode(p: Packet)
    ensures LoginSucceeds(p) ==> p.opcode == 0xa102
  {
  }

  /** The history records the first of `items`, one entry each, in order. */
  ghost predicate Met(items: seq<Received>, h: seq<Entry>, blocked: set<Word>, client: bool)
  {
    && |h| <= |items|
    && forall i | 0 <= i < |h| ::
         h[i] == Entry(items[i].packet, items[i].injected, items[i].packet.opcode in blocked, client)
  }

  predicate NoLogin(h: seq<Entry>)
  {
    forall i | 0 <= i < |h| :: !LoginSucceeds(h[i].packet)
  }

  /** A successful login response is among the packets. */
  predicate LoginIn(items: seq<Received>)
  {
    |items| > 0 && (LoginSucceeds(items[0].packet) || LoginIn(items[1..]))
  }

  lemma QueueStep(items: seq<Received>, blocked: set<Word>)
    requires |items| > 0
    ensures LoginIn(items) <==> LoginSucceeds(items[0].packet) || LoginIn(items[1..])
    ensures AnyForClient(items, blocked) <==>
              || LoginSucceeds(items[0].packet) || items[0].injected || items[0].packet.opcode !in blocked
              || AnyForClient(items[1..], blocked)
  {
    hide LoginSucceeds;
  }

  lemma QueueEmpty(blocked: set<Word>)
    ensures !LoginIn([]) && !AnyForClient([], blocked)
  {
  }

  /** Among the packets is one that is handed on to a client: the login response, or one that is not blocked. */
  predicate AnyForClient(items: seq<Received>, blocked: set<Word>)
  {
    && |items| > 0
    && (LoginSucceeds(items[0].packet) || items[0].injected || items[0].packet.opcode !in blocked
        || AnyForClient(items[1..], blocked))
  }

  lemma MetNothing(items: seq<Received>, h: seq<Entry>, blocked: set<Word>, client: bool)
    ensures Met(items, h[|h|..], blocked, client) && NoLogin(h[|h|..]) && items[0..] == items
  {
  }

  lemma MetMore(items: seq<Received>, h: seq<Entry>, blocked: set<Word>, client: bool, next: Received)
    requires Met(items, h, blocked, client) && NoLogin(h) && |h| < |items| && next == items[|h|]
    ensures var e := Entry(next.packet, next.injected, next.packet.opcode in blocked, client);
            && Met(items, h + [e], blocked, client) && (NoLogin(h + [e]) <==> !LoginSucceeds(e.packet))
            && (h + [e])[..|h|] == h
  {
    var e := Entry(next.packet, next.injected, next.packet.opcode in blocked, client);
    assert (h + [e])[|h|] == e;
  }

  lemma SuffixAppend(h: seq<Entry>, e: Entry, n: nat)
    requires n <= |h|
    ensures (h + [e])[n..] == h[n..] + [e] && (h <= h + [e])
  {
  }

  lemma AppendAll(h: seq<Entry>, e: Entry)
    ensures forall f: Family :: Collected(h + [e], f) ==
              if KindOf(e.packet.opcode) == Begin(f) then Some(e.packet.(opcode := DataOpcode(f)))
              else if KindOf(e.packet.opcode) == Data(f) then
                (match Collected(h, f) case None => None case Some(c) => Some(c.(data := c.data + e.packet.data)))
              else if KindOf(e.packet.opcode) == End(f) then None
              else Collected(h, f)
  {
    forall f: Family
      ensures Collected(h + [e], f) ==
              if KindOf(e.packet.opcode) == Begin(f) then Some(e.packet.(opcode := DataOpcode(f)))
              else if KindOf(e.packet.opcode) == Data(f) then
                (match Collected(h, f) case None => None case Some(c) => Some(c.(data := c.data + e.packet.data)))
              else if KindOf(e.packet.opcode) == End(f) then None
              else Collected(h, f)
    {
      AppendCollected(h, e, f);
    }
  }

  /** The next packet of a bracketed queue fits what has been collected. */
  lemma BracketStep(p: Proxy, items: seq<Received>)
    requires p.Valid() && |items| > 0 && AllBracketed(p.Open(), items)
    ensures Bracketed(p.history, items[0].packet)
    ensures AllBracketed(Opened(p.Open(), items[0].packet), items[1..])
  {
    hide KindOf, Collected;
  }

  // ---------------------------------------------------------------- packet by packet

  /** What one packet more adds to what the client gets: nothing without a client; a successful login response with the
      bot's address; an injected packet whatever is blocked; any other one unless its opcode is blocked. */
  lemma ClientGets(h: seq<Entry>, e: Entry, rewritten: Packet -> Packet)
    ensures !e.client ==> PassedOn(h + [e], rewritten) == PassedOn(h, rewritten)
    ensures e.client && e.packet.opcode == 0xa102 && |e.packet.data| > 0 && e.packet.data[0] == 1 ==>
              PassedOn(h + [e], rewritten) == PassedOn(h, rewritten) + [rewritten(e.packet)]
    ensures e.client && e.packet.opcode != 0xa102 && e.injected ==>
              PassedOn(h + [e], rewritten) == PassedOn(h, rewritten) + [e.packet]
    ensures e.client && e.packet.opcode != 0xa102 && !e.injected ==>
              PassedOn(h + [e], rewritten) == PassedOn(h, rewritten) + if e.blocked then [] else [e.packet]
  {
    assert (h + [e])[..|h|] == h;
  }

  /** What the first packet from the client adds to what the server gets: identifications nothing, injected packets and
      those that are not blocked themselves. */
  lemma ServerGets(item: Received, items: seq<Received>, blocked: set<Word>)
    ensures item.packet.opcode == 0x2001 ==> ToServer([item] + items, blocked) == ToServer(items, blocked)
    ensures item.packet.opcode != 0x2001 && item.injected ==>
              ToServer([item] + items, blocked) == [item.packet] + ToServer(items, blocked)
    ensures item.packet.opcode != 0x2001 && !item.injected ==>
              ToServer([item] + items, blocked) ==
              (if item.packet.opcode in blocked then [] else [item.packet]) + ToServer(items, blocked)
  {
    assert ([item] + items)[1..] == items;
  }

  /** The opcodes of the four families: the three pieces are delivered as one packet under the second of them. */
  lemma ThreePieces(a: Entry, b: Entry, c: Entry)
    requires (a.packet.opcode, b.packet.opcode, c.packet.opcode) in
               {(0x34a5, 0x3013, 0x34a6), (0x3017, 0x3019, 0x3018), (0x3047, 0x3049, 0x3048),
                (0x3253, 0x3255, 0x3254)}
    ensures Delivered([a, b, c]) ==
            [a.packet.(opcode := b.packet.opcode, data := a.packet.data + b.packet.data)]
  {
    assert [a, b, c][..2] == [a, b] && [a, b][..1] == [a] && [a][..0] == [];
    assert Delivered([a]) == [] && Delivered([a, b]) == [];
    var f := KindOf(a.packet.opcode).f;
    assert Collected([a], f) == Some(a.packet.(opcode := b.packet.opcode));
    assert Collected([a, b], f) ==
      Some(a.packet.(opcode := b.packet.opcode, data := a.packet.data + b.packet.data));
  }
}
