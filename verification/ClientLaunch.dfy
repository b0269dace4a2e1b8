/**
 Starting clients and learning of their deaths, across two processes: the bot (bot/src/clientManagerInterface.cpp) and
 the client manager (client_manager/clientManager.cpp), which talk in strict request and reply.
 */
module ClientLaunch {
  import opened Options

  datatype Request = StartClient(port: int) | Heartbeat
  datatype Response = ClientStarted(id: nat) | HeartbeatAck | ClientsDied(ids: seq<nat>)

  /** ClientOpenRequest; the promise is known by its caller. */
  datatype OpenRequest = OpenRequest(caller: int, port: int)

  /** A promise that has been fulfilled. */
  datatype Fulfilled = Fulfilled(request: OpenRequest, id: nat)

  predicate NoRepeats(s: seq<nat>)
  {
    forall i, j | 0 <= i < j < |s| :: s[i] != s[j]
  }

  // ---------------------------------------------------------------- the client manager

  class ClientManager {
    var clients: map<nat, nat>   // clientIdToProcessInformationMap_: the process of each client
    var nextClientId: nat

    constructor ()
      ensures clients == map[] && nextClientId == 0
    {
      clients, nextClientId := map[], 0;
    }

    ghost predicate Valid()
      reads this
    {
      forall id | id in clients :: id < nextClientId
    }

    /** saveProcessInformation. */
    method SaveProcessInformation(process: nat) returns (id: nat)
      requires Valid()
      modifies this
      ensures Valid() && id == old(nextClientId) && nextClientId == id + 1
      ensures id !in old(clients) && clients == old(clients)[id := process]
    {
      id := nextClientId;
      clients := clients[id := process];
      nextClientId := nextClientId + 1;
    }

    /** reapDeadClients: `exited` are the processes that have exited by now. */
    method ReapDeadClients(exited: set<nat>) returns (dead: seq<nat>)
      requires Valid()
      modifies this`clients
      ensures Valid() && NoRepeats(dead)
      ensures forall id: nat :: id in dead <==> id in old(clients) && old(clients)[id] in exited
      ensures forall id: nat :: id in clients <==> id in old(clients) && id !in dead
      ensures forall id | id in clients :: clients[id] == old(clients)[id]
    {
      dead := [];
      for id := 0 to nextClientId
        invariant NoRepeats(dead) && clients == old(clients)
        invariant forall k: nat :: k in dead <==> k < id && k in clients && clients[k] in exited
      {
        if id in clients && clients[id] in exited {
          Appended(dead, id);
          dead := dead + [id];
        }
      }
      var i := 0;
      while i < |dead|
        invariant i <= |dead|
        invariant forall id: nat :: id in clients <==> id in old(clients) && id !in dead[..i]
        invariant forall id | id in clients :: clients[id] == old(clients)[id]
      {
        clients := clients - {dead[i]};
        i := i + 1;
        assert dead[..i] == dead[..i - 1] + [dead[i - 1]];
      }
      assert dead[..|dead|] == dead;
    }

    /** handleRequest; a new client runs as `process`. */
    method HandleRequest(r: Request, process: nat, exited: set<nat>) returns (response: Response)
      requires Valid()
      modifies this
      ensures Valid()
      ensures r.StartClient? ==>
                && response == ClientStarted(old(nextClientId)) && nextClientId == old(nextClientId) + 1
                && clients == old(clients)[old(nextClientId) := process]
      ensures r.Heartbeat? ==>
                && nextClientId == old(nextClientId) && !response.ClientStarted?
                && var dead := Dead(response);
                   && NoRepeats(dead) && (response.ClientsDied? ==> dead != [])
                   && (forall id: nat :: id in dead <==> id in old(clients) && old(clients)[id] in exited)
                   && (forall id: nat :: id in clients <==> id in old(clients) && id !in dead)
                   && (forall id | id in clients :: clients[id] == old(clients)[id])
    {
      match r {
        case StartClient(_) =>
          var id := SaveProcessInformation(process);
          response := ClientStarted(id);
        case Heartbeat =>
          var dead := ReapDeadClients(exited);
          response := if dead == [] then HeartbeatAck else ClientsDied(dead);
      }
    }

    /** killAllClients, when heartbeats are missed: the clients are forgotten without a report. */
    method KillAllClients()
      modifies this`clients
      ensures clients == map[]
    {
      clients := map[];
    }
  }

  function Dead(r: Response): seq<nat>
  {
    if r.ClientsDied? then r.ids else []
  }

  lemma Appended(s: seq<nat>, x: nat)
    requires NoRepeats(s) && x !in s
    ensures NoRepeats(s + [x])
  {
  }

  // ---------------------------------------------------------------- the bot

  /** Where an iteration of run() stands: waiting on its condition variable, or, with the mutex held, for a reply. */
  datatype Phase = Waiting | AwaitingStart(request: OpenRequest) | AwaitingHeartbeat | Stopped

  class ClientManagerInterface {
    var clientsPendingOpen: seq<OpenRequest>
    var running: bool
    var shouldStop: bool
    var phase: Phase
    var fulfilled: seq<Fulfilled>   // promises that were given a value
    var died: seq<nat>              // ClientDied events

    constructor ()
      ensures clientsPendingOpen == [] && running && !shouldStop && phase == Waiting && fulfilled == [] && died == []
    {
      clientsPendingOpen, running, shouldStop, phase, fulfilled, died := [], true, false, Waiting, [], [];
    }

    /** startClient, up to taking the mutex; false when it throws.  It looks at `running` whatever the thread is
        doing. */
    method StartClient() returns (ok: bool)
      ensures ok == running
    {
      ok := running;
    }

    /** startClient, with the mutex held, up to waiting on the future.  By then the thread may have stopped. */
    method PushRequest(caller: int, port: int)
      requires phase == Waiting || phase == Stopped
      modifies this`clientsPendingOpen
      ensures clientsPendingOpen == old(clientsPendingOpen) + [OpenRequest(caller, port)]
    {
      clientsPendingOpen := clientsPendingOpen + [OpenRequest(caller, port)];
    }

    /** The destructor. */
    method Stop()
      modifies this`shouldStop
      ensures shouldStop
    {
      shouldStop := true;
    }

    /** run(), from waking up to sending: stop first, then a client to open, then a heartbeat. */
    method Wake() returns (sent: Option<Request>)
      requires phase == Waiting
      modifies this`phase, this`running, this`clientsPendingOpen
      ensures if shouldStop then
                && sent == None && phase == Stopped && !running && clientsPendingOpen == old(clientsPendingOpen)
              else if old(clientsPendingOpen) != [] then
                && phase == AwaitingStart(old(clientsPendingOpen)[0])
                && sent == Some(Request.StartClient(phase.request.port))
                && clientsPendingOpen == old(clientsPendingOpen)[1..] && running == old(running)
              else
                && phase == AwaitingHeartbeat && sent == Some(Heartbeat) && clientsPendingOpen == []
                && running == old(running)
    {
      if shouldStop {
        running, phase := false, Stopped;
        return None;
      }
      if clientsPendingOpen != [] {
        var request := clientsPendingOpen[0];
        clientsPendingOpen := clientsPendingOpen[1..];
        phase := AwaitingStart(request);
        return Some(Request.StartClient(request.port));
      }
      phase := AwaitingHeartbeat;
      return Some(Heartbeat);
    }

    /** run(), from the reply on: fulfil the promise, or publish the deaths. */
    method Receive(response: Response)
      requires phase.AwaitingStart? <==> response.ClientStarted?
      requires phase.AwaitingStart? || phase == AwaitingHeartbeat
      modifies this`phase, this`fulfilled, this`died
      ensures phase == Waiting
      ensures fulfilled == old(fulfilled) +
              if response.ClientStarted? then [Fulfilled(old(phase).request, response.id)] else []
      ensures died == old(died) + Dead(response)
    {
      match response {
        case ClientStarted(id) =>
          fulfilled := fulfilled + [Fulfilled(phase.request, id)];
        case HeartbeatAck =>
        case ClientsDied(ids) =>
          ghost var was := died;
          for i := 0 to |ids|
            invariant died == was + ids[..i] && fulfilled == old(fulfilled)
          {
            died := died + [ids[i]];
            assert ids[..i + 1] == ids[..i] + [ids[i]];
          }
          assert ids[..|ids|] == ids;
      }
      phase := Waiting;
    }
  }

  // ---------------------------------------------------------------- both together

  /** The two processes, the message between them, and the clients' processes. */
  class System {
    const bot: ClientManagerInterface
    const manager: ClientManager
    var request: Option<Request>
    var response: Option<Response>
    var exited: set<nat>
    ghost var asking: multiset<OpenRequest>   // calls of startClient that are about to take the mutex
    ghost var calls: seq<OpenRequest>   // those that have had it, in order
    ghost var processes: seq<nat>       // the process of each client ever started
    ghost var killed: set<nat>          // the clients that the manager killed

    constructor ()
      ensures Valid() && asking == multiset{} && calls == [] && fresh(bot) && fresh(manager)
    {
      bot := new ClientManagerInterface();
      manager := new ClientManager();
      request, response, exited := None, None, {};
      asking, calls, processes, killed := multiset{}, [], [], {};
    }

    /** The deaths that the bot has published or is about to. */
    ghost function Reported(): seq<nat>
      reads this, bot
    {
      bot.died + if response.Some? then Dead(response.value) else []
    }

    /** One exchange at a time. */
    ghost predicate InStep()
      reads this, bot
    {
      match bot.phase
      case Waiting => request.None? && response.None?
      case Stopped => request.None? && response.None?
      case AwaitingStart(r) =>
        || (request == Some(Request.StartClient(r.port)) && response.None?)
        || (request.None? && response == Some(ClientStarted(|bot.fulfilled|)))
      case AwaitingHeartbeat =>
        || (request == Some(Heartbeat) && response.None?)
        || (request.None? && response.Some? && !response.value.ClientStarted?)
    }

    /** The calls that have not been fulfilled, in order. */
    ghost function Open(): seq<OpenRequest>
      reads bot
    {
      (if bot.phase.AwaitingStart? then [bot.phase.request] else []) + bot.clientsPendingOpen
    }

    /** Starts are served in the order of the calls: the k-th call is fulfilled with the id k, and the k-th client was
        started for it. */
    ghost predicate Served()
      reads this, bot, manager
    {
      var f := |bot.fulfilled|;
      && f <= |calls| && calls[f..] == Open()
      && (forall k | 0 <= k < f :: bot.fulfilled[k] == Fulfilled(calls[k], k))
      && manager.nextClientId == |processes| == f + if response.Some? && response.value.ClientStarted? then 1 else 0
    }

    /** Every client that was ever started is known to the manager, killed, or reported dead; only one of them, and
        reported once, after its caller has its id, and with its process gone. */
    ghost predicate Accounted()
      reads this, bot, manager
    {
      var dead := Reported();
      && NoRepeats(dead)
      && (forall id: nat | id in manager.clients ::
            id < |processes| && manager.clients[id] == processes[id] && id !in killed && id !in dead)
      && (forall id: nat | id in dead ::
            id < |bot.fulfilled| && id < |processes| && processes[id] in exited && id !in killed)
      && (forall id: nat | id in killed :: id < |processes|)
      && (forall id: nat | id < |processes| :: id in manager.clients || id in killed || id in dead)
    }

    ghost predicate Valid()
      reads this, bot, manager
    {
      InStep() && Served() && Accounted()
    }

    /** A caller asks for a client. */
    method StepStartClient(caller: int, port: int) returns (ok: bool)
      requires Valid()
      modifies this`asking
      ensures Valid() && ok == bot.running
      ensures asking == old(asking) + if ok then multiset{OpenRequest(caller, port)} else multiset{}
    {
      ok := bot.StartClient();
      if ok {
        asking := asking + multiset{OpenRequest(caller, port)};
      }
    }

    /** A caller that has asked gets the mutex. */
    method StepPush(caller: int, port: int)
      requires Valid() && OpenRequest(caller, port) in asking && (bot.phase == Waiting || bot.phase == Stopped)
      modifies this`asking, this`calls, bot
      ensures Valid() && asking == old(asking) - multiset{OpenRequest(caller, port)}
      ensures calls == old(calls) + [OpenRequest(caller, port)]
    {
      bot.PushRequest(caller, port);
      asking := asking - multiset{OpenRequest(caller, port)};
      calls := calls + [OpenRequest(caller, port)];
    }

    /** The bot's thread wakes up. */
    method StepWake()
      requires Valid() && bot.phase == Waiting
      modifies this`request, bot
      ensures Valid() && calls == old(calls) && bot.fulfilled == old(bot.fulfilled) && bot.died == old(bot.died)
    {
      request := bot.Wake();
    }

    /** The manager handles the message. */
    method StepHandle(process: nat)
      requires Valid() && request.Some?
      modifies this`request, this`response, this`processes, manager
      ensures Valid() && calls == old(calls)
      ensures old(request) == Some(Heartbeat) ==>
                && processes == old(processes)
                && forall id: nat | id < |processes| && processes[id] in exited :: id in Reported() <==> id !in killed
    {
      assert Reported() == bot.died;
      var r := request.value;
      var answer := manager.HandleRequest(r, process, exited);
      request, response := None, Some(answer);
      if r.StartClient? {
        processes := processes + [process];
      } else {
        Joined(bot.died, Dead(answer));
      }
    }

    /** The bot receives the reply. */
    method StepReceive()
      requires Valid() && response.Some?
      modifies this`response, bot
      ensures Valid() && calls == old(calls) && Reported() == old(Reported()) && bot.died == Reported()
    {
      bot.Receive(response.value);
      response := None;
    }

    /** The bot is told to stop. */
    method StepStop()
      requires Valid()
      modifies bot
      ensures Valid() && bot.shouldStop && calls == old(calls) && Reported() == old(Reported())
    {
      bot.Stop();
    }

    /** A client's process exits. */
    method StepExit(process: nat)
      requires Valid()
      modifies this`exited
      ensures Valid() && exited == old(exited) + {process}
    {
      exited := exited + {process};
    }

    /** The manager has heard nothing for too long. */
    method StepTimeout()
      requires Valid() && request.None?
      modifies this`killed, manager
      ensures Valid() && manager.clients == map[]
    {
      killed := killed + manager.clients.Keys;
      manager.KillAllClients();
    }
  }

  lemma Joined(a: seq<nat>, b: seq<nat>)
    requires NoRepeats(a) && NoRepeats(b) && forall x | x in b :: x !in a
    ensures NoRepeats(a + b)
  {
    assert forall i | 0 <= i < |b| :: b[i] in b;
  }

  /** In every reachable state: promises are fulfilled in the order of the calls, no two with the same id; a death is
      published once, and only for a client whose caller has its id. */
  lemma WhatTheBotSees(s: System)
    requires s.Valid()
    ensures forall i, j | 0 <= i < j < |s.bot.fulfilled| :: s.bot.fulfilled[i].id != s.bot.fulfilled[j].id
    ensures forall i | 0 <= i < |s.bot.fulfilled| :: i < |s.calls| && s.bot.fulfilled[i].request == s.calls[i]
    ensures NoRepeats(s.bot.died)
    ensures forall id: nat | id in s.bot.died :: id < |s.bot.fulfilled| && s.bot.fulfilled[id].id == id
  {
    var rest := if s.response.Some? then Dead(s.response.value) else [];
    assert s.Reported() == s.bot.died + rest;
    forall i, j | 0 <= i < j < |s.bot.died|
      ensures s.bot.died[i] != s.bot.died[j]
    {
      assert s.Reported()[i] == s.bot.died[i] && s.Reported()[j] == s.bot.died[j];
    }
    forall id: nat | id in s.bot.died
      ensures id in s.Reported()
    {
    }
  }

  /** Of the clients whose process has exited, exactly those that the manager killed for missed heartbeats, and those
      that it still has to find out about, have not been reported dead. */
  lemma KilledIsSilent(s: System, id: nat)
    requires s.Valid() && id < |s.processes| && s.processes[id] in s.exited
    ensures id !in s.Reported() <==> id in s.killed || id in s.manager.clients
    ensures id in s.killed ==> id !in s.bot.died
  {
    var rest := if s.response.Some? then Dead(s.response.value) else [];
    assert s.Reported() == s.bot.died + rest;
  }

  /** A client is started, heartbeats are missed, its process exits, and a heartbeat comes: nobody is told. */
  method KilledUnreported(port: int, process: nat) returns (started: Response, answer: Response)
    ensures started == ClientStarted(0) && answer == HeartbeatAck
  {
    var manager := new ClientManager();
    started := manager.HandleRequest(Request.StartClient(port), process, {});
    manager.KillAllClients();
    answer := manager.HandleRequest(Heartbeat, process, {process});
    EmptyOrIn(Dead(answer));
  }

  lemma EmptyOrIn(s: seq<nat>)
    ensures s == [] || s[0] in s
  {
  }
}
