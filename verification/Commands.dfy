/**
 The command queues of the skill engine (bot/src/packetProcessor.cpp, 1329-1411, 1557-1650 and 1881-1894, and
 bot/src/state/skillEngine.cpp, 61-65): which of the commands that the client asked for are pending, accepted, executed,
 skipped.
 */
module Commands {
  import opened Options

  datatype CommandType = Execute | Cancel
  datatype ActionType = Attack | Pickup | Trace | Cast | Dispel
  datatype ActionState = Queued | End | Error | OtherState

  /** ActionCommand; the target plays no part here. */
  datatype Command = Command(commandType: CommandType, actionType: ActionType, refSkillId: nat)

  /** AcceptedCommandAndWasExecuted. */
  datatype Accepted = Accepted(command: Command, wasExecuted: bool)

  predicate IsCast(c: Command) { c.commandType == Execute && c.actionType == Cast }

  /** What has become of a request that is no longer pending. */
  datatype Fate = InQueue | Failed | Cancelled | Ended(skipped: bool) | Discarded | Began | Interrupted | Forgotten

  /** The requests that `q` holds are those at the places `at` of the history, in order and each once. */
  ghost predicate Placed(history: seq<Command>, q: seq<Accepted>, at: seq<nat>, size: nat)
  {
    && |at| == |q| && size <= |history|
    && (forall i | 0 <= i < |at| :: at[i] < size && q[i].command == history[at[i]])
    && (forall i, j | 0 <= i < j < |at| :: at[i] < at[j])
  }

  /** Each of the requests that are no longer pending has one fate, and is in the queue or not accordingly. */
  ghost predicate Accounted(fates: seq<Fate>, at: seq<nat>)
  {
    forall j: nat | j < |fates| :: fates[j] == InQueue <==> j in at
  }

  /** The events published for fate `f`, one for each request that met it. */
  ghost predicate Reported(history: seq<Command>, fates: seq<Fate>, f: Fate, events: seq<Command>, at: seq<nat>)
  {
    && |at| == |events| && |fates| <= |history|
    && (forall i | 0 <= i < |at| :: at[i] < |fates| && events[i] == history[at[i]] && fates[at[i]] == f)
    && (forall j: nat | j < |fates| && fates[j] == f :: j in at)
    && (forall i, j | 0 <= i < j < |at| :: at[i] != at[j])
  }

  // ---------------------------------------------------------------- changes to the places

  /** A request joins at the back. */
  lemma PlacedAdd(history: seq<Command>, q: seq<Accepted>, at: seq<nat>, size: nat)
    requires Placed(history, q, at, size) && size < |history|
    ensures Placed(history, q + [Accepted(history[size], false)], at + [size], size + 1)
  {
  }

  /** The request at `k` leaves. */
  lemma PlacedRemove(history: seq<Command>, q: seq<Accepted>, at: seq<nat>, size: nat, k: nat)
    requires Placed(history, q, at, size) && k < |q|
    ensures Placed(history, q[..k] + q[k + 1..], at[..k] + at[k + 1..], size)
    ensures forall j: nat :: j in at[..k] + at[k + 1..] <==> j in at && j != at[k]
  {
    var less := at[..k] + at[k + 1..];
    forall j: nat
      ensures j in less <==> j in at && j != at[k]
    {
      if j in at && j != at[k] {
        var i :| 0 <= i < |at| && at[i] == j;
        assert less[if i < k then i else i - 1] == j;
      }
    }
  }

  /** The requests before `k` leave. */
  lemma PlacedDrop(history: seq<Command>, q: seq<Accepted>, at: seq<nat>, size: nat, k: nat)
    requires Placed(history, q, at, size) && k <= |q|
    ensures Placed(history, q[k..], at[k..], size)
    ensures forall j: nat :: j in at[k..] <==> j in at && j !in at[..k]
  {
    forall j: nat
      ensures j in at[k..] <==> j in at && j !in at[..k]
    {
      if j in at && j !in at[..k] {
        var i :| 0 <= i < |at| && at[i] == j;
        assert i >= k && at[k..][i - k] == j;
      }
    }
  }

  /** Marking a request does not move it. */
  lemma PlacedMark(history: seq<Command>, q: seq<Accepted>, at: seq<nat>, size: nat, k: nat)
    requires Placed(history, q, at, size) && k < |q|
    ensures Placed(history, q[k := q[k].(wasExecuted := true)], at, size)
  {
  }

  lemma PlacedSize(history: seq<Command>, q: seq<Accepted>, at: seq<nat>, size: nat)
    requires Placed(history, q, at, size)
    ensures |at| == |q|
  {
  }

  lemma PlacedMore(history: seq<Command>, q: seq<Accepted>, at: seq<nat>, size: nat, c: Command)
    requires Placed(history, q, at, size)
    ensures Placed(history + [c], q, at, size)
  {
  }

  /** A request that is reported meets its fate now. */
  lemma ReportedAdd(history: seq<Command>, fates: seq<Fate>, f: Fate, events: seq<Command>, at: seq<nat>, j: nat)
    requires Reported(history, fates, f, events, at) && j < |fates| && fates[j] != f
    ensures Reported(history, fates[j := f], f, events + [history[j]], at + [j])
  {
    var more := at + [j];
    forall k: nat | k < |fates| && fates[j := f][k] == f
      ensures k in more
    {
      if k != j {
        assert k in at;
      } else {
        assert more[|at|] == j;
      }
    }
  }

  /** Other fates do not matter to the report of `f`. */
  lemma ReportedOther(history: seq<Command>, fates: seq<Fate>, f: Fate, events: seq<Command>, at: seq<nat>, j: nat,
                      g: Fate)
    requires Reported(history, fates, f, events, at) && j < |fates| && fates[j] != f && g != f
    ensures Reported(history, fates[j := g], f, events, at)
  {
  }

  lemma ReportedGrow(history: seq<Command>, fates: seq<Fate>, f: Fate, events: seq<Command>, at: seq<nat>, g: Fate)
    requires Reported(history, fates, f, events, at) && |fates| < |history| && g != f
    ensures Reported(history, fates + [g], f, events, at)
  {
  }

  lemma ReportedGrowWith(history: seq<Command>, fates: seq<Fate>, f: Fate, events: seq<Command>, at: seq<nat>)
    requires Reported(history, fates, f, events, at) && |fates| < |history|
    ensures Reported(history, fates + [f], f, events + [history[|fates|]], at + [|fates|])
  {
    var more, longer := at + [|fates|], fates + [f];
    forall k: nat | k < |longer| && longer[k] == f
      ensures k in more
    {
      if k == |fates| {
        assert more[|at|] == k;
      } else {
        assert k in at;
      }
    }
  }

  lemma ReportedMore(history: seq<Command>, fates: seq<Fate>, f: Fate, events: seq<Command>, at: seq<nat>, c: Command)
    requires Reported(history, fates, f, events, at)
    ensures Reported(history + [c], fates, f, events, at)
  {
  }

  // ---------------------------------------------------------------- the code

  /** What the skill data say: the first piece of a chain, whether a skill is a common attack, its activity, and whether
      its end will be announced. */
  datatype SkillData = SkillData(root: nat -> nat, common: nat -> bool, basicActivity: nat -> nat,
                                 expectSkillEnd: nat -> bool)

  /** Whether the accepted command is the one that a skill began for. */
  predicate Matches(d: SkillData, skill: nat, c: Command)
  {
    || (c.actionType == Cast && c.refSkillId == d.root(skill))
    || (c.actionType == Attack && d.common(skill))
  }

  class SkillEngine {
    const skills: SkillData
    var pendingCommandQueue: seq<Command>
    var acceptedCommandQueue: seq<Accepted>
    var skillCastIdMap: map<nat, nat>    // the skill of each cast whose end is awaited
    var commandErrors: seq<Command>      // CommandError events
    var commandsSkipped: seq<Command>    // CommandSkipped events
    ghost var history: seq<Command>      // every command that was requested
    ghost var fates: seq<Fate>           // of the requests that are no longer pending
    ghost var acceptedAt: seq<nat>
    ghost var errorsAt: seq<nat>
    ghost var skippedAt: seq<nat>

    constructor (skills: SkillData)
      ensures Valid() && history == [] && this.skills == skills
    {
      this.skills := skills;
      pendingCommandQueue, acceptedCommandQueue, commandErrors, commandsSkipped := [], [], [], [];
      skillCastIdMap := map[];
      history, fates, acceptedAt, errorsAt, skippedAt := [], [], [], [], [];
    }

    /** Over every run: the pending commands are the latest requests; the accepted ones come before them, in the order
        of the requests, each once; every other request has met one fate; only the first accepted command can have been
        executed; and there is one CommandError for each request that failed, one CommandSkipped for each that ended
        skipped. */
    ghost predicate Valid()
      reads this
    {
      && |fates| + |pendingCommandQueue| == |history| && pendingCommandQueue == history[|fates|..]
      && Placed(history, acceptedCommandQueue, acceptedAt, |fates|) && Accounted(fates, acceptedAt)
      && (forall i | 0 < i < |acceptedCommandQueue| :: !acceptedCommandQueue[i].wasExecuted)
      && Reported(history, fates, Failed, commandErrors, errorsAt)
      && Reported(history, fates, Ended(true), commandsSkipped, skippedAt)
    }

    /** clientAgentActionCommandRequestReceived. */
    method CommandRequested(c: Command)
      requires Valid()
      modifies this`pendingCommandQueue, this`history
      ensures Valid() && history == old(history) + [c] && pendingCommandQueue == old(pendingCommandQueue) + [c]
    {
      hide Placed, Reported, Accounted;
      PlacedMore(history, acceptedCommandQueue, acceptedAt, |fates|, c);
      ReportedMore(history, fates, Failed, commandErrors, errorsAt, c);
      ReportedMore(history, fates, Ended(true), commandsSkipped, skippedAt, c);
      pendingCommandQueue := pendingCommandQueue + [c];
      history := history + [c];
    }

    /** serverAgentActionCommandResponseReceived; false when it throws. */
    method CommandResponse(state: ActionState) returns (ok: bool)
      requires Valid()
      modifies this`pendingCommandQueue, this`acceptedCommandQueue, this`commandErrors, this`commandsSkipped,
               this`fates, this`acceptedAt, this`errorsAt, this`skippedAt
      ensures Valid()
      ensures ok <==> state == End || (state != OtherState && old(pendingCommandQueue) != [])
      ensures !ok ==> fates == old(fates) && acceptedCommandQueue == old(acceptedCommandQueue)
      ensures ok && state == Queued ==> fates == old(fates) + [InQueue]
      ensures ok && state == Error ==>
                fates == old(fates) + [Failed] && acceptedCommandQueue == old(acceptedCommandQueue)
      ensures state == End && old(acceptedCommandQueue) != [] ==>
                var front := old(acceptedCommandQueue)[0]; var skipped := IsCast(front.command) && !front.wasExecuted;
                && acceptedCommandQueue == old(acceptedCommandQueue)[1..]
                && fates == old(fates)[old(acceptedAt)[0] := Ended(skipped)]
                && commandsSkipped == old(commandsSkipped) + if skipped then [front.command] else []
      ensures state == End && old(acceptedCommandQueue) == [] ==>
                var pops := old(pendingCommandQueue) != [] && old(pendingCommandQueue)[0].commandType == Cancel;
                fates == (if pops then old(fates) + [Cancelled] else old(fates)) && acceptedCommandQueue == []
      ensures state != End ==> commandsSkipped == old(commandsSkipped)
    {
      ok := true;
      match state {
        case Queued =>
          if pendingCommandQueue == [] {
            return false;
          }
          Accept();
        case Error =>
          if pendingCommandQueue == [] {
            return false;
          }
          Fail();
        case End =>
          if acceptedCommandQueue == [] {
            if pendingCommandQueue != [] && pendingCommandQueue[0].commandType == Cancel {
              PopCancel();
            }
          } else {
            EndFirst();
          }
        case OtherState =>
          return false;
      }
    }

    /** The front pending command is queued. */
    method Accept()
      requires Valid() && pendingCommandQueue != []
      modifies this`pendingCommandQueue, this`acceptedCommandQueue, this`fates, this`acceptedAt
      ensures Valid() && fates == old(fates) + [InQueue]
      ensures acceptedCommandQueue == old(acceptedCommandQueue) + [Accepted(old(pendingCommandQueue)[0], false)]
      ensures pendingCommandQueue == old(pendingCommandQueue)[1..]
    {
      hide Placed, Reported;
      ghost var n := |fates|;
      PlacedAdd(history, acceptedCommandQueue, acceptedAt, n);
      ReportedGrow(history, fates, Failed, commandErrors, errorsAt, InQueue);
      ReportedGrow(history, fates, Ended(true), commandsSkipped, skippedAt, InQueue);
      AccountedGrow(history, acceptedCommandQueue, fates, acceptedAt, InQueue);
      acceptedCommandQueue := acceptedCommandQueue + [Accepted(pendingCommandQueue[0], false)];
      pendingCommandQueue := pendingCommandQueue[1..];
      fates, acceptedAt := fates + [InQueue], acceptedAt + [n];
    }

    /** The front pending command fails. */
    method Fail()
      requires Valid() && pendingCommandQueue != []
      modifies this`pendingCommandQueue, this`commandErrors, this`fates, this`errorsAt
      ensures Valid() && fates == old(fates) + [Failed]
      ensures commandErrors == old(commandErrors) + [old(pendingCommandQueue)[0]]
      ensures pendingCommandQueue == old(pendingCommandQueue)[1..]
    {
      hide Placed, Reported;
      ghost var n := |fates|;
      PlacedWider(history, acceptedCommandQueue, acceptedAt, n);
      ReportedGrowWith(history, fates, Failed, commandErrors, errorsAt);
      ReportedGrow(history, fates, Ended(true), commandsSkipped, skippedAt, Failed);
      AccountedGrow(history, acceptedCommandQueue, fates, acceptedAt, Failed);
      commandErrors := commandErrors + [pendingCommandQueue[0]];
      pendingCommandQueue := pendingCommandQueue[1..];
      fates, errorsAt := fates + [Failed], errorsAt + [n];
    }

    /** An end without an accepted command pops a pending cancel. */
    method PopCancel()
      requires Valid() && pendingCommandQueue != []
      modifies this`pendingCommandQueue, this`fates
      ensures Valid() && fates == old(fates) + [Cancelled] && pendingCommandQueue == old(pendingCommandQueue)[1..]
    {
      hide Placed, Reported;
      PlacedWider(history, acceptedCommandQueue, acceptedAt, |fates|);
      ReportedGrow(history, fates, Failed, commandErrors, errorsAt, Cancelled);
      ReportedGrow(history, fates, Ended(true), commandsSkipped, skippedAt, Cancelled);
      AccountedGrow(history, acceptedCommandQueue, fates, acceptedAt, Cancelled);
      pendingCommandQueue := pendingCommandQueue[1..];
      fates := fates + [Cancelled];
    }

    /** An end is taken to be that of the first accepted command. */
    method EndFirst()
      requires Valid() && acceptedCommandQueue != []
      modifies this`acceptedCommandQueue, this`commandsSkipped, this`fates, this`acceptedAt, this`skippedAt
      ensures Valid()
      ensures var front := old(acceptedCommandQueue)[0]; var skipped := IsCast(front.command) && !front.wasExecuted;
              && acceptedCommandQueue == old(acceptedCommandQueue)[1..]
              && fates == old(fates)[old(acceptedAt)[0] := Ended(skipped)]
              && commandsSkipped == old(commandsSkipped) + if skipped then [front.command] else []
    {
      hide Reported;
      var first := acceptedCommandQueue[0];
      ghost var skipped := IsCast(first.command) && !first.wasExecuted;
      ghost var k := acceptedAt[0];
      assert k in acceptedAt;
      ReportedOther(history, fates, Failed, commandErrors, errorsAt, k, Ended(skipped));
      if skipped {
        ReportedAdd(history, fates, Ended(true), commandsSkipped, skippedAt, k);
      } else {
        ReportedOther(history, fates, Ended(true), commandsSkipped, skippedAt, k, Ended(false));
      }
      PlacedRemove(history, acceptedCommandQueue, acceptedAt, |fates|, 0);
      if first.command.commandType == Execute && first.command.actionType == Cast && !first.wasExecuted {
        commandsSkipped := commandsSkipped + [first.command];
        skippedAt := skippedAt + [k];
      }
      acceptedCommandQueue := acceptedCommandQueue[..0] + acceptedCommandQueue[1..];
      fates, acceptedAt := fates[k := Ended(skipped)], acceptedAt[..0] + acceptedAt[1..];
    }

    /** handleKnockedBackOrKnockedDown: no accepted command will execute and no cast will end; the pending ones stay. */
    method KnockedBackOrDown()
      requires Valid()
      modifies this`acceptedCommandQueue, this`skillCastIdMap, this`fates, this`acceptedAt
      ensures Valid() && acceptedCommandQueue == [] && pendingCommandQueue == old(pendingCommandQueue)
      ensures skillCastIdMap == map[]
      ensures |fates| == |old(fates)|
      ensures forall j | 0 <= j < |fates| :: fates[j] == if old(fates)[j] == InQueue then Interrupted else old(fates)[j]
    {
      hide Placed, Reported, Accounted;
      ghost var n := |acceptedCommandQueue|;
      fates := Leave(n, Interrupted);
      assert acceptedCommandQueue[n..] == [];
      acceptedCommandQueue := [];
      acceptedAt := acceptedAt[n..];
      if skillCastIdMap != map[] {
        skillCastIdMap := map[];
      }
    }

    /** SkillEngine::reset: everything that is pending, accepted or being cast is forgotten. */
    method Reset()
      requires Valid()
      modifies this`pendingCommandQueue, this`acceptedCommandQueue, this`skillCastIdMap, this`fates, this`acceptedAt
      ensures Valid() && pendingCommandQueue == [] && acceptedCommandQueue == [] && skillCastIdMap == map[]
      ensures |fates| == |history|
      ensures forall j | 0 <= j < |fates| ::
                fates[j] == if j < |old(fates)| && old(fates)[j] != InQueue then old(fates)[j] else Forgotten
    {
      hide Placed, Reported, Accounted;
      skillCastIdMap := map[];
      fates := ForgetPending();
      pendingCommandQueue := [];
      ghost var n := |acceptedCommandQueue|;
      fates := Leave(n, Forgotten);
      assert acceptedCommandQueue[n..] == [];
      acceptedCommandQueue := [];
      acceptedAt := acceptedAt[n..];
    }

    /** The records of the requests when all that are pending go. */
    ghost method ForgetPending() returns (r: seq<Fate>)
      requires Valid()
      ensures |r| == |history| >= |fates| && r[..|fates|] == fates && forall j | |fates| <= j < |r| :: r[j] == Forgotten
      ensures Placed(history, acceptedCommandQueue, acceptedAt, |r|) && Accounted(r, acceptedAt)
      ensures Reported(history, r, Failed, commandErrors, errorsAt)
      ensures Reported(history, r, Ended(true), commandsSkipped, skippedAt)
    {
      hide Placed, Reported, Accounted;
      r := fates;
      while |r| < |history|
        invariant |fates| <= |r| <= |history| && r[..|fates|] == fates && forall j | |fates| <= j < |r| ::
                    r[j] == Forgotten
        invariant Placed(history, acceptedCommandQueue, acceptedAt, |r|) && Accounted(r, acceptedAt)
        invariant Reported(history, r, Failed, commandErrors, errorsAt)
        invariant Reported(history, r, Ended(true), commandsSkipped, skippedAt)
      {
        AccountedGrow(history, acceptedCommandQueue, r, acceptedAt, Forgotten);
        PlacedWider(history, acceptedCommandQueue, acceptedAt, |r|);
        ReportedGrow(history, r, Failed, commandErrors, errorsAt, Forgotten);
        ReportedGrow(history, r, Ended(true), commandsSkipped, skippedAt, Forgotten);
        r := r + [Forgotten];
      }
    }

    /** The records of the first `k` accepted commands when they leave the queue without an event. */
    ghost method Leave(k: nat, f: Fate) returns (r: seq<Fate>)
      requires Valid() && k <= |acceptedCommandQueue| && f != InQueue && f != Failed && f != Ended(true)
      ensures |r| == |fates| && k <= |acceptedCommandQueue| && |acceptedAt| == |acceptedCommandQueue|
      ensures Placed(history, acceptedCommandQueue[k..], acceptedAt[k..], |fates|) && Accounted(r, acceptedAt[k..])
      ensures Reported(history, r, Failed, commandErrors, errorsAt)
      ensures Reported(history, r, Ended(true), commandsSkipped, skippedAt)
      ensures forall j: nat | j < |r| :: r[j] == if j in acceptedAt[..k] then f else fates[j]
      ensures k == |acceptedAt| ==> forall j | 0 <= j < |r| :: r[j] == if fates[j] == InQueue then f else fates[j]
    {
      hide Reported;
      r := fates;
      var i := 0;
      while i < k
        invariant i <= k && |r| == |fates|
        invariant Reported(history, r, Failed, commandErrors, errorsAt)
        invariant Reported(history, r, Ended(true), commandsSkipped, skippedAt)
        invariant forall j: nat | j < |r| :: r[j] == if j in acceptedAt[..i] then f else fates[j]
      {
        var j := acceptedAt[i];
        assert j in acceptedAt && fates[j] == InQueue;
        ReportedOther(history, r, Failed, commandErrors, errorsAt, j, f);
        ReportedOther(history, r, Ended(true), commandsSkipped, skippedAt, j, f);
        r := r[j := f];
        i := i + 1;
        assert acceptedAt[..i] == acceptedAt[..i - 1] + [j];
      }
      PlacedDrop(history, acceptedCommandQueue, acceptedAt, |fates|, k);
      assert forall j: nat | j in acceptedAt[..k] :: j in acceptedAt;
      assert acceptedAt[..|acceptedAt|] == acceptedAt;
    }

    /** The part of serverAgentSkillBeginReceived about the queue and the casts: `skill` began, as the cast `castId`. */
    method SkillBegin(skill: nat, castId: nat)
      requires Valid()
      modifies this`acceptedCommandQueue, this`skillCastIdMap, this`fates, this`acceptedAt
      ensures Valid() && |fates| == |old(fates)| && |old(acceptedAt)| == |old(acceptedCommandQueue)|
      ensures var q := old(acceptedCommandQueue); var at := old(acceptedAt); var k := LastMatch(skills, skill, q);
              if k.None? then acceptedCommandQueue == q && fates == old(fates)
              else if skills.basicActivity(skill) == 1 then
                && acceptedCommandQueue == q[..k.value] + q[k.value + 1..]
                && forall j: nat | j < |fates| :: fates[j] == if j == at[k.value] then Began else old(fates)[j]
              else
                && acceptedCommandQueue == [q[k.value].(wasExecuted := true)] + q[k.value + 1..]
                && forall j: nat | j < |fates| :: fates[j] == if j in at[..k.value] then Discarded else old(fates)[j]
      ensures skillCastIdMap == if skills.expectSkillEnd(skill) && castId !in old(skillCastIdMap)
                                then old(skillCastIdMap)[castId := skill] else old(skillCastIdMap)
    {
      BeginInQueue(skill);
      if skills.expectSkillEnd(skill) && castId !in skillCastIdMap {
        skillCastIdMap := skillCastIdMap[castId := skill];
      }
    }

    /** SkillBegin, up to the casts. */
    method BeginInQueue(skill: nat)
      requires Valid()
      modifies this`acceptedCommandQueue, this`fates, this`acceptedAt
      ensures Valid() && |fates| == |old(fates)| && |old(acceptedAt)| == |old(acceptedCommandQueue)|
      ensures var q := old(acceptedCommandQueue); var at := old(acceptedAt); var k := LastMatch(skills, skill, q);
              if k.None? then acceptedCommandQueue == q && fates == old(fates)
              else if skills.basicActivity(skill) == 1 then
                && acceptedCommandQueue == q[..k.value] + q[k.value + 1..]
                && forall j: nat | j < |fates| :: fates[j] == if j == at[k.value] then Began else old(fates)[j]
              else
                && acceptedCommandQueue == [q[k.value].(wasExecuted := true)] + q[k.value + 1..]
                && forall j: nat | j < |fates| :: fates[j] == if j in at[..k.value] then Discarded else old(fates)[j]
    {
      hide Placed, Reported, Accounted;
      PlacedSize(history, acceptedCommandQueue, acceptedAt, |fates|);
      var index := FindSkill(skill);
      if index == |acceptedCommandQueue| {
        return;
      }
      ghost var q := acceptedCommandQueue;
      if index != 0 && skills.basicActivity(skill) != 1 {
        fates := Leave(index, Discarded);
        acceptedCommandQueue := acceptedCommandQueue[index..];
        acceptedAt := acceptedAt[index..];
        index := 0;
      }
      PlacedMark(history, acceptedCommandQueue, acceptedAt, |fates|, index);
      if skills.basicActivity(skill) == 1 {
        TakeOut(index);
      } else {
        acceptedCommandQueue := acceptedCommandQueue[index := acceptedCommandQueue[index].(wasExecuted := true)];
      }
    }

    /** A command that gets no end leaves the queue as soon as it is marked. */
    method TakeOut(index: nat)
      requires Valid() && index < |acceptedCommandQueue|
      modifies this`acceptedCommandQueue, this`fates, this`acceptedAt
      ensures Valid() && |old(acceptedAt)| == |old(acceptedCommandQueue)|
      ensures old(acceptedAt)[index] < |old(fates)| && fates == old(fates)[old(acceptedAt)[index] := Began]
      ensures acceptedCommandQueue == old(acceptedCommandQueue)[..index] + old(acceptedCommandQueue)[index + 1..]
    {
      hide Reported;
      ghost var j := acceptedAt[index];
      assert j in acceptedAt;
      ReportedOther(history, fates, Failed, commandErrors, errorsAt, j, Began);
      ReportedOther(history, fates, Ended(true), commandsSkipped, skippedAt, j, Began);
      PlacedRemove(history, acceptedCommandQueue, acceptedAt, |fates|, index);
      acceptedCommandQueue := acceptedCommandQueue[index := acceptedCommandQueue[index].(wasExecuted := true)];
      acceptedCommandQueue := acceptedCommandQueue[..index] + acceptedCommandQueue[index + 1..];
      fates, acceptedAt := fates[j := Began], acceptedAt[..index] + acceptedAt[index + 1..];
    }

    /** The search from the back; the size of the queue when there is no match. */
    method FindSkill(skill: nat) returns (index: nat)
      ensures var k := LastMatch(skills, skill, acceptedCommandQueue);
              index == if k.None? then |acceptedCommandQueue| else k.value
    {
      var i := |acceptedCommandQueue| - 1;
      while i >= 0
        invariant -1 <= i < |acceptedCommandQueue|
        invariant LastMatch(skills, skill, acceptedCommandQueue[..i + 1]) ==
                    LastMatch(skills, skill, acceptedCommandQueue)
      {
        var c := acceptedCommandQueue[i].command;
        assert acceptedCommandQueue[..i + 1][..i] == acceptedCommandQueue[..i];
        if c.actionType == Cast && c.refSkillId == skills.root(skill) {
          return i;
        } else if c.actionType == Attack && skills.common(skill) {
          return i;
        }
        i := i - 1;
      }
      return |acceptedCommandQueue|;
    }
  }

  /** The last command of the queue that the skill can have begun for. */
  function LastMatch(d: SkillData, skill: nat, q: seq<Accepted>): (r: Option<nat>)
    ensures r.Some? ==> r.value < |q| && Matches(d, skill, q[r.value].command)
    ensures r.Some? ==> forall i | r.value < i < |q| :: !Matches(d, skill, q[i].command)
    ensures r.None? ==> forall i | 0 <= i < |q| :: !Matches(d, skill, q[i].command)
  {
    if |q| == 0 then None
    else if Matches(d, skill, q[|q| - 1].command) then Some(|q| - 1)
    else LastMatch(d, skill, q[..|q| - 1])
  }

  /** An input: the skill 7 is the second piece of the chain that starts with 5.  It began for the cast of 5, not for
      the later cast of 7; a common attack began for the attack command. */
  lemma ChainAndAttack(d: SkillData)
    requires d.root(7) == 5 && !d.common(7) && d.root(9) == 9 && d.common(9)
    ensures var q := [Accepted(Command(Execute, Cast, 5), false), Accepted(Command(Execute, Cast, 7), false),
                      Accepted(Command(Execute, Attack, 0), false), Accepted(Command(Execute, Pickup, 5), false)];
            LastMatch(d, 7, q) == Some(0) && LastMatch(d, 9, q) == Some(2)
  {
    var q := [Accepted(Command(Execute, Cast, 5), false), Accepted(Command(Execute, Cast, 7), false),
              Accepted(Command(Execute, Attack, 0), false), Accepted(Command(Execute, Pickup, 5), false)];
    assert Matches(d, 7, q[0].command) && Matches(d, 9, q[2].command);
    assert LastMatch(d, 7, q).Some? && LastMatch(d, 9, q).Some?;
  }

  lemma PlacedWider(history: seq<Command>, q: seq<Accepted>, at: seq<nat>, size: nat)
    requires Placed(history, q, at, size) && size < |history|
    ensures Placed(history, q, at, size + 1)
  {
  }

  /** A new fate: the request is in the queue or it is not. */
  lemma AccountedGrow(history: seq<Command>, q: seq<Accepted>, fates: seq<Fate>, at: seq<nat>, f: Fate)
    requires Placed(history, q, at, |fates|) && Accounted(fates, at)
    ensures Accounted(fates + [f], if f == InQueue then at + [|fates|] else at)
  {
    var n := |fates|;
    assert n !in at;
    var more := at + [n];
    assert more[|at|] == n;
    forall j: nat | j < n
      ensures j in at <==> j in more
    {
    }
  }

  /** The places of the latest `n` requests, from `base` on. */
  function Range(base: nat, n: nat): (r: seq<nat>)
    ensures |r| == n && forall i | 0 <= i < n :: r[i] == base + i
  {
    if n == 0 then [] else Range(base, n - 1) + [base + n - 1]
  }

  /** The accepted commands followed by the pending ones are a subsequence of the requests: their places in the history
      grow from one to the next. */
  lemma QueuesInOrder(e: SkillEngine)
    requires e.Valid()
    ensures var at := e.acceptedAt + Range(|e.fates|, |e.pendingCommandQueue|);
            && |at| == |e.acceptedCommandQueue| + |e.pendingCommandQueue|
            && (forall i, j | 0 <= i < j < |at| :: at[i] < at[j])
            && (forall i | 0 <= i < |at| :: at[i] < |e.history| && e.history[at[i]] ==
                  if i < |e.acceptedCommandQueue| then e.acceptedCommandQueue[i].command
                  else e.pendingCommandQueue[i - |e.acceptedCommandQueue|])
  {
    hide Reported, Accounted;
    var at := e.acceptedAt + Range(|e.fates|, |e.pendingCommandQueue|);
    var n := |e.acceptedCommandQueue|;
    forall i | 0 <= i < |at|
      ensures at[i] < |e.history|
      ensures e.history[at[i]] ==
              if i < n then e.acceptedCommandQueue[i].command else e.pendingCommandQueue[i - n]
    {
      if i >= n {
        assert at[i] == |e.fates| + (i - n);
      }
    }
  }
}
