/**
 The operator command protocol: agents propose, an operator resolves, approvals enqueue commands, and
 workers drain the queue one command at a time. Every read or write of the database is one atomic
 step; a worker may crash between any two of them.
 */
module Commands {
  import opened Market

  const WINDOW: nat := 20

  datatype RequestStatus = Pending | Approved | Rejected

  datatype CommandStatus = Queued | Running | Done | FailedCommand

  datatype QueuedBy = User(name: string) | Agent(id: nat)

  datatype Payload = Payload(kind: string, params: string)

  datatype Request = Request(agent: nat, payload: string, status: RequestStatus)

  /** Rows are kept in the order of their queueing time. */
  datatype Command = Command(payload: Payload, queuedBy: QueuedBy, status: CommandStatus)

  /** How payload text decodes, and which parameter texts are valid JSON. */
  datatype Codec = Codec(decode: string -> Option<Payload>, parses: string -> bool)

  datatype Worker = Idle | Holding(cmd: nat) | Started(cmd: nat) | Ran(cmd: nat, ok: bool)

  /** `dispatched` lists the commands handed to the wallet, in order. */
  datatype World = World(requests: seq<Request>, commands: seq<Command>, dispatched: seq<nat>, workers: seq<Worker>)

  datatype Step =
    | Propose(agent: nat, payload: string)
    | Resolve(request: nat, approve: bool)
    | Enqueue(command: Payload, sender: QueuedBy)
    | Pop(worker: nat)
    | Start(worker: nat)
    | Dispatch(worker: nat, ok: bool)
    | Finish(worker: nat)
    | Crash(worker: nat)

  function NewCommand(payload: Payload, sender: QueuedBy): Command { Command(payload, sender, Queued) }

  /** Approving enqueues in the same transaction; an undecodable payload aborts it. */
  function ResolveRequest(codec: Codec, w: World, id: nat, approve: bool): World {
    if id >= |w.requests| || !w.requests[id].status.Pending? then w
    else
      var r := w.requests[id];
      if !approve then w.(requests := w.requests[id := r.(status := Rejected)])
      else
        var decoded := codec.decode(r.payload);
        if decoded.None? then w
        else w.(requests := w.requests[id := r.(status := Approved)],
                commands := w.commands + [NewCommand(decoded.value, Agent(r.agent))])
  }

  function WindowStart(n: nat): nat { if n > WINDOW then n - WINDOW else 0 }

  /** The oldest queued row at or after `from`. */
  function OldestQueued(commands: seq<Command>, from: nat): Option<nat>
    requires from <= |commands|
    decreases |commands| - from
  {
    if from == |commands| then None
    else if commands[from].status.Queued? then Some(from)
    else OldestQueued(commands, from + 1)
  }

  function PopQueued(commands: seq<Command>): Option<nat> { OldestQueued(commands, WindowStart(|commands|)) }

  function SetStatus(commands: seq<Command>, id: nat, status: CommandStatus): seq<Command> {
    if id < |commands| then commands[id := commands[id].(status := status)] else commands
  }

  /** Unreadable parameters raise before the command is marked running. */
  function PopStep(codec: Codec, w: World, i: nat): World
    requires i < |w.workers|
  {
    var next := PopQueued(w.commands);
    if next.None? || next.value >= |w.commands| || !codec.parses(w.commands[next.value].payload.params) then w
    else w.(workers := w.workers[i := Holding(next.value)])
  }

  function Next(codec: Codec, w: World, s: Step): World {
    match s
    case Propose(agent, payload) => w.(requests := w.requests + [Request(agent, payload, Pending)])
    case Resolve(request, approve) => ResolveRequest(codec, w, request, approve)
    case Enqueue(command, sender) => w.(commands := w.commands + [NewCommand(command, sender)])
    case Pop(i) => if i < |w.workers| && w.workers[i].Idle? then PopStep(codec, w, i) else w
    case Start(i) =>
      if i < |w.workers| && w.workers[i].Holding? then
        w.(commands := SetStatus(w.commands, w.workers[i].cmd, Running),
           workers := w.workers[i := Started(w.workers[i].cmd)])
      else w
    case Dispatch(i, ok) =>
      if i < |w.workers| && w.workers[i].Started? then
        w.(dispatched := w.dispatched + [w.workers[i].cmd], workers := w.workers[i := Ran(w.workers[i].cmd, ok)])
      else w
    case Finish(i) =>
      if i < |w.workers| && w.workers[i].Ran? then
        w.(commands := SetStatus(w.commands, w.workers[i].cmd, if w.workers[i].ok then Done else FailedCommand),
           workers := w.workers[i := Idle])
      else w
    case Crash(i) => if i < |w.workers| then w.(workers := w.workers[i := Idle]) else w
  }

  function NextAll(codec: Codec, w: World, steps: seq<Step>): World {
    if steps == [] then w else Next(codec, NextAll(codec, w, steps[..|steps| - 1]), steps[|steps| - 1])
  }

  function Empty(workers: nat): World { World([], [], [], seq(workers, _ => Idle)) }

  // ---- the tables and the worker as they update in place ----

  class Database {
    var requests: seq<Request>
    var commands: seq<Command>
    var dispatched: seq<nat>
    const codec: Codec

    constructor (codec: Codec)
      ensures View([]) == Empty(0) && this.codec == codec
    {
      requests, commands, dispatched := [], [], [];
      this.codec := codec;
    }

    function View(workers: seq<Worker>): World
      reads this
    {
      World(requests, commands, dispatched, workers)
    }

    method ProposeTrade(agent: nat, payload: string) returns (id: nat)
      modifies this
      ensures View([]) == Next(codec, old(View([])), Propose(agent, payload))
      ensures id == |old(requests)| && requests == old(requests) + [Request(agent, payload, Pending)]
    {
      id := |requests|;
      requests := requests + [Request(agent, payload, Pending)];
    }

    /** False when the mutation throws and is rolled back. */
    method ResolveTrade(id: nat, approve: bool) returns (resolved: bool)
      modifies this
      ensures View([]) == Next(codec, old(View([])), Resolve(id, approve))
      ensures resolved <==> id < |old(requests)| && old(requests)[id].status.Pending?
                            && (approve ==> codec.decode(old(requests)[id].payload).Some?)
      ensures !resolved ==> requests == old(requests) && commands == old(commands)
      ensures resolved ==>
                var r := old(requests)[id];
                if approve then
                  && requests == old(requests)[id := r.(status := Approved)]
                  && commands == old(commands)
                                 + [Command(codec.decode(r.payload).value, QueuedBy.Agent(r.agent), Queued)]
                else requests == old(requests)[id := r.(status := Rejected)] && commands == old(commands)
    {
      if id >= |requests| || !requests[id].status.Pending? {
        return false;
      }
      var r := requests[id];
      if approve {
        var decoded := codec.decode(r.payload);
        if decoded.None? {
          return false;
        }
        commands := commands + [NewCommand(decoded.value, Agent(r.agent))];
      }
      requests := requests[id := r.(status := if approve then Approved else Rejected)];
      return true;
    }

    method EnqueueCommand(payload: Payload, sender: QueuedBy)
      modifies this
      ensures View([]) == Next(codec, old(View([])), Enqueue(payload, sender))
      ensures commands == old(commands) + [Command(payload, sender, Queued)]
    {
      commands := commands + [NewCommand(payload, sender)];
    }

    method UpdateStatus(id: nat, status: CommandStatus)
      modifies this
      ensures requests == old(requests) && dispatched == old(dispatched)
      ensures commands == SetStatus(old(commands), id, status)
      ensures |commands| == |old(commands)|
      ensures forall c | 0 <= c < |commands| ::
                commands[c] == if c == id then old(commands)[c].(status := status) else old(commands)[c]
    {
      if id < |commands| {
        commands := commands[id := commands[id].(status := status)];
      }
    }

    /** Scans the newest rows from newest to oldest and keeps the last queued one it meets. */
    method PopQueuedCommand() returns (id: Option<nat>)
      ensures id == PopQueued(commands)
    {
      id := None;
      var i, from := |commands|, WindowStart(|commands|);
      while i > from
        invariant from <= i <= |commands|
        invariant id == OldestQueued(commands, i)
      {
        i := i - 1;
        if commands[i].status.Queued? {
          id := Some(i);
        }
      }
    }

    /** One drain: pop, mark running, dispatch, write the outcome. False if nothing ran or the parameters raised. */
    method RunOneCommand(outcome: Command -> bool) returns (ran: bool)
      modifies this
      ensures var id := PopQueued(old(commands));
              && (ran <==> id.Some? && id.value < |old(commands)|
                           && codec.parses(old(commands)[id.value].payload.params))
              && (if ran then
                    var ok := outcome(old(commands)[id.value].(status := Running));
                    View([Idle]) == NextAll(codec, old(View([Idle])), [Pop(0), Start(0), Dispatch(0, ok), Finish(0)])
                  else View([Idle]) == old(View([Idle])))
      ensures ran ==>
                var id := PopQueued(old(commands)).value;
                var row := old(commands)[id];
                && requests == old(requests) && dispatched == old(dispatched) + [id]
                && commands == old(commands)[id := if outcome(row.(status := Running)) then row.(status := Done)
                                                   else row.(status := FailedCommand)]
    {
      ghost var w0 := View([Idle]);
      var id := PopQueuedCommand();
      if id.None? || id.value >= |commands| || !codec.parses(commands[id.value].payload.params) {
        return false;
      }
      UpdateStatus(id.value, Running);
      var ok := outcome(commands[id.value]);
      dispatched := dispatched + [id.value];
      UpdateStatus(id.value, if ok then Done else FailedCommand);
      Drained(codec, w0, id.value, ok);
      return true;
    }
  }

  /** What one undisturbed drain of an idle worker comes to. */
  lemma Drained(codec: Codec, w: World, id: nat, ok: bool)
    requires w.workers == [Idle] && PopQueued(w.commands) == Some(id)
    requires id < |w.commands| && codec.parses(w.commands[id].payload.params)
    ensures NextAll(codec, w, [Pop(0), Start(0), Dispatch(0, ok), Finish(0)])
         == w.(dispatched := w.dispatched + [id],
               commands := w.commands[id := w.commands[id].(status := if ok then Done else FailedCommand)])
  {
    FourSteps(codec, w, ok);
    var held := w.(workers := [Holding(id)]);
    assert Next(codec, w, Pop(0)) == held;
    var started := held.(commands := SetStatus(w.commands, id, Running), workers := [Started(id)]);
    assert Next(codec, held, Start(0)) == started;
    var ran := started.(dispatched := w.dispatched + [id], workers := [Ran(id, ok)]);
    assert Next(codec, started, Dispatch(0, ok)) == ran;
    var status := if ok then Done else FailedCommand;
    assert SetStatus(SetStatus(w.commands, id, Running), id, status)
        == w.commands[id := w.commands[id].(status := status)];
  }

  lemma NextAllAppend(codec: Codec, w: World, steps: seq<Step>, s: Step)
    ensures NextAll(codec, w, steps + [s]) == Next(codec, NextAll(codec, w, steps), s)
  {
    assert (steps + [s])[..|steps|] == steps;
  }

  lemma FourSteps(codec: Codec, w: World, ok: bool)
    ensures NextAll(codec, w, [Pop(0), Start(0), Dispatch(0, ok), Finish(0)])
         == Next(codec, Next(codec, Next(codec, Next(codec, w, Pop(0)), Start(0)), Dispatch(0, ok)), Finish(0))
  {
    NextAllAppend(codec, w, [], Pop(0));
    NextAllAppend(codec, w, [] + [Pop(0)], Start(0));
    NextAllAppend(codec, w, [] + [Pop(0)] + [Start(0)], Dispatch(0, ok));
    NextAllAppend(codec, w, [] + [Pop(0)] + [Start(0)] + [Dispatch(0, ok)], Finish(0));
    assert [] + [Pop(0)] + [Start(0)] + [Dispatch(0, ok)] + [Finish(0)]
        == [Pop(0), Start(0), Dispatch(0, ok), Finish(0)];
  }

  // ---- which command is chosen ----

  lemma {:induction false} OldestQueuedIsOldest(commands: seq<Command>, from: nat)
    requires from <= |commands|
    ensures var r := OldestQueued(commands, from);
            if r.None? then forall i | from <= i < |commands| :: !commands[i].status.Queued?
            else
              && from <= r.value < |commands| && commands[r.value].status.Queued?
              && forall i | from <= i < r.value :: !commands[i].status.Queued?
    decreases |commands| - from
  {
    if from < |commands| && !commands[from].status.Queued? {
      OldestQueuedIsOldest(commands, from + 1);
    }
  }

  lemma {:induction false} OldestQueuedIs(commands: seq<Command>, from: nat, c: nat)
    requires from <= c < |commands| && commands[c].status.Queued?
    requires forall i | from <= i < c :: !commands[i].status.Queued?
    ensures OldestQueued(commands, from) == Some(c)
    decreases c - from
  {
    if from < c {
      OldestQueuedIs(commands, from + 1, c);
    }
  }

  /** The chosen command is the oldest queued one if and only if that one is among the newest 20 rows. */
  lemma PopIsFifoInWindow(commands: seq<Command>, c: nat)
    requires c < |commands| && commands[c].status.Queued?
    requires forall i | 0 <= i < c :: !commands[i].status.Queued?
    ensures PopQueued(commands) == Some(c) <==> |commands| - c <= WINDOW
  {
    OldestQueuedIsOldest(commands, WindowStart(|commands|));
  }

  // ---- at most one dispatch, with a single worker ----

  ghost predicate AllDifferent(ids: seq<nat>) {
    forall i, j | 0 <= i < j < |ids| :: ids[i] != ids[j]
  }

  /** A dispatched command is no longer queued, and a worker's command is where its phase says. */
  ghost predicate DispatchedOnce(w: World) {
    && |w.workers| <= 1 && AllDifferent(w.dispatched)
    && (forall c | c in w.dispatched :: c < |w.commands| && !w.commands[c].status.Queued?)
    && match if w.workers == [] then Idle else w.workers[0]
       case Idle => true
       case Holding(c) => c < |w.commands| && w.commands[c].status.Queued?
       case Started(c) => c < |w.commands| && w.commands[c].status.Running? && c !in w.dispatched
       case Ran(c, ok) => c < |w.commands| && w.commands[c].status.Running? && c in w.dispatched
  }

  lemma StepDispatchesOnce(codec: Codec, w: World, s: Step)
    requires DispatchedOnce(w)
    ensures DispatchedOnce(Next(codec, w, s))
  {
    if s.Pop? {
      OldestQueuedIsOldest(w.commands, WindowStart(|w.commands|));
    }
  }

  /** Over every interleaving with at most one worker and crashes anywhere, no command is dispatched twice. */
  lemma {:induction false} EachCommandDispatchedAtMostOnce(codec: Codec, workers: nat, steps: seq<Step>)
    requires workers <= 1
    ensures var w := NextAll(codec, Empty(workers), steps); DispatchedOnce(w) && AllDifferent(w.dispatched)
  {
    if steps != [] {
      var init := steps[..|steps| - 1];
      EachCommandDispatchedAtMostOnce(codec, workers, init);
      StepDispatchesOnce(codec, NextAll(codec, Empty(workers), init), steps[|steps| - 1]);
    }
  }

  /** One command, popped and marked by two workers before either dispatches it. */
  function Race(payload: Payload): seq<Step> {
    [Enqueue(payload, User("user")), Pop(0), Pop(1), Start(0), Start(1), Dispatch(0, true), Dispatch(1, true)]
  }

  /** Popping and marking are separate steps: two workers can both run the same command. */
  lemma TwoWorkersDispatchTwice(codec: Codec, workers: nat, payload: Payload)
    requires workers >= 2 && codec.parses(payload.params)
    ensures NextAll(codec, Empty(workers), Race(payload)).dispatched == [0, 0]
  {
    var e := Enqueue(payload, User("user"));
    var queued := Next(codec, Empty(workers), e);
    assert PopQueued(queued.commands) == Some(0);
    var held := Next(codec, Next(codec, queued, Pop(0)), Pop(1));
    assert held.workers[..2] == [Holding(0), Holding(0)];
    var marked := Next(codec, Next(codec, held, Start(0)), Start(1));
    assert marked.workers[..2] == [Started(0), Started(0)];
    var ran := Next(codec, Next(codec, marked, Dispatch(0, true)), Dispatch(1, true));
    assert ran.dispatched == [0, 0];
    RaceUnfolds(codec, Empty(workers), payload);
  }

  lemma RaceUnfolds(codec: Codec, w: World, payload: Payload)
    ensures NextAll(codec, w, Race(payload))
         == (var queued := Next(codec, w, Enqueue(payload, User("user")));
             var held := Next(codec, Next(codec, queued, Pop(0)), Pop(1));
             var marked := Next(codec, Next(codec, held, Start(0)), Start(1));
             Next(codec, Next(codec, marked, Dispatch(0, true)), Dispatch(1, true)))
  {
    var e := Enqueue(payload, User("user"));
    NextAllAppend(codec, w, [], e);
    NextAllAppend(codec, w, [] + [e], Pop(0));
    NextAllAppend(codec, w, [] + [e] + [Pop(0)], Pop(1));
    NextAllAppend(codec, w, [] + [e] + [Pop(0)] + [Pop(1)], Start(0));
    NextAllAppend(codec, w, [] + [e] + [Pop(0)] + [Pop(1)] + [Start(0)], Start(1));
    NextAllAppend(codec, w, [] + [e] + [Pop(0)] + [Pop(1)] + [Start(0)] + [Start(1)], Dispatch(0, true));
    var last := [] + [e] + [Pop(0)] + [Pop(1)] + [Start(0)] + [Start(1)] + [Dispatch(0, true)];
    NextAllAppend(codec, w, last, Dispatch(1, true));
    assert last + [Dispatch(1, true)] == Race(payload);
  }

  /** No schedule at all dispatches a command twice if and only if at most one worker drains the queue. */
  lemma NeverTwiceIffOneWorker(codec: Codec, workers: nat, payload: Payload)
    requires codec.parses(payload.params)
    ensures (forall steps :: AllDifferent(NextAll(codec, Empty(workers), steps).dispatched)) <==> workers <= 1
  {
    if workers <= 1 {
      forall steps
        ensures AllDifferent(NextAll(codec, Empty(workers), steps).dispatched)
      {
        EachCommandDispatchedAtMostOnce(codec, workers, steps);
      }
    } else {
      TwoWorkersDispatchTwice(codec, workers, payload);
      assert !AllDifferent([0, 0]) by { assert [0, 0][0] == [0, 0][1]; }
    }
  }

  // ---- agent commands and approvals ----

  datatype Origin = Origin(agent: nat, payload: Payload)

  function OriginOf(c: Command): multiset<Origin> {
    if c.queuedBy.Agent? then multiset{Origin(c.queuedBy.id, c.payload)} else multiset{}
  }

  function AgentCommands(commands: seq<Command>): multiset<Origin> {
    if commands == [] then multiset{}
    else AgentCommands(commands[..|commands| - 1]) + OriginOf(commands[|commands| - 1])
  }

  function ApprovalOf(codec: Codec, r: Request): multiset<Origin> {
    var decoded := codec.decode(r.payload);
    if r.status.Approved? && decoded.Some? then multiset{Origin(r.agent, decoded.value)} else multiset{}
  }

  function Approvals(codec: Codec, requests: seq<Request>): multiset<Origin> {
    if requests == [] then multiset{}
    else Approvals(codec, requests[..|requests| - 1]) + ApprovalOf(codec, requests[|requests| - 1])
  }

  /** Direct enqueues that carry an agent's name without an approval. */
  function Impersonations(steps: seq<Step>): multiset<Origin> {
    if steps == [] then multiset{}
    else Impersonations(steps[..|steps| - 1]) + Impersonation(steps[|steps| - 1])
  }

  lemma AgentCommandsAppend(commands: seq<Command>, c: Command)
    ensures AgentCommands(commands + [c]) == AgentCommands(commands) + OriginOf(c)
  {
    assert (commands + [c])[..|commands|] == commands;
  }

  lemma UpdateBeforeLast<T>(s: seq<T>, i: nat, x: T)
    requires i < |s|
    ensures s[i := x][..|s| - 1] == if i < |s| - 1 then s[..|s| - 1][i := x] else s[..|s| - 1]
  {
  }

  lemma {:induction false} SameOriginKeepsAgentCommands(commands: seq<Command>, id: nat, c: Command)
    requires id < |commands| && OriginOf(c) == OriginOf(commands[id])
    ensures AgentCommands(commands[id := c]) == AgentCommands(commands)
  {
    var init := commands[..|commands| - 1];
    UpdateBeforeLast(commands, id, c);
    if id < |init| {
      SameOriginKeepsAgentCommands(init, id, c);
    }
  }

  lemma StatusKeepsAgentCommands(commands: seq<Command>, id: nat, status: CommandStatus)
    ensures AgentCommands(SetStatus(commands, id, status)) == AgentCommands(commands)
  {
    if id < |commands| {
      SameOriginKeepsAgentCommands(commands, id, commands[id].(status := status));
    }
  }

  lemma {:induction false} ResolveOne(codec: Codec, requests: seq<Request>, id: nat, row: Request)
    requires id < |requests| && requests[id].status.Pending?
    ensures Approvals(codec, requests[id := row]) == Approvals(codec, requests) + ApprovalOf(codec, row)
  {
    var init, last := requests[..|requests| - 1], requests[|requests| - 1];
    UpdateBeforeLast(requests, id, row);
    if id < |init| {
      ResolveOne(codec, init, id, row);
      Swap(Approvals(codec, init), ApprovalOf(codec, row), ApprovalOf(codec, last));
    } else {
      assert ApprovalOf(codec, last) == multiset{};
    }
  }

  lemma Swap(a: multiset<Origin>, b: multiset<Origin>, c: multiset<Origin>)
    ensures (a + b) + c == (a + c) + b
  {
  }

  lemma ResolveMatchesApprovals(codec: Codec, w: World, id: nat, approve: bool, forged: multiset<Origin>)
    requires AgentCommands(w.commands) == Approvals(codec, w.requests) + forged
    ensures var v := ResolveRequest(codec, w, id, approve);
            AgentCommands(v.commands) == Approvals(codec, v.requests) + forged
  {
    if id < |w.requests| && w.requests[id].status.Pending? {
      var r := w.requests[id];
      var row, decoded := r.(status := if approve then Approved else Rejected), codec.decode(r.payload);
      ResolveOne(codec, w.requests, id, row);
      if approve && decoded.Some? {
        AgentCommandsAppend(w.commands, NewCommand(decoded.value, Agent(r.agent)));
        assert OriginOf(NewCommand(decoded.value, Agent(r.agent))) == ApprovalOf(codec, row);
        Swap(Approvals(codec, w.requests), forged, ApprovalOf(codec, row));
      } else if !approve {
        assert ApprovalOf(codec, row) == multiset{};
      }
    }
  }

  /** What a step adds to the commands an agent's name was put on without approval. */
  function Impersonation(s: Step): multiset<Origin> {
    if s.Enqueue? && s.sender.Agent? then multiset{Origin(s.sender.id, s.command)} else multiset{}
  }

  lemma WorkerKeepsOrigins(codec: Codec, w: World, s: Step)
    requires s.Pop? || s.Start? || s.Dispatch? || s.Finish? || s.Crash?
    ensures Next(codec, w, s).requests == w.requests
    ensures AgentCommands(Next(codec, w, s).commands) == AgentCommands(w.commands)
  {
    var v := Next(codec, w, s);
    if s.Start? && v != w {
      var c := w.workers[s.worker].cmd;
      assert v.commands == SetStatus(w.commands, c, Running);
      StatusKeepsAgentCommands(w.commands, c, Running);
    } else if s.Finish? && v != w {
      var c, status := w.workers[s.worker].cmd, if w.workers[s.worker].ok then Done else FailedCommand;
      assert v.commands == SetStatus(w.commands, c, status);
      StatusKeepsAgentCommands(w.commands, c, status);
    } else {
      assert v.commands == w.commands;
    }
  }

  lemma ProposalApprovesNothing(codec: Codec, requests: seq<Request>, r: Request)
    requires r.status.Pending?
    ensures Approvals(codec, requests + [r]) == Approvals(codec, requests)
  {
    assert (requests + [r])[..|requests|] == requests;
  }

  lemma StepMatchesApprovals(codec: Codec, w: World, s: Step, forged: multiset<Origin>)
    requires AgentCommands(w.commands) == Approvals(codec, w.requests) + forged
    ensures var v := Next(codec, w, s);
            AgentCommands(v.commands) == Approvals(codec, v.requests) + forged + Impersonation(s)
  {
    match s
    case Propose(agent, payload) =>
      ProposalApprovesNothing(codec, w.requests, Request(agent, payload, Pending));
    case Resolve(id, approve) =>
      ResolveMatchesApprovals(codec, w, id, approve, forged);
    case Enqueue(command, sender) =>
      AgentCommandsAppend(w.commands, NewCommand(command, sender));
    case _ =>
      WorkerKeepsOrigins(codec, w, s);
  }

  /**
   Over every run with any number of workers, the agent-named commands are exactly the approved requests,
   one command each, plus the direct enqueues that used an agent's name; rejected and pending requests yield none.
   */
  lemma {:induction false} AgentCommandsAreApprovals(codec: Codec, workers: nat, steps: seq<Step>)
    ensures var w := NextAll(codec, Empty(workers), steps);
            AgentCommands(w.commands) == Approvals(codec, w.requests) + Impersonations(steps)
  {
    if steps != [] {
      var init := steps[..|steps| - 1];
      AgentCommandsAreApprovals(codec, workers, init);
      StepMatchesApprovals(codec, NextAll(codec, Empty(workers), init), steps[|steps| - 1], Impersonations(init));
    }
  }

  /** Only decodable requests are ever approved. */
  lemma {:induction false} ApprovedRequestsDecode(codec: Codec, workers: nat, steps: seq<Step>)
    ensures var w := NextAll(codec, Empty(workers), steps);
            forall r | r in w.requests && r.status.Approved? :: codec.decode(r.payload).Some?
  {
    if steps != [] {
      ApprovedRequestsDecode(codec, workers, steps[..|steps| - 1]);
    }
  }

  /** A request once resolved is never resolved again, whatever happens. */
  lemma {:induction false} ResolutionIsFinal(codec: Codec, w: World, steps: seq<Step>, id: nat)
    requires id < |w.requests| && !w.requests[id].status.Pending?
    ensures id < |NextAll(codec, w, steps).requests| && NextAll(codec, w, steps).requests[id] == w.requests[id]
  {
    if steps != [] {
      ResolutionIsFinal(codec, w, steps[..|steps| - 1], id);
    }
  }

  // ---- what the statuses say ----

  /** The worker at step k, and the command it then holds or has run. */
  function WorkerAt(codec: Codec, workers: nat, steps: seq<Step>, k: nat, i: nat): Worker
    requires k <= |steps|
  {
    var w := NextAll(codec, Empty(workers), steps[..k]);
    if i < |w.workers| then w.workers[i] else Idle
  }

  /** Step k dispatches the command with that outcome, and a later step writes it. */
  ghost predicate RanWith(codec: Codec, workers: nat, steps: seq<Step>, c: nat, ok: bool) {
    exists k: nat, i: nat :: k < |steps| && steps[k] == Dispatch(i, ok)
                             && WorkerAt(codec, workers, steps, k, i) == Started(c)
  }

  /** Every finished row, and every worker that ran its command, stands for such a run of `steps`. */
  ghost predicate Explained(codec: Codec, workers: nat, steps: seq<Step>, w: World) {
    && (forall c | 0 <= c < |w.commands| ::
          && (w.commands[c].status.Done? ==> RanWith(codec, workers, steps, c, true))
          && (w.commands[c].status.FailedCommand? ==> RanWith(codec, workers, steps, c, false)))
    && (forall i | 0 <= i < |w.workers| && w.workers[i].Ran? ::
          RanWith(codec, workers, steps, w.workers[i].cmd, w.workers[i].ok))
  }

  ghost predicate OutcomesKnown(codec: Codec, workers: nat, steps: seq<Step>) {
    Explained(codec, workers, steps, NextAll(codec, Empty(workers), steps))
  }

  lemma RanStays(codec: Codec, workers: nat, steps: seq<Step>, s: Step, c: nat, ok: bool)
    requires RanWith(codec, workers, steps, c, ok)
    ensures RanWith(codec, workers, steps + [s], c, ok)
  {
    var k: nat, i: nat :| k < |steps| && steps[k] == Dispatch(i, ok)
                          && WorkerAt(codec, workers, steps, k, i) == Started(c);
    assert (steps + [s])[..k] == steps[..k] && (steps + [s])[k] == Dispatch(i, ok);
    assert WorkerAt(codec, workers, steps + [s], k, i) == Started(c);
  }

  /** A step that dispatches is a run with that outcome. */
  lemma DispatchRan(codec: Codec, workers: nat, steps: seq<Step>, i: nat, ok: bool)
    requires var w := NextAll(codec, Empty(workers), steps); i < |w.workers| && w.workers[i].Started?
    ensures RanWith(codec, workers, steps + [Dispatch(i, ok)], NextAll(codec, Empty(workers), steps).workers[i].cmd, ok)
  {
    var longer := steps + [Dispatch(i, ok)];
    assert longer[..|steps|] == steps && longer[|steps|] == Dispatch(i, ok);
    var c := NextAll(codec, Empty(workers), steps).workers[i].cmd;
    assert WorkerAt(codec, workers, longer, |steps|, i) == Started(c);
  }

  lemma OutcomeStep(codec: Codec, workers: nat, steps: seq<Step>, s: Step)
    requires OutcomesKnown(codec, workers, steps)
    ensures OutcomesKnown(codec, workers, steps + [s])
  {
    var w, longer := NextAll(codec, Empty(workers), steps), steps + [s];
    NextAllAppend(codec, Empty(workers), steps, s);
    if s.Dispatch? && s.worker < |w.workers| && w.workers[s.worker].Started? {
      DispatchRan(codec, workers, steps, s.worker, s.ok);
    }
    forall c, ok | RanWith(codec, workers, steps, c, ok)
      ensures RanWith(codec, workers, longer, c, ok)
    {
      RanStays(codec, workers, steps, s, c, ok);
    }
    StepExplained(codec, workers, longer, w, s);
  }

  /** A step keeps what is explained, if the dispatch it may make is. */
  lemma StepExplained(codec: Codec, workers: nat, steps: seq<Step>, w: World, s: Step)
    requires Explained(codec, workers, steps, w)
    requires s.Dispatch? && s.worker < |w.workers| && w.workers[s.worker].Started? ==>
               RanWith(codec, workers, steps, w.workers[s.worker].cmd, s.ok)
    ensures Explained(codec, workers, steps, Next(codec, w, s))
  {
    var v := Next(codec, w, s);
    forall i | 0 <= i < |v.workers| && v.workers[i].Ran?
      ensures RanWith(codec, workers, steps, v.workers[i].cmd, v.workers[i].ok)
    {
      assert v.workers[i] == w.workers[i] || (s.Dispatch? && s.worker == i);
    }
  }

  /** Over every run, with any workers and crashes, a command is done, or failed, only if a worker ran it to that. */
  lemma {:induction false} StatusesAreOutcomes(codec: Codec, workers: nat, steps: seq<Step>)
    ensures OutcomesKnown(codec, workers, steps)
  {
    if steps != [] {
      StatusesAreOutcomes(codec, workers, steps[..|steps| - 1]);
      OutcomeStep(codec, workers, steps[..|steps| - 1], steps[|steps| - 1]);
      assert steps == steps[..|steps| - 1] + [steps[|steps| - 1]];
    }
  }

  // ---- who waits forever ----

  /** Not dispatched, held by no worker, and not for any worker to pop: off the queue, overtaken, or unreadable. */
  ghost predicate Unreachable(codec: Codec, w: World, c: nat) {
    && c < |w.commands| && c !in w.dispatched
    && (w.workers != [] && w.commands[c].status.Queued? && codec.parses(w.commands[c].payload.params) ==>
          |w.commands| - c > WINDOW)
    && forall i | 0 <= i < |w.workers| :: w.workers[i].Idle? || w.workers[i].cmd != c
  }

  lemma StepKeepsUnreachable(codec: Codec, w: World, s: Step, c: nat)
    requires Unreachable(codec, w, c)
    ensures Unreachable(codec, Next(codec, w, s), c)
  {
    if s.Pop? {
      OldestQueuedIsOldest(w.commands, WindowStart(|w.commands|));
    }
  }

  /**
   A queued command overtaken by 20 newer rows, one with unreadable parameters, and one whose worker crashed
   after marking it, is never dispatched in any continuation.
   */
  lemma {:induction false} UnreachableForever(codec: Codec, w: World, steps: seq<Step>, c: nat)
    requires Unreachable(codec, w, c)
    ensures Unreachable(codec, NextAll(codec, w, steps), c)
  {
    if steps != [] {
      UnreachableForever(codec, w, steps[..|steps| - 1], c);
      StepKeepsUnreachable(codec, NextAll(codec, w, steps[..|steps| - 1]), steps[|steps| - 1], c);
    }
  }

  // ---- and nobody else ----

  ghost predicate RanAreDispatched(w: World) {
    forall i | 0 <= i < |w.workers| && w.workers[i].Ran? :: w.workers[i].cmd in w.dispatched
  }

  lemma {:induction false} RunsAreDispatched(codec: Codec, workers: nat, history: seq<Step>)
    ensures RanAreDispatched(NextAll(codec, Empty(workers), history))
  {
    if history != [] {
      RunsAreDispatched(codec, workers, history[..|history| - 1]);
    }
  }

  lemma {:induction false} NextAllConcat(codec: Codec, w: World, a: seq<Step>, b: seq<Step>)
    ensures NextAll(codec, w, a + b) == NextAll(codec, NextAll(codec, w, a), b)
  {
    if b == [] {
      assert a + b == a;
    } else {
      assert (a + b)[..|a + b| - 1] == a + b[..|b| - 1];
      NextAllConcat(codec, w, a, b[..|b| - 1]);
    }
  }

  lemma ThreeSteps(codec: Codec, w: World, a: Step, b: Step, c: Step)
    ensures NextAll(codec, w, [a, b, c]) == Next(codec, Next(codec, Next(codec, w, a), b), c)
  {
    TwoSteps(codec, w, a, b);
    NextAllAppend(codec, w, [a, b], c);
    assert [a, b] + [c] == [a, b, c];
  }

  lemma TwoSteps(codec: Codec, w: World, a: Step, b: Step)
    ensures NextAll(codec, w, [a, b]) == Next(codec, Next(codec, w, a), b)
  {
    NextAllAppend(codec, w, [], a);
    NextAllAppend(codec, w, [] + [a], b);
    assert [] + [a] + [b] == [a, b];
  }

  function Enqueues(payload: Payload, n: nat): seq<Step> { seq(n, _ => Enqueue(payload, User("user"))) }

  function Rows(payload: Payload, n: nat): seq<Command> { seq(n, _ => NewCommand(payload, User("user"))) }

  lemma {:induction false} EnqueuesQueue(codec: Codec, w: World, payload: Payload, n: nat)
    ensures NextAll(codec, w, Enqueues(payload, n)) == w.(commands := w.commands + Rows(payload, n))
  {
    if n == 0 {
      assert w.commands + Rows(payload, 0) == w.commands;
    } else {
      EnqueuesQueue(codec, w, payload, n - 1);
      assert Enqueues(payload, n)[..n - 1] == Enqueues(payload, n - 1);
      assert Rows(payload, n) == Rows(payload, n - 1) + [NewCommand(payload, User("user"))];
      assert w.commands + Rows(payload, n) == w.commands + Rows(payload, n - 1) + [NewCommand(payload, User("user"))];
    }
  }

  /** The steps get the command dispatched, and nobody crashes on the way. */
  ghost predicate Serves(codec: Codec, w: World, steps: seq<Step>, c: nat) {
    c in NextAll(codec, w, steps).dispatched && forall s | s in steps :: !s.Crash?
  }

  /** Whatever a worker holds, it finishes in at most three steps. */
  function FinishUp(i: nat): seq<Step> { [Start(i), Dispatch(i, true), Finish(i)] }

  lemma HeldIsServed(codec: Codec, w: World, i: nat, c: nat)
    requires i < |w.workers| && !w.workers[i].Idle? && w.workers[i].cmd == c
    requires RanAreDispatched(w)
    ensures Serves(codec, w, FinishUp(i), c)
  {
    ThreeSteps(codec, w, Start(i), Dispatch(i, true), Finish(i));
  }

  lemma FinishUpFrees(codec: Codec, w: World, c: nat)
    requires w.workers != [] && c < |w.commands| && (w.workers[0].Idle? || w.workers[0].cmd != c)
    ensures var v := NextAll(codec, w, FinishUp(0));
            && v.workers != [] && v.workers[0].Idle?
            && |v.commands| == |w.commands| && v.commands[c] == w.commands[c]
  {
    ThreeSteps(codec, w, Start(0), Dispatch(0, true), Finish(0));
  }

  /** Let worker 0 finish, push the window down to the command, and let worker 0 take it. */
  function Detour(w: World, c: nat): seq<Step>
    requires c < |w.commands| <= c + WINDOW
  {
    FinishUp(0) + Enqueues(w.commands[c].payload, c + WINDOW - |w.commands|) + [Pop(0), Start(0), Dispatch(0, true)]
  }

  /** An idle worker takes and dispatches the row the window starts with. */
  lemma OldestIsTaken(codec: Codec, w: World, c: nat)
    requires w.workers != [] && w.workers[0].Idle? && |w.commands| == c + WINDOW
    requires w.commands[c].status.Queued? && codec.parses(w.commands[c].payload.params)
    ensures c in NextAll(codec, w, [Pop(0), Start(0), Dispatch(0, true)]).dispatched
  {
    assert WindowStart(|w.commands|) == c;
    OldestQueuedIs(w.commands, c, c);
    assert PopQueued(w.commands) == Some(c);
    ThreeSteps(codec, w, Pop(0), Start(0), Dispatch(0, true));
  }

  lemma QueuedIsServed(codec: Codec, w: World, c: nat)
    requires w.workers != [] && c < |w.commands| <= c + WINDOW && (w.workers[0].Idle? || w.workers[0].cmd != c)
    requires w.commands[c].status.Queued? && codec.parses(w.commands[c].payload.params)
    ensures Serves(codec, w, Detour(w, c), c)
  {
    var payload, n := w.commands[c].payload, c + WINDOW - |w.commands|;
    var free := NextAll(codec, w, FinishUp(0));
    FinishUpFrees(codec, w, c);
    var pushed := NextAll(codec, free, Enqueues(payload, n));
    EnqueuesQueue(codec, free, payload, n);
    OldestIsTaken(codec, pushed, c);
    NextAllConcat(codec, w, FinishUp(0), Enqueues(payload, n));
    NextAllConcat(codec, w, FinishUp(0) + Enqueues(payload, n), [Pop(0), Start(0), Dispatch(0, true)]);
  }

  /**
   The queue starves no one else: in every world the system can reach, a command is dispatched in some
   continuation if and only if it is not out of reach there; and then it is without any crash.
   */
  lemma DispatchedIffReachable(codec: Codec, workers: nat, history: seq<Step>, c: nat)
    requires c < |NextAll(codec, Empty(workers), history).commands|
    ensures var w := NextAll(codec, Empty(workers), history);
            && ((exists steps :: c in NextAll(codec, w, steps).dispatched) <==> !Unreachable(codec, w, c))
            && (!Unreachable(codec, w, c) ==> exists steps :: Serves(codec, w, steps, c))
  {
    var w := NextAll(codec, Empty(workers), history);
    RunsAreDispatched(codec, workers, history);
    if Unreachable(codec, w, c) {
      forall steps
        ensures c !in NextAll(codec, w, steps).dispatched
      {
        UnreachableForever(codec, w, steps, c);
      }
    } else {
      var steps := ReachableIsServed(codec, w, c);
      assert c in NextAll(codec, w, steps).dispatched;
    }
  }

  lemma ReachableIsServed(codec: Codec, w: World, c: nat) returns (steps: seq<Step>)
    requires RanAreDispatched(w) && c < |w.commands| && !Unreachable(codec, w, c)
    ensures Serves(codec, w, steps, c)
  {
    if c in w.dispatched {
      steps := [];
    } else if i: nat :| i < |w.workers| && !w.workers[i].Idle? && w.workers[i].cmd == c {
      steps := FinishUp(i);
      HeldIsServed(codec, w, i, c);
    } else {
      steps := Detour(w, c);
      QueuedIsServed(codec, w, c);
    }
  }

  /** The first of 21 commands enqueued before any worker looks is out of reach. */
  lemma OvertakenCommandIsReachable(codec: Codec, workers: nat, payload: Payload)
    ensures Unreachable(codec, NextAll(codec, Empty(workers), Enqueues(payload, WINDOW + 1)), 0)
  {
    EnqueuesQueue(codec, Empty(workers), payload, WINDOW + 1);
  }

  /** So is a command whose worker crashed between marking and dispatching it. */
  lemma AbandonedCommandIsReachable(codec: Codec, payload: Payload)
    requires codec.parses(payload.params)
    ensures Unreachable(codec,
                        NextAll(codec, Empty(1), [Enqueue(payload, User("user")), Pop(0), Start(0), Crash(0)]), 0)
  {
    var e := Enqueue(payload, User("user"));
    var queued := Next(codec, Empty(1), e);
    assert PopQueued(queued.commands) == Some(0);
    var marked := Next(codec, Next(codec, queued, Pop(0)), Start(0));
    assert marked.commands[0].status == Running;
    NextAllAppend(codec, Empty(1), [], e);
    NextAllAppend(codec, Empty(1), [] + [e], Pop(0));
    NextAllAppend(codec, Empty(1), [] + [e] + [Pop(0)], Start(0));
    NextAllAppend(codec, Empty(1), [] + [e] + [Pop(0)] + [Start(0)], Crash(0));
    assert [] + [e] + [Pop(0)] + [Start(0)] + [Crash(0)] == [e, Pop(0), Start(0), Crash(0)];
  }

  /** The oldest queued command of the window has unreadable parameters and every worker is idle. */
  ghost predicate Jammed(codec: Codec, w: World, c: nat) {
    && PopQueued(w.commands) == Some(c) && c < |w.commands|
    && !codec.parses(w.commands[c].payload.params)
    && (forall i | 0 <= i < |w.workers| :: w.workers[i].Idle?)
  }

  /** One unreadable command in an empty system jams it. */
  lemma JamIsReachable(codec: Codec, workers: nat, payload: Payload)
    requires !codec.parses(payload.params)
    ensures Jammed(codec, NextAll(codec, Empty(workers), [Enqueue(payload, User("user"))]), 0)
  {
    NextAllAppend(codec, Empty(workers), [], Enqueue(payload, User("user")));
    assert [] + [Enqueue(payload, User("user"))] == [Enqueue(payload, User("user"))];
  }

  lemma StepKeepsJam(codec: Codec, w: World, s: Step, c: nat)
    requires Jammed(codec, w, c)
    ensures var v := Next(codec, w, s);
            && v.dispatched == w.dispatched
            && |w.commands| <= |v.commands|
            && (|v.commands| - c <= WINDOW ==> Jammed(codec, v, c))
  {
    OldestQueuedIsOldest(w.commands, WindowStart(|w.commands|));
    var v := Next(codec, w, s);
    JammedStepKeepsCommands(codec, w, s, c);
    if |v.commands| - c <= WINDOW {
      OldestQueuedIs(v.commands, WindowStart(|v.commands|), c);
    }
  }

  /** While jammed no worker leaves idle, so a step can only append rows. */
  lemma JammedStepKeepsCommands(codec: Codec, w: World, s: Step, c: nat)
    requires Jammed(codec, w, c)
    ensures var v := Next(codec, w, s);
            w.commands <= v.commands && v.dispatched == w.dispatched && v.workers == w.workers
  {
  }

  /**
   A command whose parameters are not valid JSON is never marked, so while it is the oldest queued row of
   the window nothing at all is dispatched, whatever is enqueued or approved behind it.
   */
  lemma {:induction false} UnreadableCommandJamsQueue(codec: Codec, w: World, steps: seq<Step>, c: nat)
    requires Jammed(codec, w, c)
    requires |NextAll(codec, w, steps).commands| - c <= WINDOW
    ensures Jammed(codec, NextAll(codec, w, steps), c)
    ensures NextAll(codec, w, steps).dispatched == w.dispatched
  {
    if steps != [] {
      var init := NextAll(codec, w, steps[..|steps| - 1]);
      CommandsOnlyGrow(codec, init, steps[|steps| - 1]);
      UnreadableCommandJamsQueue(codec, w, steps[..|steps| - 1], c);
      StepKeepsJam(codec, init, steps[|steps| - 1], c);
    }
  }

  lemma CommandsOnlyGrow(codec: Codec, w: World, s: Step)
    ensures |w.commands| <= |Next(codec, w, s).commands|
  {
  }
}
