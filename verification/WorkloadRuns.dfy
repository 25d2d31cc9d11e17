/** Whole runs of the workload generator: how the response handler leaves, what is completed by then, and that every
    fair run gets there. */
module WorkloadRuns {
  import opened Options
  import opened Workload

  // ----- how the handler leaves -----

  predicate Leaving(h: Handler) {
    h == TimedOut || h == HandlerDone
  }

  lemma {:induction false} RunSplit(cfg: Config, s: State, events: seq<Event>, k: nat)
    requires k <= |events| && Run(cfg, s, events).Some?
    ensures Run(cfg, s, events[..k]).Some?
    ensures Run(cfg, s, events) == Run(cfg, Run(cfg, s, events[..k]).value, events[k..])
    decreases k
  {
    if k == 0 {
      assert events[0..] == events && events[..0] == [];
    } else {
      var rest := events[1..];
      RunSplit(cfg, Step(cfg, s, events[0]).value, rest, k - 1);
      assert events[..k][1..] == rest[..k - 1] && events[k..] == rest[k - 1..];
    }
  }

  /** Without a wait that runs empty the handler does not come to leave. */
  lemma {:induction false} NoEmptyWaitNoExit(cfg: Config, s: State, events: seq<Event>)
    requires Run(cfg, s, events).Some? && !Leaving(s.handler) && Handle(TimeOut) !in events
    ensures !Leaving(Run(cfg, s, events).value.handler)
    decreases |events|
  {
    if events != [] {
      assert events[0] != Handle(TimeOut);
      NoEmptyWaitNoExit(cfg, Step(cfg, s, events[0]).value, events[1..]);
    }
  }

  /** After the last wait that ran empty, nothing is completed any more. */
  lemma {:induction false} NothingAfterLastWait(cfg: Config, s: State, events: seq<Event>)
    requires Run(cfg, s, events).Some? && Leaving(s.handler) && Handle(TimeOut) !in events
    requires Run(cfg, s, events).value.handler == HandlerDone
    ensures Run(cfg, s, events).value.completed == s.completed
    decreases |events|
  {
    if events != [] {
      var s' := Step(cfg, s, events[0]).value;
      assert events[0] != Handle(TimeOut);
      if !Leaving(s'.handler) {
        NoEmptyWaitNoExit(cfg, s', events[1..]);
      } else {
        NothingAfterLastWait(cfg, s', events[1..]);
      }
    }
  }

  lemma {:induction false} LastOccurrence(events: seq<Event>, e: Event) returns (k: nat)
    requires e in events
    ensures k < |events| && events[k] == e && e !in events[k + 1..]
  {
    k := |events| - 1;
    if events[k] != e {
      var front := events[..k];
      assert events == front + [events[k]];
      k := LastOccurrence(front, e);
      assert events[k + 1..] == front[k + 1..] + [events[|events| - 1]];
    }
  }

  /** What the counters say while the handler waits and no response is there. */
  lemma EmptyWait(cfg: Config, s: State)
    requires Inv(cfg, s) && s.handler == Waiting && s.responses == []
    ensures s.progress == s.completed + If(s.answered.Some?) && s.progress <= Total(cfg)
  {
    ProgressBound(cfg, s);
  }

  /** How a session ends.  All clients * rounds requests are completed when the handler leaves, if and only if at its
      last wait that ran empty the progress bar was full and no task was between moving the bar and putting its
      response.  A response that comes later stays unread. */
  lemma ExitCompletesIff(cfg: Config, events: seq<Event>) returns (k: nat)
    requires cfg.rounds >= 1 && Run(cfg, Init(cfg), events).Some?
    requires Run(cfg, Init(cfg), events).value.handler == HandlerDone
    ensures k < |events| && events[k] == Handle(TimeOut) && Handle(TimeOut) !in events[k + 1..]
    ensures Run(cfg, Init(cfg), events[..k]).Some?
    ensures var s, x := Run(cfg, Init(cfg), events[..k]).value, Run(cfg, Init(cfg), events).value;
            && (x.completed == Total(cfg) <==> s.progress == Total(cfg) && s.answered.None?)
            && x.completed + If(x.answered.Some?) + |x.responses| == Total(cfg)
  {
    if Handle(TimeOut) !in events {
      NoEmptyWaitNoExit(cfg, Init(cfg), events);
    }
    k := LastOccurrence(events, Handle(TimeOut));
    RunSplit(cfg, Init(cfg), events, k);
    var s := Run(cfg, Init(cfg), events[..k]).value;
    assert events[k..][0] == events[k] && events[k..][1..] == events[k + 1..];
    NothingAfterLastWait(cfg, Step(cfg, s, events[k]).value, events[k + 1..]);
    InitInv(cfg);
    RunKeepsInv(cfg, Init(cfg), events[..k]);
    RunKeepsInv(cfg, Init(cfg), events);
    EmptyWait(cfg, s);
  }

  // ----- infinite runs -----

  /** What happens at time i, possibly nothing, and the state before it. */
  datatype Execution = Execution(states: nat -> State, events: nat -> Option<Event>)

  ghost predicate Follows(cfg: Config, ex: Execution, i: nat) {
    match ex.events(i)
    case None => ex.states(i + 1) == ex.states(i)
    case Some(e) => Step(cfg, ex.states(i), e) == Some(ex.states(i + 1))
  }

  ghost predicate IsExecution(cfg: Config, ex: Execution) {
    cfg.rounds >= 1 && ex.states(0) == Init(cfg) && forall i: nat :: Follows(cfg, ex, i)
  }

  /** Who can be scheduled: the two threads, the answer of each request, and the task that has an answer to put. */
  datatype Agent = RequestLoop | ResponseHandler | Answer(client: Client) | Delivery

  ghost predicate Can(cfg: Config, s: State, a: Agent) {
    match a
    case RequestLoop => exists m :: SenderStep(cfg, s, m).Some?
    case ResponseHandler => exists m :: HandlerStep(cfg, s, m).Some?
    case Answer(c) => TaskStep(s, Respond(c)).Some?
    case Delivery => TaskStep(s, Deliver).Some?
  }

  predicate Acts(e: Option<Event>, a: Agent) {
    e.Some? &&
    match a
    case RequestLoop => e.value.Send?
    case ResponseHandler => e.value.Handle?
    case Answer(c) => e.value == Task(Respond(c))
    case Delivery => e.value == Task(Deliver)
  }

  ghost predicate Turn(cfg: Config, ex: Execution, a: Agent, j: nat) {
    Can(cfg, ex.states(j), a) ==> Acts(ex.events(j), a)
  }

  ghost predicate GetsATurn(cfg: Config, ex: Execution, a: Agent, i: nat) {
    exists j: nat :: j >= i && Turn(cfg, ex, a, j)
  }

  /** Weak fairness: whoever can act all the time from some time on acts. */
  ghost predicate Fair(cfg: Config, ex: Execution) {
    forall a: Agent, i: nat :: GetsATurn(cfg, ex, a, i)
  }

  lemma ActsEventually(cfg: Config, ex: Execution, a: Agent, i: nat) returns (j: nat)
    requires Fair(cfg, ex) && forall k: nat | k >= i :: Can(cfg, ex.states(k), a)
    ensures j >= i && Acts(ex.events(j), a)
  {
    assert GetsATurn(cfg, ex, a, i);
    j :| j >= i && Turn(cfg, ex, a, j);
  }

  /** The run that makes these steps and then repeats `tail` for ever. */
  ghost function Played(cfg: Config, events: seq<Event>, tail: Option<Event>): Execution
    requires cfg.rounds >= 1
  {
    Execution((i: nat) => StateAfter(cfg, events, i), (i: nat) => if i < |events| then Some(events[i]) else tail)
  }

  function StateAfter(cfg: Config, events: seq<Event>, i: nat): State
    requires cfg.rounds >= 1
  {
    var run := Run(cfg, Init(cfg), if i < |events| then events[..i] else events);
    if run.None? then Init(cfg) else run.value
  }

  lemma PlayedStep(cfg: Config, events: seq<Event>, i: nat)
    requires cfg.rounds >= 1 && Run(cfg, Init(cfg), events).Some? && i < |events|
    ensures Step(cfg, StateAfter(cfg, events, i), events[i]) == Some(StateAfter(cfg, events, i + 1))
  {
    var longer := events[..i + 1];
    RunSplit(cfg, Init(cfg), events, i + 1);
    RunSplit(cfg, Init(cfg), longer, i);
    assert longer[..i] == events[..i] && longer[i..] == [events[i]] && [events[i]][1..] == [];
    RunSplit(cfg, Init(cfg), events, i);
    assert i + 1 == |events| ==> longer == events;
  }

  /** Nobody but those who take part in the tail can act any more. */
  ghost predicate Settled(cfg: Config, x: State, tail: Option<Event>) {
    && (tail.Some? ==> Step(cfg, x, tail.value) == Some(x))
    && forall a: Agent :: Can(cfg, x, a) ==> Acts(tail, a)
  }

  /** A finite session that has settled is a fair run. */
  lemma SettledSessionIsFair(cfg: Config, events: seq<Event>, tail: Option<Event>)
    requires cfg.rounds >= 1 && Run(cfg, Init(cfg), events).Some?
    requires Settled(cfg, Run(cfg, Init(cfg), events).value, tail)
    ensures IsExecution(cfg, Played(cfg, events, tail)) && Fair(cfg, Played(cfg, events, tail))
  {
    var ex := Played(cfg, events, tail);
    forall i: nat
      ensures Follows(cfg, ex, i)
    {
      if i < |events| {
        PlayedStep(cfg, events, i);
      }
    }
    assert events[..0] == [];
    forall a: Agent, i: nat
      ensures GetsATurn(cfg, ex, a, i)
    {
      var j := i + |events|;
      assert Turn(cfg, ex, a, j);
    }
  }

  lemma {:induction false} InvAt(cfg: Config, ex: Execution, i: nat)
    requires IsExecution(cfg, ex)
    ensures Inv(cfg, ex.states(i))
  {
    if i == 0 {
      InitInv(cfg);
    } else {
      InvAt(cfg, ex, i - 1);
      assert Follows(cfg, ex, i - 1);
      if ex.events(i - 1).Some? {
        StepKeepsInv(cfg, ex.states(i - 1), ex.events(i - 1).value);
      }
    }
  }

  predicate ProductiveAt(ex: Execution, i: nat) {
    ex.events(i).Some? && Productive(ex.events(i).value)
  }

  lemma WorkAt(cfg: Config, ex: Execution, i: nat)
    requires IsExecution(cfg, ex)
    ensures Work(cfg, ex.states(i + 1)) == Work(cfg, ex.states(i)) - If(ProductiveAt(ex, i))
    ensures Work(cfg, ex.states(i)) >= 0
  {
    assert Follows(cfg, ex, i);
    InvAt(cfg, ex, i);
    NoWorkLeft(cfg, ex.states(i));
    if ex.events(i).Some? {
      StepWork(cfg, ex.states(i), ex.events(i).value);
    }
  }

  lemma {:induction false} WorkShrinks(cfg: Config, ex: Execution, i: nat, j: nat)
    requires IsExecution(cfg, ex) && i <= j
    ensures Work(cfg, ex.states(j)) <= Work(cfg, ex.states(i))
    decreases j
  {
    if i < j {
      WorkShrinks(cfg, ex, i, j - 1);
      WorkAt(cfg, ex, j - 1);
    }
  }

  /** From time n on no request gets on. */
  ghost predicate Calm(ex: Execution, n: nat) {
    forall j: nat | j >= n :: !ProductiveAt(ex, j)
  }

  /** Productive steps are used up at some time. */
  lemma {:induction false} CalmDown(cfg: Config, ex: Execution, i: nat) returns (n: nat)
    requires IsExecution(cfg, ex)
    ensures n >= i && Calm(ex, n)
    decreases Work(cfg, ex.states(i)) + (WorkAt(cfg, ex, i); 0)
  {
    WorkAt(cfg, ex, i);
    if j: nat :| j >= i && ProductiveAt(ex, j) {
      WorkShrinks(cfg, ex, i, j);
      WorkAt(cfg, ex, j);
      WorkAt(cfg, ex, j + 1);
      n := CalmDown(cfg, ex, j + 1);
    } else {
      n := i;
    }
  }

  // ----- when nothing gets on any more -----

  lemma IdleStep(cfg: Config, s: State, e: Event)
    requires Step(cfg, s, e).Some? && !Productive(e)
    ensures var s' := Step(cfg, s, e).value;
            s' == s.(sender := s'.sender, handler := s'.handler)
  {
  }

  /** Then only the places of the two threads change. */
  lemma {:induction false} CalmFrame(cfg: Config, ex: Execution, n: nat, j: nat)
    requires IsExecution(cfg, ex) && Calm(ex, n) && j >= n
    ensures ex.states(j) == ex.states(n).(sender := ex.states(j).sender, handler := ex.states(j).handler)
    decreases j
  {
    if j > n {
      CalmFrame(cfg, ex, n, j - 1);
      assert Follows(cfg, ex, j - 1) && !ProductiveAt(ex, j - 1);
      if ex.events(j - 1).Some? {
        IdleStep(cfg, ex.states(j - 1), ex.events(j - 1).value);
      }
    }
  }

  lemma NothingToDeliver(cfg: Config, ex: Execution, n: nat)
    requires IsExecution(cfg, ex) && Fair(cfg, ex) && Calm(ex, n)
    ensures ex.states(n).answered.None?
  {
    if ex.states(n).answered.Some? {
      forall k: nat | k >= n
        ensures Can(cfg, ex.states(k), Delivery)
      {
        CalmFrame(cfg, ex, n, k);
      }
      var j := ActsEventually(cfg, ex, Delivery, n);
      assert ProductiveAt(ex, j);
    }
  }

  lemma NothingInFlight(cfg: Config, ex: Execution, n: nat)
    requires IsExecution(cfg, ex) && Fair(cfg, ex) && Calm(ex, n)
    ensures ex.states(n).inFlight == multiset{}
  {
    NothingToDeliver(cfg, ex, n);
    if ex.states(n).inFlight != multiset{} {
      var c :| c in ex.states(n).inFlight;
      forall k: nat | k >= n
        ensures Can(cfg, ex.states(k), Answer(c))
      {
        CalmFrame(cfg, ex, n, k);
      }
      var j := ActsEventually(cfg, ex, Answer(c), n);
      assert ProductiveAt(ex, j);
    }
  }

  /** The handler can always go on until it has left. */
  lemma HandlerCan(cfg: Config, s: State)
    requires Inv(cfg, s) && s.handler != HandlerDone
    ensures Can(cfg, s, ResponseHandler)
  {
    if s.handler.Waiting? {
      assert HandlerStep(cfg, s, if s.responses == [] then TimeOut else Take).Some?;
    } else if s.handler.TimedOut? {
      assert HandlerStep(cfg, s, Settle).Some?;
    } else {
      assert PlacedAt(cfg, s, s.handler.client);
      BusyIsAClient(cfg, s, s.handler.client);
      if s.handler.Counted? {
        CandidatesSuffice(cfg, s);
      }
      assert HandlerStep(cfg, s, if s.handler.Taken? then Record else if s.handler.Recorded? then Count else Requeue).Some?;
    }
  }

  /** How many idle steps the handler can make while a response is there, or the progress bar is full. */
  function HandlerRank(s: State): nat {
    match s.handler
    case Waiting => if s.responses == [] then 2 else 0
    case TimedOut => 1
    case _ => 0
  }

  lemma HandlerRankStep(cfg: Config, s: State, e: Event)
    requires Step(cfg, s, e).Some? && !Productive(e) && (s.responses != [] || s.progress == Total(cfg) || Busy(s.handler).Some?)
    ensures HandlerRank(Step(cfg, s, e).value) == HandlerRank(s) - If(e.Handle?)
    ensures Busy(Step(cfg, s, e).value.handler) == Busy(s.handler)
  {
  }

  /** The situations in which the handler cannot idle for ever. */
  predicate Pressing(cfg: Config, s: State) {
    s.responses != [] || s.progress == Total(cfg) || Busy(s.handler).Some?
  }

  lemma {:induction false} HandlerRankShrinks(cfg: Config, ex: Execution, n: nat, i: nat, j: nat)
    requires IsExecution(cfg, ex) && Calm(ex, n) && n <= i <= j && Pressing(cfg, ex.states(i))
    ensures HandlerRank(ex.states(j)) <= HandlerRank(ex.states(i)) && Pressing(cfg, ex.states(j))
    decreases j
  {
    if i < j {
      HandlerRankShrinks(cfg, ex, n, i, j - 1);
      HandlerRankNext(cfg, ex, n, j - 1);
    }
  }

  lemma HandlerRankNext(cfg: Config, ex: Execution, n: nat, j: nat)
    requires IsExecution(cfg, ex) && Calm(ex, n) && n <= j && Pressing(cfg, ex.states(j))
    ensures HandlerRank(ex.states(j + 1))
            == HandlerRank(ex.states(j)) - If(ex.events(j).Some? && ex.events(j).value.Handle?)
    ensures Pressing(cfg, ex.states(j + 1))
  {
    assert Follows(cfg, ex, j) && !ProductiveAt(ex, j);
    if ex.events(j).Some? {
      IdleStep(cfg, ex.states(j), ex.events(j).value);
      HandlerRankStep(cfg, ex.states(j), ex.events(j).value);
    }
  }

  /** In such a situation the handler leaves. */
  lemma {:induction false} HandlerLeaves(cfg: Config, ex: Execution, n: nat, i: nat) returns (m: nat)
    requires IsExecution(cfg, ex) && Fair(cfg, ex) && Calm(ex, n) && i >= n && Pressing(cfg, ex.states(i))
    ensures m >= i && ex.states(m).handler == HandlerDone
    decreases HandlerRank(ex.states(i))
  {
    if k: nat :| k >= i && ex.states(k).handler == HandlerDone {
      m := k;
    } else {
      forall k: nat | k >= i
        ensures Can(cfg, ex.states(k), ResponseHandler)
      {
        InvAt(cfg, ex, k);
        HandlerCan(cfg, ex.states(k));
      }
      var j := ActsEventually(cfg, ex, ResponseHandler, i);
      HandlerRankShrinks(cfg, ex, n, i, j);
      HandlerRankNext(cfg, ex, n, j);
      m := HandlerLeaves(cfg, ex, n, j + 1);
    }
  }

  // ----- the request loop -----

  /** How many idle steps the request loop can make while a client is ready and there is room. */
  function SenderRank(s: State): nat {
    match s.sender
    case Deciding => 2
    case Checking => 1
    case _ => 0
  }

  /** A client is ready, and nothing keeps the request loop from popping it; or a request waits to be created. */
  predicate Sendable(cfg: Config, s: State) {
    && s.answered.None?
    && (s.sender.Creating?
        || (s.sender != SenderDone && s.ready != multiset{} && s.sent < s.completed + cfg.maxParallel && s.progress != Total(cfg)))
  }

  lemma SenderRankStep(cfg: Config, s: State, e: Event)
    requires Step(cfg, s, e).Some? && !Productive(e) && Sendable(cfg, s)
    ensures SenderRank(Step(cfg, s, e).value) == SenderRank(s) - If(e.Send?)
    ensures Sendable(cfg, Step(cfg, s, e).value)
  {
  }

  lemma SenderCan(cfg: Config, s: State)
    requires s.answered.None? && s.sender != SenderDone
    ensures Can(cfg, s, RequestLoop)
  {
    match s.sender
    case Checking => assert SenderStep(cfg, s, Check).Some?;
    case Popping =>
      if c :| c in s.ready {
        assert SenderStep(cfg, s, Pop(c)).Some?;
      } else {
        assert SenderStep(cfg, s, PopNothing).Some?;
      }
    case Creating(_) => assert SenderStep(cfg, s, Create).Some?;
    case Deciding => assert SenderStep(cfg, s, Decide).Some?;
  }

  lemma SenderRankNext(cfg: Config, ex: Execution, n: nat, j: nat)
    requires IsExecution(cfg, ex) && Calm(ex, n) && n <= j && Sendable(cfg, ex.states(j))
    ensures SenderRank(ex.states(j + 1)) == SenderRank(ex.states(j)) - If(ex.events(j).Some? && ex.events(j).value.Send?)
    ensures Sendable(cfg, ex.states(j + 1))
  {
    assert Follows(cfg, ex, j) && !ProductiveAt(ex, j);
    if ex.events(j).Some? {
      SenderRankStep(cfg, ex.states(j), ex.events(j).value);
    }
  }

  lemma {:induction false} SenderRankShrinks(cfg: Config, ex: Execution, n: nat, i: nat, j: nat)
    requires IsExecution(cfg, ex) && Calm(ex, n) && n <= i <= j && Sendable(cfg, ex.states(i))
    ensures SenderRank(ex.states(j)) <= SenderRank(ex.states(i)) && Sendable(cfg, ex.states(j))
    decreases j
  {
    if i < j {
      SenderRankShrinks(cfg, ex, n, i, j - 1);
      SenderRankNext(cfg, ex, n, j - 1);
    }
  }

  /** The request loop cannot idle for ever while there is something to send. */
  lemma {:induction false} NothingToSend(cfg: Config, ex: Execution, n: nat, i: nat)
    requires IsExecution(cfg, ex) && Fair(cfg, ex) && Calm(ex, n) && i >= n
    ensures !Sendable(cfg, ex.states(i))
    decreases SenderRank(ex.states(i))
  {
    if Sendable(cfg, ex.states(i)) {
      forall k: nat | k >= i
        ensures Can(cfg, ex.states(k), RequestLoop)
      {
        SenderRankShrinks(cfg, ex, n, i, k);
        SenderCan(cfg, ex.states(k));
      }
      var j := ActsEventually(cfg, ex, RequestLoop, i);
      SenderRankShrinks(cfg, ex, n, i, j);
      SenderRankNext(cfg, ex, n, j);
      NothingToSend(cfg, ex, n, j + 1);
    }
  }

  // ----- every fair run ends -----

  /** When nothing gets on any more and the handler has nothing to do, every request has been completed. */
  lemma CalmIsFull(cfg: Config, ex: Execution, n: nat)
    requires IsExecution(cfg, ex) && Fair(cfg, ex) && Calm(ex, n) && cfg.maxParallel >= 1
    ensures Pressing(cfg, ex.states(n))
  {
    var s := ex.states(n);
    InvAt(cfg, ex, n);
    NothingToDeliver(cfg, ex, n);
    NothingInFlight(cfg, ex, n);
    NothingToSend(cfg, ex, n, n);
    if !Pressing(cfg, s) {
      assert Quiet(s);
      CompletedBound(cfg, s);
      var c := QuietHasReady(cfg, s);
    }
  }

  /** Liveness: in every fair run the response handler leaves. */
  lemma FairRunsEnd(cfg: Config, ex: Execution) returns (m: nat)
    requires IsExecution(cfg, ex) && Fair(cfg, ex) && cfg.maxParallel >= 1
    ensures ex.states(m).handler == HandlerDone
  {
    var n := CalmDown(cfg, ex, 0);
    CalmIsFull(cfg, ex, n);
    m := HandlerLeaves(cfg, ex, n, n);
  }

  /** The events up to time i. */
  function Trace(ex: Execution, i: nat): seq<Event> {
    if i == 0 then [] else Trace(ex, i - 1) + if ex.events(i - 1).Some? then [ex.events(i - 1).value] else []
  }

  lemma {:induction false} TraceRuns(cfg: Config, ex: Execution, i: nat)
    requires IsExecution(cfg, ex)
    ensures Run(cfg, Init(cfg), Trace(ex, i)) == Some(ex.states(i))
  {
    if i > 0 {
      TraceRuns(cfg, ex, i - 1);
      assert Follows(cfg, ex, i - 1);
      if ex.events(i - 1).Some? {
        var e := ex.events(i - 1).value;
        RunAppend(cfg, Init(cfg), Trace(ex, i - 1), [e]);
        assert [e][1..] == [];
      } else {
        assert Trace(ex, i) == Trace(ex, i - 1);
      }
    }
  }

  /** Every fair run completes exactly clients * rounds requests and reads all responses, if and only if the handler's
      last wait ran empty with a full progress bar and no task between moving the bar and putting its response. */
  lemma FairRunsCompleteIff(cfg: Config, ex: Execution) returns (m: nat, k: nat)
    requires IsExecution(cfg, ex) && Fair(cfg, ex) && cfg.maxParallel >= 1
    ensures ex.states(m).handler == HandlerDone
    ensures k < |Trace(ex, m)| && Trace(ex, m)[k] == Handle(TimeOut) && Handle(TimeOut) !in Trace(ex, m)[k + 1..]
    ensures Run(cfg, Init(cfg), Trace(ex, m)[..k]).Some?
    ensures var s := Run(cfg, Init(cfg), Trace(ex, m)[..k]).value;
            && (ex.states(m).completed == Total(cfg) <==> s.progress == Total(cfg) && s.answered.None?)
            && ex.states(m).progress == Total(cfg)
  {
    m := FairRunsEnd(cfg, ex);
    TraceRuns(cfg, ex, m);
    k := ExitCompletesIff(cfg, Trace(ex, m));
    InvAt(cfg, ex, m);
  }

  // ----- whether the request loop ends as well -----

  /** Once the handler has left, the request loop in front of its parallelism check goes round for ever if as many
      responses are unread as may run in parallel. */
  predicate Hangs(cfg: Config, s: State) {
    s.handler == HandlerDone && s.sender == Checking && s.sent >= s.completed + cfg.maxParallel
  }

  lemma HangStep(cfg: Config, s: State, e: Event)
    requires Inv(cfg, s) && Hangs(cfg, s) && Step(cfg, s, e).Some?
    ensures Hangs(cfg, Step(cfg, s, e).value)
  {
  }

  /** A hanging session never ends, whatever the scheduler does. */
  lemma {:induction false} HangsForEver(cfg: Config, ex: Execution, i: nat, j: nat)
    requires IsExecution(cfg, ex) && i <= j && Hangs(cfg, ex.states(i))
    ensures Hangs(cfg, ex.states(j))
    decreases j
  {
    if i < j {
      HangsForEver(cfg, ex, i, j - 1);
      InvAt(cfg, ex, j - 1);
      assert Follows(cfg, ex, j - 1);
      if ex.events(j - 1).Some? {
        HangStep(cfg, ex.states(j - 1), ex.events(j - 1).value);
      }
    }
  }

  /** How many steps the request loop still makes after the handler has left. */
  function ExitRank(s: State): nat {
    match s.sender
    case Checking => 3
    case Popping => 2
    case Deciding => 1
    case _ => 0
  }

  lemma ExitStep(cfg: Config, s: State, e: Event)
    requires Inv(cfg, s) && s.handler == HandlerDone && Step(cfg, s, e).Some? && !Hangs(cfg, s)
    ensures var s' := Step(cfg, s, e).value;
            && s'.handler == HandlerDone && !Hangs(cfg, s')
            && ExitRank(s') == ExitRank(s) - If(e.Send?)
  {
    FullMeansNothingOpen(cfg, s);
    assert s.ready == multiset{} && s.inFlight == multiset{};
  }

  lemma {:induction false} ExitRankShrinks(cfg: Config, ex: Execution, i: nat, j: nat)
    requires IsExecution(cfg, ex) && i <= j && ex.states(i).handler == HandlerDone && !Hangs(cfg, ex.states(i))
    ensures ex.states(j).handler == HandlerDone && !Hangs(cfg, ex.states(j))
    ensures ExitRank(ex.states(j)) <= ExitRank(ex.states(i))
    decreases j
  {
    if i < j {
      ExitRankShrinks(cfg, ex, i, j - 1);
      ExitRankNext(cfg, ex, j - 1);
    }
  }

  lemma ExitRankNext(cfg: Config, ex: Execution, j: nat)
    requires IsExecution(cfg, ex) && ex.states(j).handler == HandlerDone && !Hangs(cfg, ex.states(j))
    ensures ex.states(j + 1).handler == HandlerDone && !Hangs(cfg, ex.states(j + 1))
    ensures ExitRank(ex.states(j + 1)) == ExitRank(ex.states(j)) - If(ex.events(j).Some? && ex.events(j).value.Send?)
  {
    InvAt(cfg, ex, j);
    assert Follows(cfg, ex, j);
    if ex.events(j).Some? {
      ExitStep(cfg, ex.states(j), ex.events(j).value);
    }
  }

  lemma {:induction false} SenderLeaves(cfg: Config, ex: Execution, n: nat, i: nat) returns (m: nat)
    requires IsExecution(cfg, ex) && Fair(cfg, ex) && Calm(ex, n) && i >= n
    requires ex.states(i).handler == HandlerDone && !Hangs(cfg, ex.states(i))
    ensures m >= i && ex.states(m).sender == SenderDone
    decreases ExitRank(ex.states(i))
  {
    if k: nat :| k >= i && ex.states(k).sender == SenderDone {
      m := k;
    } else {
      NothingToDeliver(cfg, ex, n);
      forall k: nat | k >= i
        ensures Can(cfg, ex.states(k), RequestLoop)
      {
        CalmFrame(cfg, ex, n, k);
        SenderCan(cfg, ex.states(k));
      }
      var j := ActsEventually(cfg, ex, RequestLoop, i);
      ExitRankShrinks(cfg, ex, i, j);
      ExitRankNext(cfg, ex, j);
      m := SenderLeaves(cfg, ex, n, j + 1);
    }
  }

  /** In a fair run the request loop ends too, if and only if it is not caught in front of its check when the handler
      leaves; it never is when every request has been completed. */
  lemma FairSenderEndsIff(cfg: Config, ex: Execution, i: nat)
    requires IsExecution(cfg, ex) && Fair(cfg, ex) && cfg.maxParallel >= 1 && ex.states(i).handler == HandlerDone
    ensures (exists m: nat :: m >= i && ex.states(m).sender == SenderDone) <==> !Hangs(cfg, ex.states(i))
    ensures ex.states(i).completed == Total(cfg) ==> !Hangs(cfg, ex.states(i))
  {
    InvAt(cfg, ex, i);
    FullMeansNothingOpen(cfg, ex.states(i));
    assert ex.states(i).inFlight == multiset{};
    if Hangs(cfg, ex.states(i)) {
      forall m: nat | m >= i
        ensures ex.states(m).sender != SenderDone
      {
        HangsForEver(cfg, ex, i, m);
      }
    } else {
      var n := CalmDown(cfg, ex, i);
      ExitRankShrinks(cfg, ex, i, n);
      var m := SenderLeaves(cfg, ex, n, n);
    }
  }

  // ----- one client, one round: a run of each kind -----

  lemma RunStep(cfg: Config, s: State, events: seq<Event>, e: Event, x: State, y: State)
    requires Run(cfg, s, events) == Some(x) && Step(cfg, x, e) == Some(y)
    ensures Run(cfg, s, events + [e]) == Some(y)
  {
    RunAppend(cfg, s, events, [e]);
    assert [e][1..] == [];
  }

  predicate OneRound(cfg: Config) {
    cfg.clients == 1 && cfg.rounds == 1 && cfg.maxParallel >= 1
  }

  /** The request is sent. */
  lemma RequestSent(cfg: Config) returns (events: seq<Event>, x: State)
    requires OneRound(cfg)
    ensures Run(cfg, Init(cfg), events) == Some(x)
    ensures x == Init(cfg).(ready := multiset{}, inFlight := multiset{0}, sent := 1)
  {
    var s := Init(cfg);
    assert s.ready == multiset{0};
    events := [Send(Check), Send(Pop(0)), Send(Create), Send(Decide)];
    x := s.(ready := s.ready - multiset{0}, inFlight := multiset{0}, sent := 1);
    LateStart(cfg, s, x);
  }

  /** The response is put, taken and recorded. */
  lemma ResponseHandled(cfg: Config, s: State, events: seq<Event>, x: State) returns (events': seq<Event>, y: State)
    requires OneRound(cfg) && Run(cfg, s, events) == Some(x) && |x.rounds| == 1 && x.rounds[0] == 0
    requires x.inFlight == multiset{0} && x.answered.None? && x.responses == [] && x.handler == Waiting && x.progress == 0
    ensures Run(cfg, s, events') == Some(y)
    ensures y == x.(inFlight := multiset{}, progress := 1, rounds := [1], completed := x.completed + 1)
  {
    var x1 := x.(inFlight := multiset{}, answered := Some(0), progress := 1);
    var x2 := x1.(answered := None, responses := [0]);
    var x3 := x2.(responses := [], handler := Taken(0));
    var x4 := x3.(rounds := [1], handler := Recorded(0));
    var x5 := x4.(completed := x.completed + 1, handler := Counted(0));
    y := x5.(handler := Waiting);
    assert x.inFlight - multiset{0} == multiset{} && x.responses + [0] == [0] && x.rounds[0 := 1] == [1];
    assert x2.responses[1..] == [];
    RunStep(cfg, s, events, Task(Respond(0)), x, x1);
    events' := events + [Task(Respond(0))];
    RunStep(cfg, s, events', Task(Deliver), x1, x2);
    events' := events' + [Task(Deliver)];
    RunStep(cfg, s, events', Handle(Take), x2, x3);
    events' := events' + [Handle(Take)];
    RunStep(cfg, s, events', Handle(Record), x3, x4);
    events' := events' + [Handle(Record)];
    RunStep(cfg, s, events', Handle(Count), x4, x5);
    events' := events' + [Handle(Count)];
    RunStep(cfg, s, events', Handle(Requeue), x5, y);
    events' := events' + [Handle(Requeue)];
  }

  /** With a full bar and an empty queue the handler leaves. */
  lemma HandlerExits(cfg: Config, s: State, events: seq<Event>, x: State) returns (events': seq<Event>, y: State)
    requires OneRound(cfg) && Run(cfg, s, events) == Some(x) && x.handler == Waiting && x.responses == [] && x.progress == 1
    ensures Run(cfg, s, events') == Some(y) && y == x.(handler := HandlerDone)
  {
    var x1 := x.(handler := TimedOut);
    y := x1.(handler := HandlerDone);
    RunStep(cfg, s, events, Handle(TimeOut), x, x1);
    events' := events + [Handle(TimeOut)];
    RunStep(cfg, s, events', Handle(Settle), x1, y);
    events' := events' + [Handle(Settle)];
  }

  /** With room and nobody ready the request loop leaves. */
  lemma SenderExits(cfg: Config, s: State, events: seq<Event>, x: State) returns (events': seq<Event>, y: State)
    requires OneRound(cfg) && Run(cfg, s, events) == Some(x) && x.sender == Checking && x.answered.None?
    requires x.ready == multiset{} && x.sent < x.completed + cfg.maxParallel && x.progress == 1
    ensures Run(cfg, s, events') == Some(y) && y == x.(sender := SenderDone)
  {
    var x1 := x.(sender := Popping);
    var x2 := x1.(sender := Deciding);
    y := x2.(sender := SenderDone);
    RunStep(cfg, s, events, Send(Check), x, x1);
    events' := events + [Send(Check)];
    RunStep(cfg, s, events', Send(PopNothing), x1, x2);
    events' := events' + [Send(PopNothing)];
    RunStep(cfg, s, events', Send(Decide), x2, y);
    events' := events' + [Send(Decide)];
  }

  lemma NobodyCanAct(cfg: Config, x: State)
    requires x.handler == HandlerDone && x.sender == SenderDone && x.answered.None? && x.inFlight == multiset{}
    ensures Settled(cfg, x, None)
  {
  }

  lemma PlayedState(cfg: Config, events: seq<Event>, tail: Option<Event>, x: State)
    requires cfg.rounds >= 1 && Run(cfg, Init(cfg), events) == Some(x)
    ensures Played(cfg, events, tail).states(|events|) == x
  {
  }

  /** A fair run that completes its request; both threads end. */
  lemma SomeRunCompletes() returns (cfg: Config, ex: Execution, n: nat)
    ensures cfg == Config(1, 1, 1) && IsExecution(cfg, ex) && Fair(cfg, ex)
    ensures ex.states(n).handler == HandlerDone && ex.states(n).sender == SenderDone && ex.states(n).completed == Total(cfg)
  {
    cfg := Config(1, 1, 1);
    var events, x := RequestSent(cfg);
    events, x := ResponseHandled(cfg, Init(cfg), events, x);
    events, x := HandlerExits(cfg, Init(cfg), events, x);
    events, x := SenderExits(cfg, Init(cfg), events, x);
    NobodyCanAct(cfg, x);
    SettledSessionIsFair(cfg, events, None);
    PlayedState(cfg, events, None, x);
    ex, n := Played(cfg, events, None), |events|;
  }

  /** The request is answered too late for the handler. */
  lemma ResponseMissed(cfg: Config) returns (events: seq<Event>, x: State)
    requires OneRound(cfg)
    ensures Run(cfg, Init(cfg), events) == Some(x)
    ensures x == Init(cfg).(ready := multiset{}, sent := 1, progress := 1, responses := [0], handler := HandlerDone)
  {
    var first, s := RequestSent(cfg);
    var second := [Handle(TimeOut), Task(Respond(0)), Task(Deliver), Handle(Settle)];
    LateEnd(cfg, s);
    RunAppend(cfg, Init(cfg), first, second);
    events, x := first + second, s.(inFlight := multiset{}, progress := 1, responses := [0], handler := HandlerDone);
  }

  /** A fair run that loses its response; with room for another request both threads end. */
  lemma SomeRunLosesAResponse() returns (cfg: Config, ex: Execution, n: nat)
    ensures cfg == Config(1, 1, 2) && IsExecution(cfg, ex) && Fair(cfg, ex)
    ensures ex.states(n).handler == HandlerDone && ex.states(n).sender == SenderDone
    ensures ex.states(n).completed == 0 < Total(cfg) && ex.states(n).responses == [0]
  {
    cfg := Config(1, 1, 2);
    var events, x := ResponseMissed(cfg);
    events, x := SenderExits(cfg, Init(cfg), events, x);
    NobodyCanAct(cfg, x);
    SettledSessionIsFair(cfg, events, None);
    PlayedState(cfg, events, None, x);
    ex, n := Played(cfg, events, None), |events|;
  }

  /** A fair run that loses its response and hangs: there is no room for another request. */
  lemma SomeRunHangs() returns (cfg: Config, ex: Execution, n: nat)
    ensures cfg == Config(1, 1, 1) && IsExecution(cfg, ex) && Fair(cfg, ex) && Hangs(cfg, ex.states(n))
  {
    cfg := Config(1, 1, 1);
    var events, x := ResponseMissed(cfg);
    SettledSessionIsFair(cfg, events, Some(Send(Check)));
    PlayedState(cfg, events, Some(Send(Check)), x);
    ex, n := Played(cfg, events, Some(Send(Check))), |events|;
  }
}
