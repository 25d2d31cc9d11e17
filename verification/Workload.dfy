/** The multi-turn workload generator as a protocol of two threads
    (Latent-GRPO/sglang_latent_reasoning_pkg/benchmark/hicache/bench_multiturn.py:192-331).

    The sender thread runs an event loop: its request loop and the request tasks take turns, and a task is not
    interrupted by the request loop between moving the progress bar and putting its response.  The handler
    thread interleaves freely with both.  Every request is answered successfully. */
module Workload {
  import opened Options

  type Client = nat

  datatype Config = Config(clients: nat, rounds: nat, maxParallel: nat)

  datatype Sender = Checking | Popping | Creating(client: Client) | Deciding | SenderDone
  datatype Handler = Waiting | Taken(client: Client) | Recorded(client: Client) | Counted(client: Client)
                   | TimedOut | HandlerDone

  /** `answered` is the task that has moved the progress bar and not yet put its response. */
  datatype State = State(
    ready: multiset<Client>, inFlight: multiset<Client>, answered: Option<Client>, responses: seq<Client>,
    rounds: seq<nat>, candidates: nat, sent: nat, completed: nat, progress: nat, sender: Sender, handler: Handler)

  datatype SenderMove = Check | Pop(client: Client) | PopNothing | Create | Decide
  datatype TaskMove = Respond(client: Client) | Deliver
  datatype HandlerMove = Take | TimeOut | Record | Count | Requeue | Settle

  /** One atomic step of the request loop, of a request task or of the response handler. */
  datatype Event = Send(send: SenderMove) | Task(task: TaskMove) | Handle(handle: HandlerMove)

  function Total(cfg: Config): nat {
    cfg.clients * cfg.rounds
  }

  function Everyone(n: nat): (m: multiset<Client>)
    ensures forall c: Client :: m[c] == if c < n then 1 else 0
  {
    if n == 0 then multiset{} else Everyone(n - 1) + multiset{n - 1}
  }

  function Init(cfg: Config): State
    requires cfg.rounds >= 1
  {
    State(Everyone(cfg.clients), multiset{}, None, [], seq(cfg.clients, _ => 0),
          (assert Total(cfg) >= cfg.clients; Total(cfg) - cfg.clients), 0, 0, 0, Checking, Waiting)
  }

  /** The request loop runs only when no task is in the middle of delivering. */
  function SenderStep(cfg: Config, s: State, e: SenderMove): Option<State> {
    if s.answered.Some? then None
    else
      match e
      case Check =>
        if s.sender != Checking then None
        else if s.sent < s.completed + cfg.maxParallel then Some(s.(sender := Popping)) else Some(s)
      case Pop(c) =>
        if s.sender != Popping || c !in s.ready then None
        else Some(s.(ready := s.ready - multiset{c}, sender := Creating(c)))
      case PopNothing =>
        if s.sender != Popping || s.ready != multiset{} then None else Some(s.(sender := Deciding))
      case Create =>
        if !s.sender.Creating? then None
        else Some(s.(inFlight := s.inFlight + multiset{s.sender.client}, sent := s.sent + 1, sender := Deciding))
      case Decide =>
        if s.sender != Deciding then None
        else Some(s.(sender := if s.progress == Total(cfg) then SenderDone else Checking))
  }

  function TaskStep(s: State, e: TaskMove): Option<State> {
    match e
    case Respond(c) =>
      if s.answered.Some? || c !in s.inFlight then None
      else Some(s.(inFlight := s.inFlight - multiset{c}, answered := Some(c), progress := s.progress + 1))
    case Deliver =>
      if s.answered.None? then None
      else Some(s.(answered := None, responses := s.responses + [s.answered.value]))
  }

  function HandlerStep(cfg: Config, s: State, e: HandlerMove): Option<State> {
    match e
    case Take =>
      if s.handler != Waiting || s.responses == [] then None
      else Some(s.(responses := s.responses[1..], handler := Taken(s.responses[0])))
    case TimeOut =>
      if s.handler != Waiting || s.responses != [] then None else Some(s.(handler := TimedOut))
    case Record =>
      if !s.handler.Taken? || s.handler.client >= |s.rounds| then None
      else
        var c := s.handler.client;
        Some(s.(rounds := s.rounds[c := s.rounds[c] + 1], handler := Recorded(c)))
    case Count =>
      if !s.handler.Recorded? then None
      else Some(s.(completed := s.completed + 1, handler := Counted(s.handler.client)))
    case Requeue =>
      if !s.handler.Counted? || s.handler.client >= |s.rounds| then None
      else
        var c := s.handler.client;
        if s.rounds[c] >= cfg.rounds then Some(s.(handler := Waiting))
        else if s.candidates == 0 then None
        else Some(s.(candidates := s.candidates - 1, ready := s.ready + multiset{c}, handler := Waiting))
    case Settle =>
      if s.handler != TimedOut then None
      else Some(s.(handler := if s.progress == Total(cfg) then HandlerDone else Waiting))
  }

  function Step(cfg: Config, s: State, e: Event): Option<State> {
    match e
    case Send(m) => SenderStep(cfg, s, m)
    case Task(m) => TaskStep(s, m)
    case Handle(m) => HandlerStep(cfg, s, m)
  }

  function Run(cfg: Config, s: State, events: seq<Event>): Option<State>
    decreases |events|
  {
    if events == [] then Some(s)
    else
      match Step(cfg, s, events[0])
      case None => None
      case Some(s') => Run(cfg, s', events[1..])
  }

  // ----- where the clients are -----

  function If(b: bool): nat {
    if b then 1 else 0
  }

  function Busy(h: Handler): Option<Client> {
    if h.Taken? || h.Recorded? || h.Counted? then Some(h.client) else None
  }

  /** The client whose round is recorded and who is not yet back in the ready queue. */
  function Returning(h: Handler): Option<Client> {
    if h.Recorded? || h.Counted? then Some(h.client) else None
  }

  /** How many requests of client c have moved the progress bar and are not yet recorded. */
  function DeliveredOf(s: State, c: Client): nat {
    If(s.answered == Some(c)) + multiset(s.responses)[c] + If(s.handler == Taken(c))
  }

  function Delivered(s: State): nat {
    If(s.answered.Some?) + |s.responses| + If(s.handler.Taken?)
  }

  /** How often client c occurs in all the places a client can be in. */
  function Places(s: State, c: Client): nat {
    s.ready[c] + If(s.sender == Creating(c)) + s.inFlight[c] + If(s.answered == Some(c))
    + multiset(s.responses)[c] + If(Busy(s.handler) == Some(c))
  }

  function Sum(xs: seq<nat>): nat {
    if xs == [] then 0 else Sum(xs[..|xs| - 1]) + xs[|xs| - 1]
  }

  /** Rounds done that were or will be followed by another prompt of the same client. */
  function Followed(xs: seq<nat>, cap: nat): nat {
    if xs == [] then 0
    else Followed(xs[..|xs| - 1], cap) + if xs[|xs| - 1] < cap then xs[|xs| - 1] else cap
  }

  function PromptOwed(cfg: Config, s: State): nat {
    match Returning(s.handler)
    case None => 0
    case Some(c) => If(c < |s.rounds| && s.rounds[c] < cfg.rounds)
  }

  /** A client is in at most one place, and nowhere exactly when its rounds are done. */
  predicate PlacedAt(cfg: Config, s: State, c: Client) {
    && Places(s, c) <= 1
    && (c >= |s.rounds| ==> Places(s, c) == 0)
    && (c < |s.rounds| ==>
          s.rounds[c] <= cfg.rounds
          && (Places(s, c) == 1 <==> s.rounds[c] < cfg.rounds || Returning(s.handler) == Some(c)))
  }

  ghost predicate Placed(cfg: Config, s: State) {
    |s.rounds| == cfg.clients && forall c: Client :: PlacedAt(cfg, s, c)
  }

  /** What the shared counters count. */
  predicate Counts(cfg: Config, s: State) {
    && s.completed + If(s.handler.Recorded?) == Sum(s.rounds)
    && s.progress == Sum(s.rounds) + Delivered(s)
    && s.sent == s.progress + |s.inFlight|
  }

  predicate Prompts(cfg: Config, s: State) {
    && cfg.rounds >= 1
    && s.candidates + Followed(s.rounds, cfg.rounds - 1) == cfg.clients * (cfg.rounds - 1) + PromptOwed(cfg, s)
  }

  /** What the two threads have checked. */
  predicate Controls(cfg: Config, s: State) {
    && s.sent - s.completed <= cfg.maxParallel
    && (s.sender.Popping? || s.sender.Creating? ==> s.sent - s.completed < cfg.maxParallel)
    && (s.sender == SenderDone || s.handler == HandlerDone ==> s.progress == Total(cfg))
  }

  /** The invariant of every interleaving. */
  ghost predicate Inv(cfg: Config, s: State) {
    Placed(cfg, s) && Counts(cfg, s) && Prompts(cfg, s) && Controls(cfg, s)
  }

  // ----- counting -----

  lemma {:induction false} SumUpdate(xs: seq<nat>, c: nat, v: nat)
    requires c < |xs|
    ensures Sum(xs[c := v]) == Sum(xs) - xs[c] + v
  {
    var front := xs[..|xs| - 1];
    if c == |xs| - 1 {
      assert xs[c := v][..|xs| - 1] == front;
    } else {
      SumUpdate(front, c, v);
      assert xs[c := v][..|xs| - 1] == front[c := v];
    }
  }

  function Capped(x: nat, cap: nat): nat {
    if x < cap then x else cap
  }

  lemma {:induction false} FollowedUpdate(xs: seq<nat>, c: nat, v: nat, cap: nat)
    requires c < |xs|
    ensures Followed(xs[c := v], cap) == Followed(xs, cap) - Capped(xs[c], cap) + Capped(v, cap)
  {
    var front := xs[..|xs| - 1];
    if c == |xs| - 1 {
      assert xs[c := v][..|xs| - 1] == front;
    } else {
      FollowedUpdate(front, c, v, cap);
      assert xs[c := v][..|xs| - 1] == front[c := v];
    }
  }

  lemma {:induction false} FollowedBound(xs: seq<nat>, cap: nat)
    ensures Followed(xs, cap) <= |xs| * cap
  {
    if xs != [] {
      FollowedBound(xs[..|xs| - 1], cap);
      assert |xs| * cap == (|xs| - 1) * cap + cap;
    }
  }

  lemma {:induction false} ZeroSums(xs: seq<nat>, cap: nat)
    requires forall i | 0 <= i < |xs| :: xs[i] == 0
    ensures Sum(xs) == 0 && Followed(xs, cap) == 0
  {
    if xs != [] {
      ZeroSums(xs[..|xs| - 1], cap);
    }
  }

  lemma CardinalityWithout(m: multiset<Client>, n: Client)
    ensures |m| == |m[n := 0]| + m[n]
  {
    var copies := multiset{}[n := m[n]];
    assert m == m[n := 0] + copies;
  }

  lemma Rows(n: nat, r: nat)
    ensures (n + 1) * r == n * r + r
  {
  }

  lemma EmptyBag(m: multiset<Client>)
    requires forall c: Client :: m[c] == 0
    ensures |m| == 0
  {
    assert m == multiset{};
  }

  /** If each client has at most r rounds done or delivered, there are at most n * r in all. */
  lemma {:induction false} RoundsBound(xs: seq<nat>, m: multiset<Client>, r: nat)
    requires forall c: Client | c >= |xs| :: m[c] == 0
    requires forall c: Client | c < |xs| :: xs[c] + m[c] <= r
    ensures Sum(xs) + |m| <= |xs| * r
  {
    if xs == [] {
      EmptyBag(m);
    } else {
      var n := |xs| - 1;
      CardinalityWithout(m, n);
      RoundsBound(xs[..n], m[n := 0], r);
      Rows(n, r);
    }
  }

  /** If the bound is met, every client meets its own. */
  lemma {:induction false} RoundsFull(xs: seq<nat>, m: multiset<Client>, r: nat, c: Client)
    requires forall c: Client | c >= |xs| :: m[c] == 0
    requires forall c: Client | c < |xs| :: xs[c] + m[c] <= r
    requires Sum(xs) + |m| == |xs| * r && c < |xs|
    ensures xs[c] + m[c] == r
  {
    var n := |xs| - 1;
    CardinalityWithout(m, n);
    RoundsBound(xs[..n], m[n := 0], r);
    Rows(n, r);
    if c < n {
      RoundsFull(xs[..n], m[n := 0], r, c);
    }
  }

  // ----- every step keeps the invariant: where the clients are -----

  lemma FirstTaken(responses: seq<Client>, c: Client)
    requires responses != []
    ensures multiset(responses)[c] == multiset(responses[1..])[c] + If(responses[0] == c)
  {
    assert responses == [responses[0]] + responses[1..];
  }

  lemma SenderPlaces(cfg: Config, s: State, e: SenderMove, c: Client)
    requires SenderStep(cfg, s, e).Some?
    ensures Places(SenderStep(cfg, s, e).value, c) == Places(s, c)
  {
  }

  lemma TaskPlaces(s: State, e: TaskMove, c: Client)
    requires TaskStep(s, e).Some?
    ensures Places(TaskStep(s, e).value, c) == Places(s, c)
  {
  }

  /** A client with all rounds done leaves; nothing else is lost or duplicated. */
  lemma HandlerPlaces(cfg: Config, s: State, e: HandlerMove, c: Client)
    requires HandlerStep(cfg, s, e).Some?
    ensures Places(HandlerStep(cfg, s, e).value, c)
            == Places(s, c) - If(e.Requeue? && s.handler == Counted(c) && s.rounds[c] >= cfg.rounds)
  {
    if e.Take? {
      FirstTaken(s.responses, c);
    }
  }

  lemma StepPlacedAt(cfg: Config, s: State, e: Event, c: Client)
    requires PlacedAt(cfg, s, c) && Step(cfg, s, e).Some?
    ensures PlacedAt(cfg, Step(cfg, s, e).value, c)
  {
    match e
    case Send(m) => SenderPlaces(cfg, s, m, c);
    case Task(m) => TaskPlaces(s, m, c);
    case Handle(m) => HandlerPlacedAt(cfg, s, m, c);
  }

  lemma HandlerPlacedAt(cfg: Config, s: State, m: HandlerMove, c: Client)
    requires PlacedAt(cfg, s, c) && HandlerStep(cfg, s, m).Some?
    ensures PlacedAt(cfg, HandlerStep(cfg, s, m).value, c)
  {
    HandlerPlaces(cfg, s, m, c);
  }

  lemma StepPlaced(cfg: Config, s: State, e: Event)
    requires Placed(cfg, s) && Step(cfg, s, e).Some?
    ensures Placed(cfg, Step(cfg, s, e).value)
  {
    forall c: Client
      ensures PlacedAt(cfg, Step(cfg, s, e).value, c)
    {
      StepPlacedAt(cfg, s, e, c);
    }
  }

  // ----- every step keeps the invariant: what the counters count -----

  lemma BusyIsAClient(cfg: Config, s: State, c: Client)
    requires PlacedAt(cfg, s, c) && Busy(s.handler) == Some(c)
    ensures c < |s.rounds| && (s.handler.Taken? ==> s.rounds[c] < cfg.rounds)
  {
  }

  lemma StepCounts(cfg: Config, s: State, e: Event)
    requires Counts(cfg, s) && Step(cfg, s, e).Some?
    ensures Counts(cfg, Step(cfg, s, e).value)
  {
    match e
    case Send(m) => SenderCounts(cfg, s, m);
    case Task(m) => TaskCounts(cfg, s, m);
    case Handle(m) => HandlerCounts(cfg, s, m);
  }

  lemma SenderCounts(cfg: Config, s: State, m: SenderMove)
    requires Counts(cfg, s) && SenderStep(cfg, s, m).Some?
    ensures Counts(cfg, SenderStep(cfg, s, m).value)
  {
  }

  lemma TaskCounts(cfg: Config, s: State, m: TaskMove)
    requires Counts(cfg, s) && TaskStep(s, m).Some?
    ensures Counts(cfg, TaskStep(s, m).value)
  {
  }

  lemma HandlerCounts(cfg: Config, s: State, m: HandlerMove)
    requires Counts(cfg, s) && HandlerStep(cfg, s, m).Some?
    ensures Counts(cfg, HandlerStep(cfg, s, m).value)
  {
    if m.Record? {
      SumUpdate(s.rounds, s.handler.client, s.rounds[s.handler.client] + 1);
    }
  }

  lemma StepPrompts(cfg: Config, s: State, e: Event)
    requires Prompts(cfg, s) && Placed(cfg, s) && Step(cfg, s, e).Some?
    ensures Prompts(cfg, Step(cfg, s, e).value)
  {
    match e
    case Send(m) =>
    case Task(m) =>
    case Handle(m) =>
      if m.Record? {
        assert PlacedAt(cfg, s, s.handler.client);
        RecordPrompts(cfg, s);
      } else {
        QuietPrompts(cfg, s, m);
      }
  }

  lemma RecordPrompts(cfg: Config, s: State)
    requires Prompts(cfg, s) && s.handler.Taken? && PlacedAt(cfg, s, s.handler.client)
    requires HandlerStep(cfg, s, Record).Some?
    ensures Prompts(cfg, HandlerStep(cfg, s, Record).value)
  {
    var c := s.handler.client;
    BusyIsAClient(cfg, s, c);
    FollowedUpdate(s.rounds, c, s.rounds[c] + 1, cfg.rounds - 1);
  }

  lemma QuietPrompts(cfg: Config, s: State, m: HandlerMove)
    requires Prompts(cfg, s) && HandlerStep(cfg, s, m).Some? && !m.Record?
    ensures Prompts(cfg, HandlerStep(cfg, s, m).value)
  {
  }

  // ----- every step keeps the invariant: what the threads have checked -----

  ghost function DeliveredBag(s: State): multiset<Client> {
    (if s.answered.Some? then multiset{s.answered.value} else multiset{}) + multiset(s.responses)
    + (if s.handler.Taken? then multiset{s.handler.client} else multiset{})
  }

  lemma BagOf(s: State, c: Client)
    ensures DeliveredBag(s)[c] == DeliveredOf(s, c)
  {
  }

  lemma BagSize(s: State)
    ensures |DeliveredBag(s)| == Delivered(s)
  {
  }

  lemma DeliveredFits(cfg: Config, s: State, c: Client)
    requires PlacedAt(cfg, s, c)
    ensures DeliveredOf(s, c) <= Places(s, c)
    ensures c < |s.rounds| ==> s.rounds[c] + DeliveredOf(s, c) <= cfg.rounds
  {
  }

  lemma BagFits(cfg: Config, s: State)
    requires Placed(cfg, s)
    ensures forall c: Client | c >= |s.rounds| :: DeliveredBag(s)[c] == 0
    ensures forall c: Client | c < |s.rounds| :: s.rounds[c] + DeliveredBag(s)[c] <= cfg.rounds
  {
    forall c: Client
      ensures c >= |s.rounds| ==> DeliveredBag(s)[c] == 0
      ensures c < |s.rounds| ==> s.rounds[c] + DeliveredBag(s)[c] <= cfg.rounds
    {
      BagOf(s, c);
      assert PlacedAt(cfg, s, c);
      DeliveredFits(cfg, s, c);
    }
  }

  /** The progress bar never runs past the end. */
  lemma ProgressBound(cfg: Config, s: State)
    requires Placed(cfg, s) && Counts(cfg, s)
    ensures s.progress <= Total(cfg)
  {
    BagFits(cfg, s);
    BagSize(s);
    RoundsBound(s.rounds, DeliveredBag(s), cfg.rounds);
  }

  /** When it is full, every client's rounds are done or delivered. */
  lemma FullProgress(cfg: Config, s: State, c: Client)
    requires Placed(cfg, s) && Counts(cfg, s) && s.progress == Total(cfg) && c < |s.rounds|
    ensures s.rounds[c] + DeliveredOf(s, c) == cfg.rounds
  {
    BagFits(cfg, s);
    BagSize(s);
    BagOf(s, c);
    RoundsFull(s.rounds, DeliveredBag(s), cfg.rounds, c);
  }

  lemma DeliveredIsNotElsewhere(cfg: Config, s: State, c: Client)
    requires PlacedAt(cfg, s, c)
    requires c < |s.rounds| ==> s.rounds[c] + DeliveredOf(s, c) == cfg.rounds
    ensures c !in s.ready && c !in s.inFlight && s.sender != Creating(c)
  {
  }

  /** When the progress bar is full, nothing is ready, held or in flight. */
  lemma FullMeansNothingOpen(cfg: Config, s: State)
    requires Placed(cfg, s) && Counts(cfg, s) && s.progress == Total(cfg)
    ensures forall c: Client :: c !in s.ready && c !in s.inFlight && s.sender != Creating(c)
  {
    forall c: Client
      ensures c !in s.ready && c !in s.inFlight && s.sender != Creating(c)
    {
      if c < |s.rounds| {
        FullProgress(cfg, s, c);
      }
      assert PlacedAt(cfg, s, c);
      DeliveredIsNotElsewhere(cfg, s, c);
    }
  }

  lemma StepControls(cfg: Config, s: State, e: Event)
    requires Placed(cfg, s) && Counts(cfg, s) && Controls(cfg, s) && Step(cfg, s, e).Some?
    ensures Controls(cfg, Step(cfg, s, e).value)
  {
    match e
    case Send(m) =>
      assert SenderStep(cfg, s, m).value.progress == s.progress;
    case Task(m) =>
      if s.progress == Total(cfg) {
        FullMeansNothingOpen(cfg, s);
      }
    case Handle(m) =>
  }

  // ----- the invariant over every run -----

  lemma InitPlaced(cfg: Config, c: Client)
    requires cfg.rounds >= 1
    ensures PlacedAt(cfg, Init(cfg), c)
  {
    assert Everyone(cfg.clients)[c] == If(c < cfg.clients);
  }

  lemma InitCounters(cfg: Config)
    requires cfg.rounds >= 1
    ensures Counts(cfg, Init(cfg)) && Prompts(cfg, Init(cfg))
  {
    ZeroSums(Init(cfg).rounds, cfg.rounds - 1);
    assert Total(cfg) - cfg.clients == cfg.clients * (cfg.rounds - 1);
  }

  lemma InitInv(cfg: Config)
    requires cfg.rounds >= 1
    ensures Inv(cfg, Init(cfg))
  {
    forall c: Client
      ensures PlacedAt(cfg, Init(cfg), c)
    {
      InitPlaced(cfg, c);
    }
    InitCounters(cfg);
  }

  /** Every step of either thread keeps the invariant. */
  lemma StepKeepsInv(cfg: Config, s: State, e: Event)
    requires Inv(cfg, s) && Step(cfg, s, e).Some?
    ensures Inv(cfg, Step(cfg, s, e).value)
  {
    StepPlaced(cfg, s, e);
    StepCounts(cfg, s, e);
    StepPrompts(cfg, s, e);
    StepControls(cfg, s, e);
  }

  lemma {:induction false} RunKeepsInv(cfg: Config, s: State, events: seq<Event>)
    requires Inv(cfg, s) && Run(cfg, s, events).Some?
    ensures Inv(cfg, Run(cfg, s, events).value)
    decreases |events|
  {
    if events != [] {
      StepKeepsInv(cfg, s, events[0]);
      RunKeepsInv(cfg, Step(cfg, s, events[0]).value, events[1..]);
    }
  }

  // ----- what the invariant means -----

  /** A prompt that is owed can always be taken from the candidates: the pop never meets an empty list, so the
      handler never stops between counting a response and waiting for the next one. */
  lemma CandidatesSuffice(cfg: Config, s: State)
    requires Inv(cfg, s) && s.handler.Counted?
    ensures s.handler.client < |s.rounds|
    ensures s.rounds[s.handler.client] < cfg.rounds ==> s.candidates >= 1
  {
    var c := s.handler.client;
    assert PlacedAt(cfg, s, c);
    BusyIsAClient(cfg, s, c);
    FollowedBound(s.rounds, cfg.rounds - 1);
  }

  /** In every interleaving: at most maxParallel requests are sent and not completed, and every client is in
      exactly one place until its last round is handled, then in none. */
  lemma RunIsSafe(cfg: Config, events: seq<Event>, c: Client)
    requires cfg.rounds >= 1 && Run(cfg, Init(cfg), events).Some?
    ensures var s := Run(cfg, Init(cfg), events).value;
            && s.completed <= s.sent <= s.completed + cfg.maxParallel
            && s.progress <= Total(cfg) && |s.rounds| == cfg.clients
            && (c < cfg.clients ==> s.rounds[c] <= cfg.rounds)
            && Places(s, c) == If(c < cfg.clients && (s.rounds[c] < cfg.rounds || Returning(s.handler) == Some(c)))
  {
    var s := Run(cfg, Init(cfg), events).value;
    InitInv(cfg);
    RunKeepsInv(cfg, Init(cfg), events);
    assert PlacedAt(cfg, s, c);
    ProgressBound(cfg, s);
    if c >= cfg.clients && Returning(s.handler) == Some(c) {
      BusyIsAClient(cfg, s, c);
    }
  }

  // ----- progress -----

  /** The steps by which a request gets on.  A round of a client takes eight of them. */
  predicate Productive(e: Event) {
    match e
    case Send(m) => m.Pop? || m.Create?
    case Task(m) => true
    case Handle(m) => m.Take? || m.Record? || m.Count? || m.Requeue?
  }

  function Productives(events: seq<Event>): nat {
    if events == [] then 0 else If(Productive(events[0])) + Productives(events[1..])
  }

  /** How many of the productive steps of a whole session are still to come. */
  function Work(cfg: Config, s: State): int {
    8 * (Total(cfg) - Sum(s.rounds)) - If(s.sender.Creating?) - 2 * |s.inFlight| - 3 * If(s.answered.Some?)
    - 4 * |s.responses| - 5 * If(s.handler.Taken?) + 2 * If(s.handler.Recorded?) + If(s.handler.Counted?)
  }

  lemma StepWork(cfg: Config, s: State, e: Event)
    requires Step(cfg, s, e).Some?
    ensures Work(cfg, Step(cfg, s, e).value) == Work(cfg, s) - If(Productive(e))
  {
    match e
    case Send(m) => SenderWork(cfg, s, m);
    case Task(m) => TaskWork(cfg, s, m);
    case Handle(m) => HandlerWork(cfg, s, m);
  }

  lemma SenderWork(cfg: Config, s: State, m: SenderMove)
    requires SenderStep(cfg, s, m).Some?
    ensures Work(cfg, SenderStep(cfg, s, m).value) == Work(cfg, s) - If(Productive(Send(m)))
  {
  }

  lemma TaskWork(cfg: Config, s: State, m: TaskMove)
    requires TaskStep(s, m).Some?
    ensures Work(cfg, TaskStep(s, m).value) == Work(cfg, s) - If(Productive(Task(m)))
  {
  }

  lemma HandlerWork(cfg: Config, s: State, m: HandlerMove)
    requires HandlerStep(cfg, s, m).Some?
    ensures Work(cfg, HandlerStep(cfg, s, m).value) == Work(cfg, s) - If(Productive(Handle(m)))
  {
    if m.Record? {
      SumUpdate(s.rounds, s.handler.client, s.rounds[s.handler.client] + 1);
    }
  }

  /** No productive step is wasted: every interleaving of a session does each of them once. */
  lemma {:induction false} RunWork(cfg: Config, s: State, events: seq<Event>)
    requires Run(cfg, s, events).Some?
    ensures Work(cfg, Run(cfg, s, events).value) + Productives(events) == Work(cfg, s)
    decreases |events|
  {
    if events != [] {
      StepWork(cfg, s, events[0]);
      RunWork(cfg, Step(cfg, s, events[0]).value, events[1..]);
    }
  }

  /** No work is left exactly when every request is completed. */
  lemma NoWorkLeft(cfg: Config, s: State)
    requires Inv(cfg, s)
    ensures Work(cfg, s) >= 0
    ensures Work(cfg, s) == 0 <==> s.completed == Total(cfg) && !s.handler.Counted?
  {
    ProgressBound(cfg, s);
    HeldHasRoom(cfg, s);
  }

  /** A client held by the sender has a round to go, so the progress bar is not full. */
  lemma HeldHasRoom(cfg: Config, s: State)
    requires Placed(cfg, s) && Counts(cfg, s)
    ensures s.progress + |s.inFlight| + If(s.sender.Creating?) <= Total(cfg)
  {
    OpenFits(cfg, s);
    OpenSize(s);
    RoundsBound(s.rounds, OpenBag(s), cfg.rounds);
  }

  ghost function OpenBag(s: State): multiset<Client> {
    DeliveredBag(s) + s.inFlight + (if s.sender.Creating? then multiset{s.sender.client} else multiset{})
  }

  lemma OpenSize(s: State)
    ensures |OpenBag(s)| == Delivered(s) + |s.inFlight| + If(s.sender.Creating?)
  {
    BagSize(s);
  }

  lemma OpenFitsAt(cfg: Config, s: State, c: Client)
    requires PlacedAt(cfg, s, c)
    ensures c >= |s.rounds| ==> OpenBag(s)[c] == 0
    ensures c < |s.rounds| ==> s.rounds[c] + OpenBag(s)[c] <= cfg.rounds
  {
    BagOf(s, c);
    assert OpenBag(s)[c] == DeliveredOf(s, c) + s.inFlight[c] + If(s.sender == Creating(c));
  }

  lemma OpenFits(cfg: Config, s: State)
    requires Placed(cfg, s)
    ensures forall c: Client | c >= |s.rounds| :: OpenBag(s)[c] == 0
    ensures forall c: Client | c < |s.rounds| :: s.rounds[c] + OpenBag(s)[c] <= cfg.rounds
  {
    forall c: Client
      ensures c >= |s.rounds| ==> OpenBag(s)[c] == 0
      ensures c < |s.rounds| ==> s.rounds[c] + OpenBag(s)[c] <= cfg.rounds
    {
      assert PlacedAt(cfg, s, c);
      OpenFitsAt(cfg, s, c);
    }
  }

  lemma RunCons(cfg: Config, s: State, e: Event, rest: seq<Event>)
    requires Step(cfg, s, e).Some?
    ensures Run(cfg, s, [e] + rest) == Run(cfg, Step(cfg, s, e).value, rest)
    ensures Productives([e] + rest) == If(Productive(e)) + Productives(rest)
  {
    assert ([e] + rest)[1..] == rest;
  }

  lemma OneStep(cfg: Config, s: State, e: Event) returns (events: seq<Event>)
    requires Step(cfg, s, e).Some? && Productive(e)
    ensures |events| == 1 && Run(cfg, s, events).Some? && Productives(events) == 1
  {
    RunCons(cfg, s, e, []);
    events := [e] + [];
  }

  lemma FirstThen(cfg: Config, s: State, e: Event, rest: seq<Event>) returns (events: seq<Event>)
    requires Step(cfg, s, e).Some? && !Productive(e)
    requires Run(cfg, Step(cfg, s, e).value, rest).Some? && Productives(rest) == 1
    ensures |events| == |rest| + 1 && Run(cfg, s, events).Some? && Productives(events) == 1
  {
    RunCons(cfg, s, e, rest);
    events := [e] + rest;
  }

  lemma {:induction false} SomeoneIsBehind(xs: seq<nat>, r: nat) returns (c: Client)
    requires Sum(xs) < |xs| * r
    ensures c < |xs| && xs[c] < r
  {
    c := |xs| - 1;
    Rows(c, r);
    if xs[c] >= r {
      c := SomeoneIsBehind(xs[..c], r);
    }
  }

  /** Nothing is on its way: no request is held, in flight, delivered or being handled. */
  predicate Quiet(s: State) {
    && s.answered.None? && s.responses == [] && s.inFlight == multiset{} && !s.sender.Creating?
    && Busy(s.handler).None?
  }

  lemma QuietHasReady(cfg: Config, s: State) returns (c: Client)
    requires Inv(cfg, s) && Quiet(s) && s.completed < Total(cfg)
    ensures c in s.ready && s.sent == s.completed == s.progress
  {
    c := SomeoneIsBehind(s.rounds, cfg.rounds);
    assert PlacedAt(cfg, s, c);
  }

  lemma PopReady(cfg: Config, s: State, c: Client) returns (events: seq<Event>)
    requires s.answered.None? && c in s.ready && s.sender.Popping?
    ensures |events| == 1 && Run(cfg, s, events).Some? && Productives(events) == 1
  {
    events := OneStep(cfg, s, Send(Pop(c)));
  }

  lemma QuietMoves(cfg: Config, s: State) returns (events: seq<Event>)
    requires Inv(cfg, s) && cfg.maxParallel >= 1 && Quiet(s) && s.completed < Total(cfg)
    ensures |events| <= 3 && Run(cfg, s, events).Some? && Productives(events) == 1
  {
    var c := QuietHasReady(cfg, s);
    if s.sender.Popping? {
      events := PopReady(cfg, s, c);
    } else {
      var checking := s.(sender := Checking);
      events := PopReady(cfg, s.(sender := Popping), c);
      events := FirstThen(cfg, checking, Send(Check), events);
      if s.sender.Deciding? {
        events := FirstThen(cfg, s, Send(Decide), events);
      }
    }
  }

  lemma HandlerMoves(cfg: Config, s: State) returns (events: seq<Event>)
    requires Inv(cfg, s) && Busy(s.handler).Some?
    ensures |events| == 1 && Run(cfg, s, events).Some? && Productives(events) == 1
  {
    var c := s.handler.client;
    assert PlacedAt(cfg, s, c);
    BusyIsAClient(cfg, s, c);
    if s.handler.Counted? {
      CandidatesSuffice(cfg, s);
    }
    events := OneStep(cfg, s, Handle(if s.handler.Taken? then Record else if s.handler.Recorded? then Count else Requeue));
  }

  lemma TakeMoves(cfg: Config, s: State) returns (events: seq<Event>)
    requires s.responses != [] && (s.handler.Waiting? || (s.handler.TimedOut? && s.progress != Total(cfg)))
    ensures |events| <= 2 && Run(cfg, s, events).Some? && Productives(events) == 1
  {
    events := OneStep(cfg, s.(handler := Waiting), Handle(Take));
    if s.handler.TimedOut? {
      events := FirstThen(cfg, s, Handle(Settle), events);
    }
  }

  /** The session never gets stuck: while the handler is alive and will not leave at its next check, some
      request can get on within three steps, as long as one is to be completed. */
  lemma NeverStuck(cfg: Config, s: State) returns (events: seq<Event>)
    requires Inv(cfg, s) && cfg.maxParallel >= 1 && Work(cfg, s) > 0
    requires s.handler != HandlerDone && (s.handler.TimedOut? ==> s.progress != Total(cfg))
    ensures |events| <= 3 && Run(cfg, s, events).Some? && Productives(events) == 1
  {
    NoWorkLeft(cfg, s);
    if Busy(s.handler).Some? {
      events := HandlerMoves(cfg, s);
    } else if s.answered.Some? {
      events := OneStep(cfg, s, Task(Deliver));
    } else if s.responses != [] {
      events := TakeMoves(cfg, s);
    } else if s.sender.Creating? {
      events := OneStep(cfg, s, Send(Create));
    } else if s.inFlight != multiset{} {
      var c :| c in s.inFlight;
      events := OneStep(cfg, s, Task(Respond(c)));
    } else {
      CompletedBound(cfg, s);
      events := QuietMoves(cfg, s);
    }
  }

  lemma CompletedBound(cfg: Config, s: State)
    requires Placed(cfg, s) && Counts(cfg, s)
    ensures s.completed <= Total(cfg)
  {
    ProgressBound(cfg, s);
  }

  /** The race is real: one client with one round; the handler's wait runs empty, then the response arrives,
      then the handler sees a full bar and leaves without it.  The request loop is left in front of its parallelism
      check, with as many requests open as may run in parallel. */
  lemma LateResponseIsLost()
    ensures var cfg := Config(1, 1, 1);
            var events := [Send(Check), Send(Pop(0)), Send(Create), Send(Decide), Handle(TimeOut), Task(Respond(0)),
                           Task(Deliver), Handle(Settle)];
            && Run(cfg, Init(cfg), events).Some?
            && var s := Run(cfg, Init(cfg), events).value;
               && s.handler == HandlerDone && s.completed == 0 && s.responses == [0]
               && s.sender == Checking && s.sent == 1
  {
    var cfg := Config(1, 1, 1);
    var s0 := Init(cfg);
    assert s0.ready[0] == 1;
    var s4 := s0.(ready := s0.ready - multiset{0}, inFlight := multiset{0}, sent := 1);
    LateStart(cfg, s0, s4);
    LateEnd(cfg, s4);
    var first := [Send(Check), Send(Pop(0)), Send(Create), Send(Decide)];
    var second := [Handle(TimeOut), Task(Respond(0)), Task(Deliver), Handle(Settle)];
    RunAppend(cfg, s0, first, second);
    assert first + second == [Send(Check), Send(Pop(0)), Send(Create), Send(Decide), Handle(TimeOut), Task(Respond(0)),
                              Task(Deliver), Handle(Settle)];
  }

  lemma {:induction false} RunAppend(cfg: Config, s: State, first: seq<Event>, second: seq<Event>)
    requires Run(cfg, s, first).Some?
    ensures Run(cfg, s, first + second) == Run(cfg, Run(cfg, s, first).value, second)
    decreases |first|
  {
    if first == [] {
      assert first + second == second;
    } else {
      assert (first + second)[1..] == first[1..] + second;
      RunAppend(cfg, Step(cfg, s, first[0]).value, first[1..], second);
    }
  }

  lemma LateStart(cfg: Config, s: State, end: State)
    requires cfg.clients == 1 && cfg.rounds == 1 && cfg.maxParallel >= 1 && s == Init(cfg) && s.ready[0] == 1
    requires end == s.(ready := s.ready - multiset{0}, inFlight := multiset{0}, sent := 1)
    ensures Run(cfg, s, [Send(Check), Send(Pop(0)), Send(Create), Send(Decide)]) == Some(end)
  {
    var popping := s.(sender := Popping);
    var creating := popping.(ready := s.ready - multiset{0}, sender := Creating(0));
    var deciding := end.(sender := Deciding);
    RunCons(cfg, deciding, Send(Decide), []);
    RunCons(cfg, creating, Send(Create), [Send(Decide)]);
    RunCons(cfg, popping, Send(Pop(0)), [Send(Create), Send(Decide)]);
    RunCons(cfg, s, Send(Check), [Send(Pop(0)), Send(Create), Send(Decide)]);
    assert [Send(Decide)] + [] == [Send(Decide)];
    assert [Send(Create)] + [Send(Decide)] == [Send(Create), Send(Decide)];
    assert [Send(Pop(0))] + [Send(Create), Send(Decide)] == [Send(Pop(0)), Send(Create), Send(Decide)];
    assert [Send(Check)] + [Send(Pop(0)), Send(Create), Send(Decide)]
        == [Send(Check), Send(Pop(0)), Send(Create), Send(Decide)];
    assert creating.inFlight + multiset{0} == multiset{0};
  }

  lemma LateEnd(cfg: Config, s: State)
    requires cfg.clients == 1 && cfg.rounds == 1 && s.inFlight == multiset{0} && s.progress == 0 && s.handler == Waiting
    requires s.responses == [] && s.answered.None?
    ensures Run(cfg, s, [Handle(TimeOut), Task(Respond(0)), Task(Deliver), Handle(Settle)])
            == Some(s.(inFlight := multiset{}, progress := 1, responses := [0], handler := HandlerDone))
  {
    var timedOut := s.(handler := TimedOut);
    var answered := timedOut.(inFlight := multiset{}, answered := Some(0), progress := 1);
    var delivered := answered.(answered := None, responses := [0]);
    RunCons(cfg, delivered, Handle(Settle), []);
    RunCons(cfg, answered, Task(Deliver), [Handle(Settle)]);
    RunCons(cfg, timedOut, Task(Respond(0)), [Task(Deliver), Handle(Settle)]);
    RunCons(cfg, s, Handle(TimeOut), [Task(Respond(0)), Task(Deliver), Handle(Settle)]);
    assert s.inFlight - multiset{0} == multiset{};
    assert Step(cfg, s, Handle(TimeOut)) == Some(timedOut);
    assert Step(cfg, timedOut, Task(Respond(0))) == Some(answered);
    assert answered.responses + [0] == [0];
    assert Step(cfg, answered, Task(Deliver)) == Some(delivered);
    assert [Handle(Settle)] + [] == [Handle(Settle)];
    assert [Task(Deliver)] + [Handle(Settle)] == [Task(Deliver), Handle(Settle)];
    assert [Task(Respond(0))] + [Task(Deliver), Handle(Settle)] == [Task(Respond(0)), Task(Deliver), Handle(Settle)];
    assert [Handle(TimeOut)] + [Task(Respond(0)), Task(Deliver), Handle(Settle)]
        == [Handle(TimeOut), Task(Respond(0)), Task(Deliver), Handle(Settle)];
  }
}
