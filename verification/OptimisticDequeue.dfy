/**
 The four counters of one producer sub-queue, with one producer and any number of consumers.

 Each step is one atomic operation of `dequeue` or `dequeue_bulk`; a consumer's program counter
 names the operation it performs next and holds its local variables.  Counters are unbounded here;
 module WrappedDequeue relates them to the machine's unsigned words.

 `tickets` and `grabs` are history variables: no step's guard or effect on a counter reads them.
 */
module OptimisticDequeue {
  import opened Counting
  import Runs

  /** `Take` is `dequeue`; `TakeUpTo` is `dequeue_bulk`. */
  datatype Request = Take | TakeUpTo(max: nat)

  datatype Pc =
    | Idle
    | LoadOvercommit(request: Request, tail: nat)
    | LoadOptimistic(request: Request, tail: nat, overcommit: nat)
    | DrawTickets(want: nat, overcommit: nat)
    | ReloadTail(want: nat, overcommit: nat, mine: nat)
    | Repair(lost: nat, won: nat)
    | ClaimHead(won: nat)

  /** What became of a ticket, that is, of one unit drawn from `dequeueOptimisticCount`. */
  datatype Ticket = Held(consumer: nat) | Won | Lost

  /** Consumer `consumer` took the indices from `first` up to, but not including, `first + count`. */
  datatype Grab = Grab(consumer: nat, first: nat, count: nat)

  datatype State = State(
    tail: nat,
    head: nat,
    optimistic: nat,
    overcommit: nat,
    pcs: seq<Pc>,
    tickets: seq<Ticket>,
    grabs: seq<Grab>)

  datatype Event =
    | Publish(count: nat)                   // the producer stores a larger tailIndex
    | Begin(c: nat, request: Request)       // consumer c enters dequeue or dequeue_bulk, and loads tailIndex
    | Advance(c: nat)                       // consumer c performs its next atomic operation

  ghost predicate Initial(s: State)
  {
    && s.tail == s.head == s.optimistic == s.overcommit == 0
    && s.tickets == [] && s.grabs == []
    && forall c :: 0 <= c < |s.pcs| ==> s.pcs[c] == Idle
  }

  predicate Enabled(s: State, e: Event)
  {
    match e
    case Publish(_) => true
    case Begin(c, _) => c < |s.pcs| && s.pcs[c] == Idle
    case Advance(c) => c < |s.pcs| && s.pcs[c] != Idle
  }

  /** How many items a request asks for when `available` seem to be there. */
  function Wanted(request: Request, available: int): nat
    requires available > 0
  {
    match request
    case Take => 1
    case TakeUpTo(max) => Min(available, max)
  }

  /** The wins among `want` tickets when `available` items turn out to be there. */
  function Winners(want: nat, available: int): nat
  {
    if available > 0 then Min(want, available) else 0
  }

  function Tickets(count: nat, t: Ticket): seq<Ticket>
  {
    seq(count, _ => t)
  }

  /** Tickets `mine .. mine + want` are decided: the first `won` of them win. */
  function Decide(tickets: seq<Ticket>, mine: nat, want: nat, won: nat): seq<Ticket>
  {
    seq(|tickets|, t requires 0 <= t < |tickets| =>
      if mine <= t < mine + won then Won
      else if mine <= t < mine + want then Lost
      else tickets[t])
  }

  function Next(s: State, e: Event): State
    requires Enabled(s, e)
  {
    match e
    case Publish(count) => s.(tail := s.tail + count)
    case Begin(c, request) => s.(pcs := s.pcs[c := LoadOvercommit(request, s.tail)])
    case Advance(c) =>
      match s.pcs[c]
      case Idle => s
      case LoadOvercommit(request, tail) =>
        s.(pcs := s.pcs[c := LoadOptimistic(request, tail, s.overcommit)])
      case LoadOptimistic(request, tail, overcommit) =>
        var available := tail - (s.optimistic - overcommit);
        if available > 0 then
          s.(pcs := s.pcs[c := DrawTickets(Wanted(request, available), overcommit)])
        else
          s.(pcs := s.pcs[c := Idle])
      case DrawTickets(want, overcommit) =>
        s.(optimistic := s.optimistic + want,
           pcs := s.pcs[c := ReloadTail(want, overcommit, s.optimistic)],
           tickets := s.tickets + Tickets(want, Held(c)))
      case ReloadTail(want, overcommit, mine) =>
        var available := s.tail - (mine - overcommit);
        var won := Winners(want, available);
        s.(tickets := Decide(s.tickets, mine, want, won),
           pcs := s.pcs[c := if available > 0 && won == want then ClaimHead(won) else Repair(want - won, won)])
      case Repair(lost, won) =>
        s.(overcommit := s.overcommit + lost,
           pcs := s.pcs[c := if won > 0 then ClaimHead(won) else Idle])
      case ClaimHead(won) =>
        s.(head := s.head + won,
           pcs := s.pcs[c := Idle],
           grabs := s.grabs + [Grab(c, s.head, won)])
  }

  // ----- counting tickets

  function Losses(tickets: seq<Ticket>, m: nat): nat
    requires m <= |tickets|
  {
    if m == 0 then 0 else Losses(tickets, m - 1) + if tickets[m - 1] == Lost then 1 else 0
  }

  function Wins(tickets: seq<Ticket>, m: nat): nat
    requires m <= |tickets|
  {
    if m == 0 then 0 else Wins(tickets, m - 1) + if tickets[m - 1] == Won then 1 else 0
  }

  /** A ticket is decided once, so prefix counts only see their own tickets. */
  lemma {:induction false} CountsOfPrefix(a: seq<Ticket>, b: seq<Ticket>, m: nat)
    requires m <= |a| && m <= |b| && a[..m] == b[..m]
    ensures Losses(a, m) == Losses(b, m) && Wins(a, m) == Wins(b, m)
  {
    if m > 0 {
      assert a[..m - 1] == a[..m][..m - 1] == b[..m][..m - 1] == b[..m - 1];
      assert a[m - 1] == a[..m][m - 1] == b[..m][m - 1];
      CountsOfPrefix(a, b, m - 1);
    }
  }

  /** Drawing tickets adds no wins and no losses. */
  lemma {:induction false} CountsAfterDraw(ts: seq<Ticket>, n: nat, c: nat)
    ensures var drawn := ts + Tickets(n, Held(c));
      Losses(drawn, |drawn|) == Losses(ts, |ts|) && Wins(drawn, |drawn|) == Wins(ts, |ts|)
  {
    var drawn := ts + Tickets(n, Held(c));
    if n == 0 {
      assert drawn == ts;
    } else {
      var shorter := ts + Tickets(n - 1, Held(c));
      CountsAfterDraw(ts, n - 1, c);
      assert drawn[..|drawn| - 1] == shorter[..|drawn| - 1];
      CountsOfPrefix(drawn, shorter, |drawn| - 1);
      assert drawn[|drawn| - 1] == Held(c);
    }
  }

  ghost predicate HeldRange(ts: seq<Ticket>, c: nat, mine: nat, want: nat)
  {
    && mine + want <= |ts|
    && forall t :: mine <= t < mine + want ==> ts[t] == Held(c)
  }

  /** Deciding tickets never lowers a prefix count of losses, and adds exactly the decided ones to the totals. */
  lemma {:induction false} CountsAfterDecide(ts: seq<Ticket>, c: nat, mine: nat, want: nat, won: nat, m: nat)
    requires HeldRange(ts, c, mine, want) && won <= want && m <= |ts|
    ensures var after := Decide(ts, mine, want, won);
      && |after| == |ts|
      && Losses(after, m) == Losses(ts, m) + (if m <= mine + won then 0 else Min(m - mine - won, want - won))
      && Wins(after, m) == Wins(ts, m) + (if m <= mine then 0 else Min(m - mine, won))
  {
    if m > 0 {
      CountsAfterDecide(ts, c, mine, want, won, m - 1);
    }
  }

  lemma {:induction false} LossesMonotone(ts: seq<Ticket>, m: nat, n: nat)
    requires m <= n <= |ts|
    ensures Losses(ts, m) <= Losses(ts, n)
    decreases n
  {
    if m < n {
      LossesMonotone(ts, m, n - 1);
    }
  }

  /** The wins below `m` all lie at or below the last winning ticket `t`. */
  lemma {:induction false} WinsAreBounded(ts: seq<Ticket>, m: nat, bound: nat)
    requires m <= |ts|
    requires forall t :: 0 <= t < m && ts[t] == Won ==> t + 1 - Losses(ts, t + 1) <= bound
    ensures Wins(ts, m) <= bound
    ensures Wins(ts, m) + Losses(ts, m) <= m
  {
    if m > 0 {
      WinsAreBounded(ts, m - 1, bound);
    }
  }

  // ----- the invariant

  function Unrepaired(pc: Pc): int { if pc.Repair? then pc.lost else 0 }

  function Unclaimed(pc: Pc): int
  {
    match pc
    case Repair(_, won) => won
    case ClaimHead(won) => won
    case _ => 0
  }

  ghost predicate PcInv(s: State, c: nat)
    requires c < |s.pcs|
  {
    match s.pcs[c]
    case LoadOvercommit(_, tail) => tail <= s.tail
    case LoadOptimistic(_, tail, overcommit) => tail <= s.tail && overcommit <= Losses(s.tickets, |s.tickets|)
    case DrawTickets(_, overcommit) => overcommit <= Losses(s.tickets, |s.tickets|)
    case ReloadTail(want, overcommit, mine) =>
      HeldRange(s.tickets, c, mine, want) && overcommit <= Losses(s.tickets, mine)
    case _ => true
  }

  /** Ticket `t` belongs to the consumer it names, which is about to decide it. */
  ghost predicate HeldBy(s: State, t: nat, c: nat)
  {
    c < |s.pcs| && s.pcs[c].ReloadTail? && s.pcs[c].mine <= t < s.pcs[c].mine + s.pcs[c].want
  }

  ghost predicate TicketInv(s: State, t: nat)
    requires t < |s.tickets|
  {
    match s.tickets[t]
    case Held(c) => HeldBy(s, t, c)
    case Won => t + 1 - Losses(s.tickets, t + 1) <= s.tail
    case Lost => true
  }

  /** The grabs so far, in the order they were made, cut `0 .. head` into consecutive ranges. */
  predicate Tiles(grabs: seq<Grab>, head: nat)
  {
    if grabs == [] then head == 0
    else
      var last := grabs[|grabs| - 1];
      last.first + last.count == head && Tiles(grabs[..|grabs| - 1], last.first)
  }

  ghost predicate Inv(s: State)
  {
    && |s.tickets| == s.optimistic
    && Losses(s.tickets, |s.tickets|) == s.overcommit + Sum(s.pcs, Unrepaired)
    && Wins(s.tickets, |s.tickets|) == s.head + Sum(s.pcs, Unclaimed)
    && (forall c :: 0 <= c < |s.pcs| ==> PcInv(s, c))
    && (forall t :: 0 <= t < |s.tickets| ==> TicketInv(s, t))
    && Tiles(s.grabs, s.head)
  }

  lemma InitialInv(s: State)
    requires Initial(s)
    ensures Inv(s)
  {
    SumConstant(s.pcs, Unrepaired, 0);
    SumConstant(s.pcs, Unclaimed, 0);
  }

  lemma DrawInv(s: State, c: nat)
    requires Inv(s) && Enabled(s, Advance(c)) && s.pcs[c].DrawTickets?
    ensures Inv(Next(s, Advance(c)))
  {
    var s' := Next(s, Advance(c));
    var DrawTickets(want, overcommit) := s.pcs[c];
    CountsAfterDraw(s.tickets, want, c);
    SumUpdate(s.pcs, c, s'.pcs[c], Unrepaired);
    SumUpdate(s.pcs, c, s'.pcs[c], Unclaimed);
    forall m: nat | m <= |s.tickets|
      ensures Losses(s'.tickets, m) == Losses(s.tickets, m)
    {
      CountsOfPrefix(s.tickets, s'.tickets, m);
    }
    forall t | 0 <= t < |s'.tickets| ensures TicketInv(s', t)
    {
      if t < |s.tickets| { assert TicketInv(s, t); }
    }
    forall d | 0 <= d < |s'.pcs| ensures PcInv(s', d)
    {
      assert PcInv(s, d);
    }
  }

  /** `s'` is `s` after consumer `c` has decided its tickets. */
  ghost predicate Decided(s: State, s': State, c: nat, won: nat)
  {
    && c < |s.pcs| == |s'.pcs| && s.pcs[c].ReloadTail?
    && won == Winners(s.pcs[c].want, s.tail - (s.pcs[c].mine - s.pcs[c].overcommit))
    && s'.tickets == Decide(s.tickets, s.pcs[c].mine, s.pcs[c].want, won)
    && s'.tail == s.tail
    && (s'.pcs[c].Repair? || s'.pcs[c].ClaimHead?)
    && forall d :: 0 <= d < |s.pcs| && d != c ==> s'.pcs[d] == s.pcs[d]
  }

  lemma DecideKeepsTickets(s: State, s': State, c: nat, won: nat)
    requires Inv(s) && Decided(s, s', c, won)
    ensures forall t :: 0 <= t < |s'.tickets| ==> TicketInv(s', t)
  {
    var ReloadTail(want, overcommit, mine) := s.pcs[c];
    assert PcInv(s, c);
    forall t | 0 <= t < |s'.tickets| ensures TicketInv(s', t)
    {
      assert TicketInv(s, t);
      CountsAfterDecide(s.tickets, c, mine, want, won, t + 1);
      if mine <= t < mine + won {
        LossesMonotone(s.tickets, mine, t + 1);
      }
    }
  }

  lemma DecideKeepsPcs(s: State, s': State, c: nat, won: nat)
    requires Inv(s) && Decided(s, s', c, won)
    ensures forall d :: 0 <= d < |s'.pcs| ==> PcInv(s', d)
  {
    var ReloadTail(want, overcommit, mine) := s.pcs[c];
    assert PcInv(s, c);
    CountsAfterDecide(s.tickets, c, mine, want, won, |s.tickets|);
    forall d | 0 <= d < |s'.pcs| ensures PcInv(s', d)
    {
      assert PcInv(s, d);
      if d != c && s.pcs[d].ReloadTail? {
        CountsAfterDecide(s.tickets, c, mine, want, won, s.pcs[d].mine);
        forall t | s.pcs[d].mine <= t < s.pcs[d].mine + s.pcs[d].want ensures s'.tickets[t] == Held(d) {
          assert s.tickets[t] == Held(d);
        }
      }
    }
  }

  lemma ReloadInv(s: State, c: nat)
    requires Inv(s) && Enabled(s, Advance(c)) && s.pcs[c].ReloadTail?
    ensures Inv(Next(s, Advance(c)))
  {
    var s' := Next(s, Advance(c));
    var ReloadTail(want, overcommit, mine) := s.pcs[c];
    var won := Winners(want, s.tail - (mine - overcommit));
    DecideKeepsTickets(s, s', c, won);
    DecideKeepsPcs(s, s', c, won);
    assert PcInv(s, c);
    SumUpdate(s.pcs, c, s'.pcs[c], Unrepaired);
    SumUpdate(s.pcs, c, s'.pcs[c], Unclaimed);
    CountsAfterDecide(s.tickets, c, mine, want, won, |s.tickets|);
  }

  /** A step that decides and draws nothing keeps what is known of every ticket. */
  lemma OtherStepsKeepTickets(s: State, s': State)
    requires forall t :: 0 <= t < |s.tickets| ==> TicketInv(s, t)
    requires s'.tickets == s.tickets && s.tail <= s'.tail && |s'.pcs| == |s.pcs|
    requires forall d :: 0 <= d < |s.pcs| && s.pcs[d].ReloadTail? ==> s'.pcs[d] == s.pcs[d]
    ensures forall t :: 0 <= t < |s'.tickets| ==> TicketInv(s', t)
  {
    forall t | 0 <= t < |s'.tickets| ensures TicketInv(s', t)
    {
      assert TicketInv(s, t);
    }
  }

  /** Entering, and loading the counters, changes only the consumer. */
  lemma LoadInv(s: State, e: Event)
    requires Inv(s) && Enabled(s, e) && !e.Publish?
    requires e.Advance? ==> s.pcs[e.c].LoadOvercommit? || s.pcs[e.c].LoadOptimistic?
    ensures Inv(Next(s, e))
  {
    hide Losses, Wins, TicketInv, Tiles;
    var s' := Next(s, e);
    OtherStepsKeepTickets(s, s');
    assert PcInv(s, e.c);
    SumUpdate(s.pcs, e.c, s'.pcs[e.c], Unrepaired);
    SumUpdate(s.pcs, e.c, s'.pcs[e.c], Unclaimed);
    SumBounds(s.pcs, Unrepaired);
    forall d | 0 <= d < |s'.pcs| ensures PcInv(s', d) { assert PcInv(s, d); }
  }

  lemma RepairInv(s: State, c: nat)
    requires Inv(s) && Enabled(s, Advance(c)) && s.pcs[c].Repair?
    ensures Inv(Next(s, Advance(c)))
  {
    hide Losses, Wins, TicketInv, Tiles;
    var s' := Next(s, Advance(c));
    OtherStepsKeepTickets(s, s');
    SumUpdate(s.pcs, c, s'.pcs[c], Unrepaired);
    SumUpdate(s.pcs, c, s'.pcs[c], Unclaimed);
    forall d | 0 <= d < |s'.pcs| ensures PcInv(s', d) { assert PcInv(s, d); }
  }

  lemma ClaimInv(s: State, c: nat)
    requires Inv(s) && Enabled(s, Advance(c)) && s.pcs[c].ClaimHead?
    ensures Inv(Next(s, Advance(c)))
  {
    hide Losses, Wins, TicketInv;
    var s' := Next(s, Advance(c));
    OtherStepsKeepTickets(s, s');
    SumUpdate(s.pcs, c, s'.pcs[c], Unrepaired);
    SumUpdate(s.pcs, c, s'.pcs[c], Unclaimed);
    assert s'.grabs[..|s'.grabs| - 1] == s.grabs;
    forall d | 0 <= d < |s'.pcs| ensures PcInv(s', d) { assert PcInv(s, d); }
  }

  lemma PublishInv(s: State, e: Event)
    requires Inv(s) && e.Publish?
    ensures Inv(Next(s, e))
  {
    var s' := Next(s, e);
    OtherStepsKeepTickets(s, s');
    forall d | 0 <= d < |s'.pcs| ensures PcInv(s', d) { assert PcInv(s, d); }
  }

  /** Every atomic operation of the producer and of any consumer keeps the invariant. */
  lemma StepInv(s: State, e: Event)
    requires Inv(s) && Enabled(s, e)
    ensures Inv(Next(s, e))
  {
    hide Inv, Next;
    if e.Publish? {
      PublishInv(s, e);
    } else if e.Begin? {
      LoadInv(s, e);
    } else {
      match s.pcs[e.c]
      case LoadOvercommit(_, _) => LoadInv(s, e);
      case LoadOptimistic(_, _, _) => LoadInv(s, e);
      case DrawTickets(_, _) => DrawInv(s, e.c);
      case ReloadTail(_, _, _) => ReloadInv(s, e.c);
      case Repair(_, _) => RepairInv(s, e.c);
      case ClaimHead(_) => ClaimInv(s, e.c);
    }
  }

  // ----- runs

  /** An event that is not enabled when its turn comes changes nothing. */
  function Step(s: State, e: Event): State
  {
    if Enabled(s, e) then Next(s, e) else s
  }

  function Play(s: State, es: seq<Event>): State
  {
    Runs.Play(Step, s, es)
  }

  lemma PlayInv(s: State, es: seq<Event>)
    requires Inv(s)
    ensures Inv(Play(s, es))
  {
    forall s, e | Inv(s) ensures Inv(Step(s, e)) {
      if Enabled(s, e) { StepInv(s, e); }
    }
    Runs.PlayKeeps(Step, s => Inv(s), s, es);
  }

  predicate Covers(g: Grab, i: nat) { g.first <= i < g.first + g.count }

  predicate CoveredBySome(grabs: seq<Grab>, i: nat) { exists k :: 0 <= k < |grabs| && Covers(grabs[k], i) }

  /** Grabs that tile `0 .. head` follow one another, and each index below `head` is in one of them. */
  lemma {:induction false} TilesMeaning(grabs: seq<Grab>, head: nat)
    requires Tiles(grabs, head)
    ensures forall j, k :: 0 <= j < k < |grabs| ==> grabs[j].first + grabs[j].count <= grabs[k].first
    ensures forall k :: 0 <= k < |grabs| ==> grabs[k].first + grabs[k].count <= head
    ensures forall i :: 0 <= i < head ==> CoveredBySome(grabs, i)
  {
    if grabs != [] {
      var last := |grabs| - 1;
      var front := grabs[..last];
      TilesMeaning(front, grabs[last].first);
      forall i | 0 <= i < head ensures CoveredBySome(grabs, i) {
        if i < grabs[last].first {
          assert CoveredBySome(front, i);
          var k :| 0 <= k < |front| && Covers(front[k], i);
          assert Covers(grabs[k], i);
        } else {
          assert Covers(grabs[last], i);
        }
      }
    }
  }

  /** What all the consumers together have taken, or hold the right to take, is at most what was published. */
  lemma InvIsSafe(s: State)
    requires Inv(s)
    ensures s.head + Sum(s.pcs, Unclaimed) <= s.tail
    ensures s.head <= s.tail
  {
    forall t | 0 <= t < |s.tickets| && s.tickets[t] == Won
      ensures t + 1 - Losses(s.tickets, t + 1) <= s.tail
    {
      assert TicketInv(s, t);
    }
    WinsAreBounded(s.tickets, |s.tickets|, s.tail);
    SumBounds(s.pcs, Unclaimed);
  }

  /**
   In every interleaving of one producer with any number of consumers, `headIndex` never passes
   `tailIndex`, not even when every consumer that has passed its last check goes on to claim; the
   claims are made in index order, and each claimed index is claimed by exactly one of them.
   */
  lemma DequeueIsSafe(init: State, es: seq<Event>)
    requires Initial(init)
    ensures var s := Play(init, es);
      && s.head + Sum(s.pcs, Unclaimed) <= s.tail
      && s.head <= s.tail == Published(es)
      && (forall j, k :: 0 <= j < k < |s.grabs| ==> s.grabs[j].first + s.grabs[j].count <= s.grabs[k].first)
      && (forall k :: 0 <= k < |s.grabs| ==> s.grabs[k].first + s.grabs[k].count <= s.head)
      && (forall i :: 0 <= i < s.head ==> CoveredBySome(s.grabs, i))
  {
    TailIsPublished(init, es);
    InitialInv(init);
    PlayInv(init, es);
    var s := Play(init, es);
    InvIsSafe(s);
    TilesMeaning(s.grabs, s.head);
  }

  // ----- the counters agree again once the consumers are done

  ghost predicate Quiescent(s: State)
  {
    forall c :: 0 <= c < |s.pcs| ==> s.pcs[c] == Idle
  }

  lemma {:induction false} DecidedTicketsAddUp(ts: seq<Ticket>, m: nat)
    requires m <= |ts|
    requires forall t :: 0 <= t < m ==> !ts[t].Held?
    ensures Wins(ts, m) + Losses(ts, m) == m
  {
    if m > 0 {
      DecidedTicketsAddUp(ts, m - 1);
    }
  }

  /** With no consumer inside, the effective dequeue count is exactly the head: overshoots were all repaired. */
  lemma QuiescentCounters(s: State)
    requires Inv(s) && Quiescent(s)
    ensures s.optimistic - s.overcommit == s.head
  {
    SumConstant(s.pcs, Unrepaired, 0);
    SumConstant(s.pcs, Unclaimed, 0);
    forall t | 0 <= t < |s.tickets| ensures !s.tickets[t].Held? {
      assert TicketInv(s, t);
    }
    DecidedTicketsAddUp(s.tickets, |s.tickets|);
  }

  /** Consumer `c` performs its next `n` atomic operations, as long as it has any left. */
  function Alone(s: State, c: nat, n: nat): State
  {
    if n == 0 then s
    else
      var before := Alone(s, c, n - 1);
      if Enabled(before, Advance(c)) then Next(before, Advance(c)) else before
  }

  lemma DrawAlone(s: State, c: nat, request: Request)
    requires Inv(s) && Quiescent(s) && c < |s.pcs| && s.head < s.tail
    ensures var s' := Alone(Next(s, Begin(c, request)), c, 4);
      && s' == s.(optimistic := s'.optimistic, tickets := s'.tickets, pcs := s'.pcs)
      && s'.pcs == s.pcs[c := ClaimHead(Wanted(request, s.tail - s.head))]
  {
    QuiescentCounters(s);
    var want := Wanted(request, s.tail - s.head);
    var s0 := Next(s, Begin(c, request));
    assert Alone(s0, c, 0) == s0;
    var s1 := Alone(s0, c, 1);
    assert s1 == Next(s0, Advance(c));
    assert s1.pcs == s.pcs[c := LoadOptimistic(request, s.tail, s.overcommit)];
    var s2 := Alone(s0, c, 2);
    assert s2 == Next(s1, Advance(c));
    assert s2 == s.(pcs := s.pcs[c := DrawTickets(want, s.overcommit)]);
    var s3 := Alone(s0, c, 3);
    assert s3 == Next(s2, Advance(c));
    assert s3.pcs == s.pcs[c := ReloadTail(want, s.overcommit, s.optimistic)];
    var s4 := Alone(s0, c, 4);
    assert s4 == Next(s3, Advance(c));
  }

  /** The most that a request may be given. */
  function AtMost(request: Request): nat
  {
    match request
    case Take => 1
    case TakeUpTo(max) => max
  }

  /**
   Whatever happened before, a consumer that runs alone from a quiescent state takes the oldest
   items: nothing exactly when the queue is empty, and otherwise all that it asked for, or all there are.
   */
  lemma DequeueAloneSucceeds(s: State, c: nat, request: Request)
    requires Inv(s) && Quiescent(s) && c < |s.pcs|
    ensures s.head <= s.tail
    ensures var s' := Alone(Next(s, Begin(c, request)), c, 5);
      && Quiescent(s') && s'.tail == s.tail
      && if s.head == s.tail then s'.grabs == s.grabs && s'.head == s.head
         else
           var taken := s'.head - s.head;
           && 0 <= taken <= AtMost(request) && s'.head <= s.tail
           && (taken == AtMost(request) || s'.head == s.tail)
           && s'.grabs == s.grabs + [Grab(c, s.head, taken)]
  {
    QuiescentCounters(s);
    InvIsSafe(s);
    var s0 := Next(s, Begin(c, request));
    if s.head < s.tail {
      DrawAlone(s, c, request);
      var s4 := Alone(s0, c, 4);
      assert Alone(s0, c, 5) == Next(s4, Advance(c));
    } else {
      var s2 := Alone(s0, c, 2);
      assert Alone(s0, c, 1) == Next(s0, Advance(c));
      assert s2 == Next(Alone(s0, c, 1), Advance(c));
      assert Alone(s0, c, 3) == s2;
      assert Alone(s0, c, 4) == s2;
      assert Alone(s0, c, 5) == s2;
    }
  }

  // ----- what a call takes

  /**
   A ticket wins if and only if its number, less the overcommit that its consumer has loaded, is an index
   that has been published; the consumer goes on with as many as win, and repairs the others.
   */
  lemma TicketsWinInOrder(s: State, c: nat)
    requires Inv(s) && c < |s.pcs| && s.pcs[c].ReloadTail?
    ensures var ReloadTail(want, overcommit, mine) := s.pcs[c];
      var s' := Next(s, Advance(c));
      var won := Unclaimed(s'.pcs[c]);
      && mine + want <= |s.tickets| == |s'.tickets|
      && (forall t :: mine <= t < mine + want ==>
            s'.tickets[t] == (if t - overcommit < s.tail then Won else Lost))
      && (forall t :: mine <= t < mine + want ==> (s'.tickets[t] == Won <==> t - mine < won))
      && won + Unrepaired(s'.pcs[c]) == want && (s'.pcs[c].Repair? || s'.pcs[c].ClaimHead?)
  {
    assert PcInv(s, c);
  }

  /** Consumer `c` begins a call. */
  function Begins(c: nat): (State, Event) -> bool
  {
    (s: State, e: Event) => e.Begin? && e.c == c && Enabled(s, e)
  }

  /** The events up to the beginning of the latest call of consumer `c`. */
  function Entered(init: State, es: seq<Event>, c: nat): nat
  {
    Runs.Since(Step, init, es, Begins(c))
  }

  /** What a consumer has asked the counters for, or got from them, and not yet claimed. */
  function Asking(pc: Pc): nat
  {
    match pc
    case DrawTickets(want, _) => want
    case ReloadTail(want, _, _) => want
    case Repair(lost, won) => lost + won
    case ClaimHead(won) => won
    case _ => 0
  }

  predicate AsksNothing(pc: Pc)
  {
    match pc
    case DrawTickets(want, _) => want == 0
    case ReloadTail(want, _, _) => want == 0
    case ClaimHead(won) => won == 0
    case _ => false
  }

  /** What consumer `c` has loaded since it began, and that it asks for no more than its caller did. */
  ghost predicate CallInv(init: State, es: seq<Event>, c: nat)
  {
    var s := Play(init, es);
    c < |s.pcs| && s.pcs[c] != Idle ==>
      var n := Entered(init, es, c);
      && 0 < n && es[n - 1].Begin? && Asking(s.pcs[c]) <= AtMost(es[n - 1].request)
      && (AsksNothing(s.pcs[c]) ==> AtMost(es[n - 1].request) == 0)
      && var tail := Play(init, es[..n]).tail;
         tail <= s.tail && Loaded(init, es, n, s.pcs[c], es[n - 1].request, tail)
  }

  ghost predicate Loaded(init: State, es: seq<Event>, n: nat, pc: Pc, request: Request, tail: nat)
  {
    match pc
    case Idle => true
    case LoadOvercommit(r, t) => r == request && t == tail
    case LoadOptimistic(r, t, overcommit) => r == request && t == tail && LoadedOne(init, es, n, overcommit)
    case DrawTickets(_, overcommit) => LoadedOne(init, es, n, overcommit)
    case ReloadTail(_, overcommit, mine) => LoadedTwo(init, es, n, mine - overcommit)
    case Repair(_, won) => won > 0 || LoadedTwo(init, es, n, tail)
    case ClaimHead(_) => true
  }

  ghost predicate LoadedOne(init: State, es: seq<Event>, n: nat, overcommit: nat)
  {
    exists i :: n <= i <= |es| && Play(init, es[..i]).overcommit == overcommit
  }

  /** So much, or more, is what the two counters differed by when they were loaded one after the other. */
  ghost predicate LoadedTwo(init: State, es: seq<Event>, n: nat, drawn: int)
  {
    exists i, j :: n <= i <= j <= |es| && drawn <= Play(init, es[..j]).optimistic - Play(init, es[..i]).overcommit
  }

  lemma LoadsStay(init: State, es: seq<Event>, n: nat, pc: Pc, request: Request, tail: nat)
    requires es != [] && Loaded(init, es[..|es| - 1], n, pc, request, tail)
    ensures Loaded(init, es, n, pc, request, tail)
  {
    var front := es[..|es| - 1];
    forall overcommit: nat | LoadedOne(init, front, n, overcommit) ensures LoadedOne(init, es, n, overcommit) {
      var i :| n <= i <= |front| && Play(init, front[..i]).overcommit == overcommit;
      assert front[..i] == es[..i];
    }
    forall drawn: int | LoadedTwo(init, front, n, drawn) ensures LoadedTwo(init, es, n, drawn) {
      var i, j :| n <= i <= j <= |front|
        && drawn <= Play(init, front[..j]).optimistic - Play(init, front[..i]).overcommit;
      assert front[..i] == es[..i] && front[..j] == es[..j];
    }
  }

  /** The second load is made now. */
  lemma LoadsSecond(init: State, es: seq<Event>, n: nat, overcommit: nat)
    requires LoadedOne(init, es, n, overcommit)
    ensures LoadedTwo(init, es, n, Play(init, es).optimistic - overcommit)
  {
    var i :| n <= i <= |es| && Play(init, es[..i]).overcommit == overcommit;
    assert es[..|es|] == es;
  }

  lemma LoadedLess(init: State, es: seq<Event>, n: nat, drawn: int, less: int)
    requires LoadedTwo(init, es, n, drawn) && less <= drawn
    ensures LoadedTwo(init, es, n, less)
  {}

  /** A consumer asks for what its request is given, and then for no more. */
  lemma AsksNoMore(s: State, c: nat)
    requires Enabled(s, Advance(c))
    ensures c < |Step(s, Advance(c)).pcs| && Step(s, Advance(c)).tail == s.tail
    ensures var pc, pc' := s.pcs[c], Step(s, Advance(c)).pcs[c];
      if pc.LoadOptimistic? then
        Asking(pc') <= AtMost(pc.request) && (AsksNothing(pc') ==> AtMost(pc.request) == 0)
      else Asking(pc') <= Asking(pc) && (AsksNothing(pc') ==> AsksNothing(pc))
  {
    hide Decide, Tickets;
  }

  /** What the consumer has loaded after its next operation. */
  lemma LoadsOn(init: State, es: seq<Event>, c: nat, n: nat, request: Request, tail: nat)
    requires es != [] && es[|es| - 1] == Advance(c) && n < |es|
    requires var s := Play(init, es[..|es| - 1]);
      Enabled(s, Advance(c)) && tail <= s.tail && Loaded(init, es[..|es| - 1], n, s.pcs[c], request, tail)
    ensures c < |Play(init, es).pcs| && Loaded(init, es, n, Play(init, es).pcs[c], request, tail)
  {
    hide Decide, Tickets, LoadedOne, LoadedTwo;
    var front := es[..|es| - 1];
    var s := Play(init, front);
    LoadsStay(init, es, n, s.pcs[c], request, tail);
    match s.pcs[c]
    case LoadOvercommit(_, _) => LoadsFirst(init, es, n);
    case DrawTickets(_, overcommit) =>
      LoadsSecond(init, front, n, overcommit);
      LoadsStay(init, es, n, ReloadTail(0, overcommit, s.optimistic), request, 0);
    case ReloadTail(_, overcommit, mine) =>
      if s.tail <= mine - overcommit { LoadedLess(init, es, n, mine - overcommit, tail); }
    case _ =>
  }

  /** The first load is made now. */
  lemma LoadsFirst(init: State, es: seq<Event>, n: nat)
    requires n < |es|
    ensures LoadedOne(init, es, n, Play(init, es[..|es| - 1]).overcommit)
  {}

  /** What the consumer knows after its next operation. */
  lemma AdvanceLoads(init: State, es: seq<Event>, c: nat)
    requires es != [] && es[|es| - 1] == Advance(c)
    requires var s := Play(init, es[..|es| - 1]); c < |s.pcs| && s.pcs[c] != Idle
    requires CallInv(init, es[..|es| - 1], c) && Entered(init, es, c) == Entered(init, es[..|es| - 1], c)
    ensures CallInv(init, es, c)
  {
    hide Next, Asking, AsksNothing;
    var front := es[..|es| - 1];
    var s, n := Play(init, front), Entered(init, front, c);
    assert es[..n] == front[..n];
    AsksNoMore(s, c);
    LoadsOn(init, es, c, n, es[n - 1].request, Play(init, es[..n]).tail);
  }

  lemma OthersKeep(s: State, e: Event, c: nat)
    requires c < |s.pcs| && (Enabled(s, e) ==> e.Publish? || e.c != c)
    ensures Step(s, e).pcs[c] == s.pcs[c] && Step(s, e).tail >= s.tail
  {}

  lemma {:induction false} CallsKept(init: State, es: seq<Event>, c: nat)
    requires Initial(init)
    ensures CallInv(init, es, c)
  {
    hide Loaded, Next;
    if es != [] {
      var front, e := es[..|es| - 1], es[|es| - 1];
      var s := Play(init, front);
      CallsKept(init, front, c);
      if c < |s.pcs| && Enabled(s, e) && !e.Publish? && e.c == c {
        if e.Begin? { BeginLoads(init, es, c); } else { AdvanceLoads(init, es, c); }
      } else if c < |s.pcs| {
        OthersKeep(s, e, c);
        var n := Entered(init, front, c);
        assert es[..n] == front[..n];
        if s.pcs[c] != Idle { LoadsStay(init, es, n, s.pcs[c], es[n - 1].request, Play(init, es[..n]).tail); }
      } else {
        StepSize(s, e);
      }
    }
  }

  lemma StepSize(s: State, e: Event)
    ensures |Step(s, e).pcs| == |s.pcs|
  {}

  lemma BeginLoads(init: State, es: seq<Event>, c: nat)
    requires es != [] && es[|es| - 1].Begin? && es[|es| - 1].c == c && Enabled(Play(init, es[..|es| - 1]), es[|es| - 1])
    ensures CallInv(init, es, c)
  {
    assert es[..|es|] == es;
  }

  /**
   In every run, what a consumer asks the counters for, has won or claims is at most what the call of
   `dequeue` or `dequeue_bulk` asked for that it is in, and a claim is all that it has won, and not nothing,
   unless nothing was asked for.
   */
  lemma ClaimsWithinRequest(init: State, es: seq<Event>, e: Event)
    requires Initial(init) && Enabled(Play(init, es), e)
    ensures var s, s' := Play(init, es), Next(Play(init, es), e);
      if s'.grabs == s.grabs then s'.head == s.head
      else
        e.Advance? &&
        var n := Entered(init, es, e.c);
        && 0 < n && es[n - 1].Begin? && es[n - 1].c == e.c
        && s'.head - s.head == Asking(s.pcs[e.c]) <= AtMost(es[n - 1].request)
        && (s'.head == s.head ==> AtMost(es[n - 1].request) == 0)
        && s'.grabs == s.grabs + [Grab(e.c, s.head, s'.head - s.head)]
  {
    if e.Advance? {
      CallsKept(init, es, e.c);
      SinceBegins(init, es, e.c);
    }
  }

  lemma {:induction false} SinceBegins(init: State, es: seq<Event>, c: nat)
    ensures var n := Entered(init, es, c);
      n > 0 ==> Begins(c)(Play(init, es[..n - 1]), es[n - 1])
  {
    if es != [] {
      SinceBegins(init, es[..|es| - 1], c);
      var n := Entered(init, es, c);
      if n == |es| { assert es[..n - 1] == es[..|es| - 1]; }
      else if n > 0 { assert es[..n - 1] == es[..|es| - 1][..n - 1]; }
    }
  }

  /**
   In every run, a call returns without a claim only when the items that were there as it began had all
   been drawn by others: at two moments within the call, one after the other, it loads `overcommit` and
   `optimistic`, and their difference has reached the tail that was there at its beginning.
   */
  lemma EmptyHandedMeansDrawn(init: State, es: seq<Event>, c: nat)
    requires Initial(init) && Enabled(Play(init, es), Advance(c))
    requires var s, s' := Play(init, es), Next(Play(init, es), Advance(c));
      s'.pcs[c] == Idle && s'.grabs == s.grabs
    ensures var n := Entered(init, es, c);
      0 < n && es[n - 1].Begin? && es[n - 1].c == c && LoadedTwo(init, es, n, Play(init, es[..n]).tail)
  {
    CallsKept(init, es, c);
    SinceBegins(init, es, c);
    var s, n := Play(init, es), Entered(init, es, c);
    if s.pcs[c].LoadOptimistic? {
      LoadsSecond(init, es, n, s.pcs[c].overcommit);
      LoadedLess(init, es, n, s.optimistic - s.pcs[c].overcommit, s.pcs[c].tail);
    }
    assert s.pcs[c].Repair? ==> s.pcs[c].won == 0;
  }

  /** How many items the producer has published in the run. */
  function Published(es: seq<Event>): nat
  {
    if es == [] then 0
    else Published(es[..|es| - 1]) + if es[|es| - 1].Publish? then es[|es| - 1].count else 0
  }

  lemma {:induction false} TailIsPublished(init: State, es: seq<Event>)
    requires Initial(init)
    ensures Play(init, es).tail == Published(es)
  {
    if es != [] {
      TailIsPublished(init, es[..|es| - 1]);
      TailStep(Play(init, es[..|es| - 1]), es[|es| - 1]);
    }
  }

  lemma TailStep(s: State, e: Event)
    ensures Step(s, e).tail == s.tail + if e.Publish? then e.count else 0
  {}

  // ----- every call ends

  /** How many operations the consumer has before it at most, whatever others do. */
  function Remaining(pc: Pc): nat
  {
    match pc
    case Idle => 0
    case ClaimHead(_) => 1
    case Repair(_, _) => 2
    case ReloadTail(_, _, _) => 3
    case DrawTickets(_, _) => 4
    case LoadOptimistic(_, _, _) => 5
    case LoadOvercommit(_, _) => 6
  }

  /** Every operation of a consumer brings its call nearer to its end, and no other operation keeps it from it. */
  lemma CallsAreWaitFree(s: State, e: Event, c: nat)
    requires c < |s.pcs| && s.pcs[c] != Idle
    ensures Enabled(s, Advance(c)) && Remaining(s.pcs[c]) <= 6
    ensures var left := Remaining(Step(s, e).pcs[c]);
      if e == Advance(c) then left < Remaining(s.pcs[c]) else left == Remaining(s.pcs[c])
  {}
}
