/** The immutable operation log of a paper session and its re-derivation: `PaperSession.reconcile`. */
module SessionLog {
  import opened Prelude
  import opened PaperModel
  import opened OrderReducer
  import opened PaperLedger

  datatype Operation = Order(intent: Intent) | Report(event: Event)
  {
    function At(): Instant { if Order? then intent.createdAt else event.occurredAt }

    predicate Valid() { if Order? then intent.Valid() else event.Valid() }
  }

  datatype LiquidityKey = LiquidityKey(stream: Ident, sequence: nat, symbol: Ident, action: Action)
  datatype LiquidityUse = LiquidityUse(used: nat, capacity: nat, source: Digest)

  datatype SessionError =
    | CostsOutsideDate | ClockRewind | DuplicateIntent | AlreadyPlanned | NoIntent
    | LiquidityReuse | LedgerMismatch | MarketsUnordered
    | LedgerFailed(ledger: LedgerError) | ReduceFailed(reduce: ReduceError)
    | InvalidEvent | MatchMismatch | MatchRewind | NotAccepted | BudgetExceedsDisplayed
    | NoLineage | LineageMismatch | StaleResources | PolicyMismatch | MissingPriority
    | Blocked(reasons: seq<BlockReason>) | UnknownOrder | ExitLineage | QuoteDate | CursorConflict

  datatype BlockReason =
    | NoEffectivePolicy | MarketStatusIneligible | StaleQuote | InsufficientAsk | InsufficientBid
    | PriceLimit | EntryNotTerminal | EntryUnfilled | BeforeExitHorizon | PositionUnavailable
    | InsufficientSettledAboveCore | QuantityLimit | OrderNotionalLimit | CycleLimit
    | DailyLossLimit | CashLimit

  function LiftLedger<T>(r: Result<T, LedgerError>): Result<T, SessionError> {
    if r.Ok? then Ok(r.value) else Err(LedgerFailed(r.error))
  }

  function LiftReduce<T>(r: Result<T, ReduceError>): Result<T, SessionError> {
    if r.Ok? then Ok(r.value) else Err(ReduceFailed(r.error))
  }

  /** The loop variables of `reconcile`. */
  datatype Replay = Replay(ledger: Ledger, intents: map<Digest, Intent>, events: map<Digest, seq<Event>>,
                           entries: set<Digest>, liquidity: map<LiquidityKey, LiquidityUse>, lastAt: Instant)

  function Settle(h: Digests, l: Ledger, intent: Intent, state: OrderState, costs: CostPolicy): Result<Ledger, LedgerError> {
    if intent.leg == Entry then SettleEntry(h, l, intent, state, costs)
    else SettleExit(h, l, intent, state, costs)
  }

  function Reserve(h: Digests, l: Ledger, intent: Intent): Result<Ledger, LedgerError> {
    if intent.leg == Entry then ReserveEntry(h, l, intent) else ReserveExit(h, l, intent)
  }

  function SpendLiquidity(liquidity: map<LiquidityKey, LiquidityUse>, fill: Option<FillEvidence>): Result<map<LiquidityKey, LiquidityUse>, SessionError> {
    if fill.None? then Ok(liquidity)
    else
      var f := fill.value;
      var key := LiquidityKey(f.stream, f.sequence, f.symbol, f.action);
      var use := if key in liquidity then liquidity[key] else LiquidityUse(0, f.available, f.source);
      if use.source != f.source || use.used + f.filled > use.capacity then Err(LiquidityReuse)
      else Ok(liquidity[key := use.(used := use.used + f.filled)])
  }

  function ReplayOrder(h: Digests, r: Replay, intent: Intent): Result<Replay, SessionError> {
    var sha := h.intent(intent);
    if sha in r.intents then Err(DuplicateIntent)
    else if intent.leg == Entry && intent.arbitration in r.entries then Err(AlreadyPlanned)
    else
      var ledger :- LiftLedger(Reserve(h, r.ledger, intent));
      Ok(r.(ledger := ledger,
            intents := r.intents[sha := intent],
            events := r.events[sha := []],
            entries := if intent.leg == Entry then r.entries + {intent.arbitration} else r.entries,
            lastAt := intent.createdAt))
  }

  function ReplayReport(h: Digests, costs: CostPolicy, r: Replay, e: Event): Result<Replay, SessionError> {
    if e.intentSha !in r.intents || e.intentSha !in r.events then Err(NoIntent)
    else
      var intent := r.intents[e.intentSha];
      var history := r.events[e.intentSha] + [e];
      var state :- LiftReduce(Reduce(h, intent, history));
      var liquidity :- SpendLiquidity(r.liquidity, e.fill);
      var ledger :- if state.status.Terminal() then LiftLedger(Settle(h, r.ledger, intent, state, costs)) else Ok(r.ledger);
      Ok(r.(ledger := ledger, events := r.events[e.intentSha := history], liquidity := liquidity, lastAt := e.occurredAt))
  }

  function ReplayStep(h: Digests, costs: CostPolicy, r: Replay, op: Operation): Result<Replay, SessionError> {
    if op.At() < r.lastAt then Err(ClockRewind)
    else match op
      case Order(intent) => ReplayOrder(h, r, intent)
      case Report(e) => ReplayReport(h, costs, r, e)
  }

  /** Everything a log is replayed against. */
  datatype Base = Base(account: Account, costs: CostPolicy, tradeDate: Day)
  {
    predicate Valid() { account.Valid() && costs.Valid() }
  }

  function ReplayStart(base: Base): Result<Replay, SessionError> {
    var ledger :- LiftLedger(Initialize(base.account, base.tradeDate));
    Ok(Replay(ledger, map[], map[], {}, map[], base.account.asOf))
  }

  /** What the loop of `reconcile` computes. */
  function ReplayAll(h: Digests, base: Base, ops: seq<Operation>): Result<Replay, SessionError> {
    if ops == [] then ReplayStart(base)
    else
      var r :- ReplayAll(h, base, ops[..|ops| - 1]);
      ReplayStep(h, base.costs, r, ops[|ops| - 1])
  }

  lemma {:induction false} ReplayErrorSticks(h: Digests, base: Base, ops: seq<Operation>, k: nat)
    requires k <= |ops| && ReplayAll(h, base, ops[..k]).Err?
    ensures ReplayAll(h, base, ops) == ReplayAll(h, base, ops[..k])
  {
    if k < |ops| {
      assert ops[..|ops| - 1][..k] == ops[..k];
      ReplayErrorSticks(h, base, ops[..|ops| - 1], k);
    } else {
      assert ops[..k] == ops;
    }
  }

  /** The source's replay loop. */
  method ReplayLoop(h: Digests, base: Base, ops: seq<Operation>) returns (r: Result<Replay, SessionError>)
    ensures r == ReplayAll(h, base, ops)
  {
    r := ReplayStart(base);
    if r.Err? {
      assert ops[..0] == [];
      ReplayErrorSticks(h, base, ops, 0);
      return;
    }
    var i := 0;
    while i < |ops|
      invariant 0 <= i <= |ops|
      invariant r.Ok? && r == ReplayAll(h, base, ops[..i])
    {
      assert ops[..i + 1][..i] == ops[..i];
      r := ReplayStep(h, base.costs, r.value, ops[i]);
      if r.Err? {
        ReplayErrorSticks(h, base, ops, i + 1);
        return;
      }
      i := i + 1;
    }
    assert ops[..|ops|] == ops;
  }

  // ----- Reading the log -----

  /** The events of one order, oldest first. */
  function EventsOf(ops: seq<Operation>, sha: Digest): seq<Event> {
    if ops == [] then []
    else
      var front, last := EventsOf(ops[..|ops| - 1], sha), ops[|ops| - 1];
      if last.Report? && last.event.intentSha == sha then front + [last.event] else front
  }

  function IntentsOf(ops: seq<Operation>): seq<Intent> {
    if ops == [] then []
    else
      var front, last := IntentsOf(ops[..|ops| - 1]), ops[|ops| - 1];
      if last.Order? then front + [last.intent] else front
  }

  /** The first order of the log with a given digest. */
  function FindOrder(h: Digests, ops: seq<Operation>, sha: Digest): Option<Intent> {
    if ops == [] then None
    else
      var front, last := FindOrder(h, ops[..|ops| - 1], sha), ops[|ops| - 1];
      if front.Some? then front
      else if last.Order? && h.intent(last.intent) == sha then Some(last.intent)
      else None
  }

  /** The replay's dictionaries hold exactly what a reader finds in the log. */
  ghost predicate Linked(h: Digests, ops: seq<Operation>, r: Replay) {
    && r.events.Keys == r.intents.Keys
    && (forall sha :: FindOrder(h, ops, sha) == if sha in r.intents then Some(r.intents[sha]) else None)
    && (forall sha :: EventsOf(ops, sha) == if sha in r.intents then r.events[sha] else [])
    && (forall sha :: sha in r.intents ==> h.intent(r.intents[sha]) == sha && r.intents[sha].Valid())
    && (forall sha :: sha in r.intents ==> AllValid(r.events[sha]) && Reduce(h, r.intents[sha], r.events[sha]).Ok?)
  }

  predicate AllOpsValid(ops: seq<Operation>) {
    forall i :: 0 <= i < |ops| ==> ops[i].Valid()
  }

  lemma {:induction false} ReplayLinked(h: Digests, base: Base, ops: seq<Operation>)
    requires AllOpsValid(ops) && ReplayAll(h, base, ops).Ok?
    ensures Linked(h, ops, ReplayAll(h, base, ops).value)
  {
    hide Reduce, ReplayStep, Linked;
    if ops == [] {
      LinkedStart(h, base);
    } else {
      var front, last := ops[..|ops| - 1], ops[|ops| - 1];
      ReplayLinked(h, base, front);
      LinkedStep(h, base.costs, front, last, ReplayAll(h, base, front).value);
      assert front + [last] == ops;
    }
  }

  lemma LinkedStart(h: Digests, base: Base)
    requires ReplayStart(base).Ok?
    ensures Linked(h, [], ReplayStart(base).value)
  {}

  lemma LinkedStep(h: Digests, costs: CostPolicy, front: seq<Operation>, last: Operation, r: Replay)
    requires Linked(h, front, r) && last.Valid() && ReplayStep(h, costs, r, last).Ok?
    ensures Linked(h, front + [last], ReplayStep(h, costs, r, last).value)
  {
    hide Reduce, Settle, Reserve, SpendLiquidity, Linked;
    match last
    case Order(intent) => LinkedOrder(h, front, intent, r, ReplayStep(h, costs, r, last).value);
    case Report(e) => LinkedReport(h, front, e, r, ReplayStep(h, costs, r, last).value);
  }

  lemma LinkedOrder(h: Digests, front: seq<Operation>, intent: Intent, r: Replay, n: Replay)
    requires Linked(h, front, r) && intent.Valid() && h.intent(intent) !in r.intents
    requires n.intents == r.intents[h.intent(intent) := intent] && n.events == r.events[h.intent(intent) := []]
    ensures Linked(h, front + [Order(intent)], n)
  {
    hide Reduce, EventsOf, FindOrder, AllValid, Intent.Valid;
    StartAccepted(h, intent);
    assert AllValid([]) by { NoEvents(); }
    ReadAppended(h, front, Order(intent));
  }

  lemma LinkedReport(h: Digests, front: seq<Operation>, e: Event, r: Replay, n: Replay)
    requires Linked(h, front, r) && e.Valid() && e.intentSha in r.intents && e.intentSha in r.events
    requires n.intents == r.intents && n.events == r.events[e.intentSha := r.events[e.intentSha] + [e]]
    requires Reduce(h, r.intents[e.intentSha], r.events[e.intentSha] + [e]).Ok?
    ensures Linked(h, front + [Report(e)], n)
  {
    hide Reduce, EventsOf, FindOrder, AllValid, Intent.Valid;
    OneMoreEvent(r.events[e.intentSha], e);
    ReadAppended(h, front, Report(e));
  }

  lemma NoEvents()
    ensures AllValid([])
  {}

  lemma OneMoreEvent(events: seq<Event>, e: Event)
    requires AllValid(events) && e.Valid()
    ensures AllValid(events + [e])
  {}

  lemma ReadAppended(h: Digests, front: seq<Operation>, last: Operation)
    ensures forall sha :: EventsOf(front + [last], sha)
              == EventsOf(front, sha) + if last.Report? && last.event.intentSha == sha then [last.event] else []
    ensures forall sha :: FindOrder(h, front + [last], sha)
              == if FindOrder(h, front, sha).Some? then FindOrder(h, front, sha)
                 else if last.Order? && h.intent(last.intent) == sha then Some(last.intent) else None
  {
    var ops := front + [last];
    assert ops[..|ops| - 1] == front;
  }

  lemma StartAccepted(h: Digests, intent: Intent)
    ensures Reduce(h, intent, []) == Ok(OrderState(h.intent(intent), Created, 0, None, 0, None))
  {}
}
