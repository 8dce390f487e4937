/** The circuit breaker and the risk ledger, over every sequence of marks, errors,
    fills and day changes. The calendar day is a parameter of each call. */
module Risk {
  import opened Options
  import opened Drawdowns

  datatype Side = Buy | Sell

  datatype CircuitState = Warmup | Armed | Tripped

  /** What the recorded reason says; only a drawdown trip is lifted by a new day. */
  datatype Reason = NoReason | DrawdownReason | ErrorReason

  datatype Breaker = Breaker(limit: real, maxQty: int, maxErrors: int, daily: real, cur: real,
                             state: CircuitState, reason: Reason, errors: nat, hasPosition: bool,
                             openSide: Option<Side>, ready: bool, day: Option<int>)

  datatype Order = Order(side: Side, qty: int)

  datatype Verdict = Approved | NotReady | OutOfHours | IsTripped | TooMany | TooFew | SamePosition

  function Start(equity: real, limit: real, maxQty: int, maxErrors: int): Breaker {
    Breaker(limit, maxQty, maxErrors, equity, equity, Warmup, NoReason, 0, false, None, false, None)
  }

  function TripFor(b: Breaker, reason: Reason): Breaker {
    if b.state.Tripped? then b else b.(state := Tripped, reason := reason)
  }

  function DailyReset(b: Breaker, today: int): Breaker {
    if b.day == Some(today) then b
    else
      var c := b.(day := Some(today), daily := b.cur);
      if b.state.Tripped? && b.reason.DrawdownReason? then c.(state := Armed, reason := NoReason) else c
  }

  function Marked(b: Breaker, today: int, equity: real): Breaker {
    var c := DailyReset(b, today).(cur := equity);
    if Drop(c.daily, equity) >= c.limit then TripFor(c, DrawdownReason) else c
  }

  function Errored(b: Breaker): Breaker {
    var c := b.(errors := b.errors + 1);
    if c.errors >= c.maxErrors then TripFor(c, ErrorReason) else c
  }

  function Readied(b: Breaker): Breaker {
    b.(ready := true, state := if b.state.Warmup? then Armed else b.state)
  }

  function Judge(b: Breaker, order: Order, inHours: bool): Verdict {
    if !b.ready then NotReady
    else if !inHours then OutOfHours
    else if b.state.Tripped? then IsTripped
    else if order.qty > b.maxQty then TooMany
    else if order.qty < 1 then TooFew
    else if b.hasPosition && b.openSide == Some(order.side) then SamePosition
    else Approved
  }

  // ---- The classes -------------------------------------------------------------------------

  class CircuitBreaker {
    const limit: real
    const maxQty: int
    const maxErrors: int
    var dailyEquity: real
    var curEquity: real
    var state: CircuitState
    var tripReason: Reason
    var consecErrors: nat
    var hasPosition: bool
    var openSide: Option<Side>
    var bufferReady: bool
    var lastResetDay: Option<int>

    function Model(): Breaker
      reads this
    {
      Breaker(limit, maxQty, maxErrors, dailyEquity, curEquity, state, tripReason, consecErrors,
              hasPosition, openSide, bufferReady, lastResetDay)
    }

    constructor (equity: real, limit: real, maxQty: int, maxErrors: int)
      ensures Model() == Start(equity, limit, maxQty, maxErrors)
    {
      this.limit, this.maxQty, this.maxErrors := limit, maxQty, maxErrors;
      dailyEquity, curEquity, state, tripReason, consecErrors := equity, equity, Warmup, NoReason, 0;
      hasPosition, openSide, bufferReady, lastResetDay := false, None, false, None;
    }

    method SetBufferReady()
      modifies this
      ensures Model() == Readied(old(Model()))
    {
      bufferReady := true;
      if state == Warmup {
        state := Armed;
      }
    }

    method Trip(reason: Reason)
      modifies this`state, this`tripReason
      ensures Model() == TripFor(old(Model()), reason)
    {
      if state != Tripped {
        state := Tripped;
        tripReason := reason;
      }
    }

    method ResetDaily(today: int)
      modifies this
      ensures Model() == DailyReset(old(Model()), today)
    {
      if lastResetDay != Some(today) {
        lastResetDay := Some(today);
        dailyEquity := curEquity;
        if state == Tripped && tripReason == DrawdownReason {
          state := Armed;
          tripReason := NoReason;
        }
      }
    }

    method UpdateEquity(equity: real, today: int)
      modifies this
      ensures Model() == Marked(old(Model()), today, equity)
    {
      ResetDaily(today);
      curEquity := equity;
      var dd := Drop(dailyEquity, equity);
      if dd >= limit {
        Trip(DrawdownReason);
      }
    }

    method RecordError()
      modifies this
      ensures Model() == Errored(old(Model()))
    {
      consecErrors := consecErrors + 1;
      if consecErrors >= maxErrors {
        Trip(ErrorReason);
      }
    }

    method ClearErrors()
      modifies this
      ensures Model() == old(Model()).(errors := 0)
    {
      consecErrors := 0;
    }

    method SetPositionOpen(open: bool, side: Option<Side>)
      modifies this
      ensures Model() == old(Model()).(hasPosition := open, openSide := if open then side else None)
    {
      hasPosition := open;
      openSide := if open then side else None;
    }

    method Approve(order: Order, inHours: bool) returns (v: Verdict)
      ensures v == Judge(Model(), order, inHours)
    {
      if !bufferReady {
        return NotReady;
      }
      if !inHours {
        return OutOfHours;
      }
      if state == Tripped {
        return IsTripped;
      }
      if order.qty > maxQty {
        return TooMany;
      }
      if order.qty < 1 {
        return TooFew;
      }
      if hasPosition && openSide == Some(order.side) {
        return SamePosition;
      }
      return Approved;
    }
  }

  datatype Ledger = Ledger(cur: real, daily: real, peak: real, maxDd: real, dailyDd: real, date: Option<int>)

  function Opened(equity: real): Ledger { Ledger(equity, equity, equity, 0.0, 0.0, None) }

  function DailyCheck(l: Ledger, today: int): Ledger {
    if l.date == Some(today) then l else l.(date := Some(today), daily := l.cur, dailyDd := 0.0)
  }

  function Booked(l: Ledger, today: int, equity: real): Ledger {
    var c := DailyCheck(l, today);
    var peak := Higher(c.peak, equity);
    Ledger(equity, c.daily, peak, Higher(c.maxDd, Fall()(peak, equity)), Drop(c.daily, equity), c.date)
  }

  class RiskLedger {
    var curEq: real
    var dailyEq: real
    var peakEq: real
    var maxDd: real
    var dailyDd: real
    var dailyDate: Option<int>
    var fills: nat

    function Model(): Ledger
      reads this
    {
      Ledger(curEq, dailyEq, peakEq, maxDd, dailyDd, dailyDate)
    }

    constructor (equity: real)
      ensures Model() == Opened(equity) && fills == 0
    {
      curEq, dailyEq, peakEq, maxDd, dailyDd, dailyDate, fills := equity, equity, equity, 0.0, 0.0, None, 0;
    }

    method CheckDay(today: int)
      modifies this`dailyDate, this`dailyEq, this`dailyDd
      ensures Model() == DailyCheck(old(Model()), today)
    {
      if dailyDate != Some(today) {
        dailyDate := Some(today);
        dailyEq := curEq;
        dailyDd := 0.0;
      }
    }

    /** Of a fill, only its effect on the risk figures. */
    method RecordFill(today: int)
      modifies this
      ensures Model() == DailyCheck(old(Model()), today) && fills == old(fills) + 1
    {
      CheckDay(today);
      fills := fills + 1;
    }

    method UpdateEquity(equity: real, today: int)
      modifies this
      ensures Model() == Booked(old(Model()), today, equity) && fills == old(fills)
    {
      CheckDay(today);
      curEq := equity;
      peakEq := Higher(peakEq, equity);
      var dd := Fall()(peakEq, equity);
      maxDd := Higher(maxDd, dd);
      dailyDd := Drop(dailyEq, equity);
    }
  }

  // ---- Runs ------------------------------------------------------------------------------

  datatype Event =
    | Ready
    | Mark(today: int, equity: real)
    | Fill(today: int)
    | Error
    | Success
    | Position(open: bool, side: Option<Side>)

  function Next(b: Breaker, e: Event): Breaker {
    match e
    case Ready => Readied(b)
    case Mark(today, equity) => Marked(b, today, equity)
    case Fill(_) => b
    case Error => Errored(b)
    case Success => b.(errors := 0)
    case Position(open, side) => b.(hasPosition := open, openSide := if open then side else None)
  }

  function Run(b: Breaker, es: seq<Event>): Breaker {
    if |es| == 0 then b else Next(Run(b, es[..|es| - 1]), es[|es| - 1])
  }

  function NextLedger(l: Ledger, e: Event): Ledger {
    match e
    case Mark(today, equity) => Booked(l, today, equity)
    case Fill(today) => DailyCheck(l, today)
    case _ => l
  }

  function RunLedger(l: Ledger, es: seq<Event>): Ledger {
    if |es| == 0 then l else NextLedger(RunLedger(l, es[..|es| - 1]), es[|es| - 1])
  }

  // What the events alone say, without either object.

  /** The last equity marked. */
  function LastMark(start: real, es: seq<Event>): real {
    if |es| == 0 then start
    else if es[|es| - 1].Mark? then es[|es| - 1].equity
    else LastMark(start, es[..|es| - 1])
  }

  function LastDay(es: seq<Event>): Option<int> {
    if |es| == 0 then None
    else if es[|es| - 1].Mark? then Some(es[|es| - 1].today)
    else LastDay(es[..|es| - 1])
  }

  /** The opening equity of the day last marked: the mark before that day's first. */
  function Opening(start: real, es: seq<Event>): real {
    if |es| == 0 then start
    else
      var init, last := es[..|es| - 1], es[|es| - 1];
      if last.Mark? && LastDay(init) != Some(last.today) then LastMark(start, init) else Opening(start, init)
  }

  lemma {:induction false} EquityIsHistory(b: Breaker, es: seq<Event>)
    requires b.day == None && b.daily == b.cur
    ensures var c := Run(b, es);
      c.cur == LastMark(b.cur, es) && c.day == LastDay(es) && c.daily == Opening(b.cur, es)
      && c.limit == b.limit && c.maxErrors == b.maxErrors
  {
    if |es| > 0 { EquityIsHistory(b, es[..|es| - 1]); }
  }

  predicate UnderLimitUnlessTripped(b: Breaker) { !b.state.Tripped? ==> Drop(b.daily, b.cur) < b.limit }

  lemma StepKeepsUnderLimit(b: Breaker, e: Event)
    requires UnderLimitUnlessTripped(b)
    ensures UnderLimitUnlessTripped(Next(b, e)) && Next(b, e).limit == b.limit
  {}

  lemma {:induction false} UntrippedIsUnderLimit(b: Breaker, es: seq<Event>)
    requires UnderLimitUnlessTripped(b)
    ensures UnderLimitUnlessTripped(Run(b, es)) && Run(b, es).limit == b.limit
  {
    if |es| > 0 {
      UntrippedIsUnderLimit(b, es[..|es| - 1]);
      StepKeepsUnderLimit(Run(b, es[..|es| - 1]), es[|es| - 1]);
    }
  }

  lemma {:induction false} ReadyIsHistory(b: Breaker, es: seq<Event>)
    requires !b.ready
    ensures Run(b, es).ready <==> Ready in es
  {
    if |es| > 0 {
      var init, last := es[..|es| - 1], es[|es| - 1];
      ReadyIsHistory(b, init);
      assert es == init + [last];
    }
  }

  lemma DropFromItself(x: real)
    ensures Drop(x, x) == 0.0
  {}

  /** Approval means, over every run: the buffer had filled, and the last mark is
      under the drawdown limit against the opening equity of its day. */
  lemma ApprovalMeansUnderLimit(equity: real, limit: real, maxQty: int, maxErrors: int, es: seq<Event>,
                                order: Order, inHours: bool)
    requires limit > 0.0
    ensures Judge(Run(Start(equity, limit, maxQty, maxErrors), es), order, inHours).Approved? ==>
      && Drop(Opening(equity, es), LastMark(equity, es)) < limit
      && Ready in es && inHours && 1 <= order.qty
  {
    var b := Start(equity, limit, maxQty, maxErrors);
    DropFromItself(equity);
    EquityIsHistory(b, es);
    UntrippedIsUnderLimit(b, es);
    ReadyIsHistory(b, es);
  }

  /** The limit must be positive: otherwise the very first approval already breaks it. */
  lemma LimitMustBePositive(equity: real, limit: real)
    ensures limit > 0.0 <==>
      forall es: seq<Event>, order :: Judge(Run(Start(equity, limit, 100, 3), es), order, true).Approved? ==>
        Drop(Opening(equity, es), LastMark(equity, es)) < limit
  {
    if limit > 0.0 {
      forall es: seq<Event>, order | Judge(Run(Start(equity, limit, 100, 3), es), order, true).Approved?
        ensures Drop(Opening(equity, es), LastMark(equity, es)) < limit
      {
        ApprovalMeansUnderLimit(equity, limit, 100, 3, es, order, true);
      }
    } else {
      var es, order := [Ready], Order(Buy, 1);
      assert es[..0] == [];
      assert Judge(Run(Start(equity, limit, 100, 3), es), order, true).Approved?;
      DropFromItself(equity);
    }
  }

  /** A trip recorded for errors is final: no later event lets an order through. */
  lemma {:induction false} ErrorTripIsFinal(b: Breaker, es: seq<Event>, order: Order, inHours: bool)
    requires b.state.Tripped? && b.reason.ErrorReason?
    ensures var c := Run(b, es); c.state.Tripped? && c.reason.ErrorReason? && !Judge(c, order, inHours).Approved?
  {
    if |es| > 0 { ErrorTripIsFinal(b, es[..|es| - 1], order, inHours); }
  }

  /** The side under which a position was last opened, if it is still open. */
  function OpenedSide(es: seq<Event>): Option<Side> {
    if |es| == 0 then None
    else
      var last := es[|es| - 1];
      if !last.Position? then OpenedSide(es[..|es| - 1])
      else if last.open then last.side
      else None
  }

  lemma {:induction false} SideIsHistory(b: Breaker, es: seq<Event>)
    requires b.openSide.None?
    ensures Run(b, es).openSide == OpenedSide(es)
    ensures OpenedSide(es).Some? ==> Run(b, es).hasPosition
  {
    if |es| > 0 { SideIsHistory(b, es[..|es| - 1]); }
  }

  /** The double-entry guard, in terms of the events: it refuses exactly the orders
      that pass the guards before it and repeat the side of the open position. */
  lemma DoubleEntryIff(equity: real, limit: real, maxQty: int, maxErrors: int, es: seq<Event>,
                       order: Order, inHours: bool)
    ensures var b := Run(Start(equity, limit, maxQty, maxErrors), es);
      Judge(b, order, inHours).SamePosition? <==>
      b.ready && inHours && !b.state.Tripped? && 1 <= order.qty <= b.maxQty && OpenedSide(es) == Some(order.side)
  {
    SideIsHistory(Start(equity, limit, maxQty, maxErrors), es);
  }

  lemma {:induction false} MaxQtyStays(b: Breaker, es: seq<Event>)
    ensures Run(b, es).maxQty == b.maxQty
  {
    if |es| > 0 { MaxQtyStays(b, es[..|es| - 1]); }
  }

  /** The errors since the last success. */
  function ErrorsSince(es: seq<Event>): nat {
    if |es| == 0 then 0
    else
      var init, last := es[..|es| - 1], es[|es| - 1];
      if last.Success? then 0 else ErrorsSince(init) + (if last.Error? then 1 else 0)
  }

  lemma {:induction false} ErrorsAreHistory(b: Breaker, es: seq<Event>)
    requires b.errors == 0
    ensures Run(b, es).errors == ErrorsSince(es)
  {
    if |es| > 0 { ErrorsAreHistory(b, es[..|es| - 1]); }
  }

  /** What an order is answered over every run, from the events and the trip alone. */
  lemma VerdictIs(equity: real, limit: real, maxQty: int, maxErrors: int, es: seq<Event>,
                  order: Order, inHours: bool)
    ensures var b := Run(Start(equity, limit, maxQty, maxErrors), es);
      var v := Judge(b, order, inHours);
      && (v.NotReady? <==> Ready !in es)
      && (v.OutOfHours? <==> Ready in es && !inHours)
      && (v.IsTripped? <==> Ready in es && inHours && b.state.Tripped?)
      && (v.TooMany? <==> Ready in es && inHours && !b.state.Tripped? && order.qty > maxQty)
      && (v.TooFew? <==> Ready in es && inHours && !b.state.Tripped? && order.qty <= maxQty && order.qty < 1)
  {
    ReadyIsHistory(Start(equity, limit, maxQty, maxErrors), es);
    MaxQtyStays(Start(equity, limit, maxQty, maxErrors), es);
  }

  /** An order is approved exactly when the buffer has filled, the market is open, the
      breaker is not tripped, the quantity is within its bounds and the order does not
      repeat the side of the open position. */
  lemma ApprovedIff(equity: real, limit: real, maxQty: int, maxErrors: int, es: seq<Event>,
                    order: Order, inHours: bool)
    ensures var b := Run(Start(equity, limit, maxQty, maxErrors), es);
      Judge(b, order, inHours).Approved? <==>
      Ready in es && inHours && !b.state.Tripped? && 1 <= order.qty <= maxQty && OpenedSide(es) != Some(order.side)
  {
    ReadyIsHistory(Start(equity, limit, maxQty, maxErrors), es);
    MaxQtyStays(Start(equity, limit, maxQty, maxErrors), es);
    SideIsHistory(Start(equity, limit, maxQty, maxErrors), es);
  }

  predicate Unsided(es: seq<Event>) { forall i :: 0 <= i < |es| && es[i].Position? ==> es[i].side.None? }

  lemma {:induction false} UnsidedOpensNone(es: seq<Event>)
    requires Unsided(es)
    ensures OpenedSide(es).None?
  {
    if |es| > 0 { UnsidedOpensNone(es[..|es| - 1]); }
  }

  /** So positions opened without a side are never guarded. */
  lemma UnsidedIsUnguarded(equity: real, limit: real, maxQty: int, maxErrors: int, es: seq<Event>,
                           order: Order, inHours: bool)
    requires Unsided(es)
    ensures !Judge(Run(Start(equity, limit, maxQty, maxErrors), es), order, inHours).SamePosition?
  {
    DoubleEntryIff(equity, limit, maxQty, maxErrors, es, order, inHours);
    UnsidedOpensNone(es);
  }

  predicate NoNewDay(es: seq<Event>, today: int) {
    forall i :: 0 <= i < |es| && es[i].Mark? ==> es[i].today == today
  }

  /** A drawdown trip lasts until the first mark of another day, however equity recovers. */
  lemma {:induction false} DrawdownTripLastsTheDay(b: Breaker, es: seq<Event>, today: int, order: Order, inHours: bool)
    requires b.state.Tripped? && b.day == Some(today) && NoNewDay(es, today)
    ensures var c := Run(b, es); c.state.Tripped? && c.day == Some(today) && !Judge(c, order, inHours).Approved?
  {
    if |es| > 0 { DrawdownTripLastsTheDay(b, es[..|es| - 1], today, order, inHours); }
  }

  /** The marks that release a tripped breaker: the first of another day, after a
      drawdown trip, within the limit of the equity last marked. */
  predicate Lifts(b: Breaker, e: Event) {
    && e.Mark? && b.day != Some(e.today)
    && b.state.Tripped? && b.reason.DrawdownReason?
    && Drop(b.cur, e.equity) < b.limit
  }

  /** Nothing else releases it. */
  lemma TripEndsIff(b: Breaker, e: Event)
    requires b.state.Tripped?
    ensures !Next(b, e).state.Tripped? <==> Lifts(b, e)
  {}

  /** The opening equity a mark is compared with: the day's own, or on a new day the
      last mark before it. */
  function OpeningFor(b: Breaker, today: int): real { if b.day == Some(today) then b.daily else b.cur }

  /** An untripped breaker trips exactly on a mark that is down by the limit since the
      day opened, or on the error that reaches the error limit. */
  lemma TripBeginsIff(b: Breaker, e: Event)
    requires !b.state.Tripped?
    ensures Next(b, e).state.Tripped? <==>
      (e.Mark? && Drop(OpeningFor(b, e.today), e.equity) >= b.limit) || (e.Error? && b.errors + 1 >= b.maxErrors)
    ensures Next(b, e).state.Tripped? ==> Next(b, e).reason == if e.Mark? then DrawdownReason else ErrorReason
  {}

  /** Too many consecutive errors keep the breaker tripped. */
  predicate Guarded(b: Breaker) { b.errors >= b.maxErrors ==> b.state.Tripped? }

  predicate ForgetsErrors(b: Breaker, e: Event) { Lifts(b, e) && b.errors >= b.maxErrors }

  lemma GuardedStepIff(b: Breaker, e: Event)
    requires Guarded(b) && b.maxErrors >= 1
    ensures Guarded(Next(b, e)) <==> !ForgetsErrors(b, e)
  {}

  lemma {:induction false} LimitsStay(b: Breaker, es: seq<Event>)
    ensures Run(b, es).maxErrors == b.maxErrors && Run(b, es).limit == b.limit
  {
    if |es| > 0 { LimitsStay(b, es[..|es| - 1]); }
  }

  lemma UnfoldRun(b: Breaker, es: seq<Event>, i: nat)
    requires i < |es|
    ensures Run(b, es[..0]) == b && Run(b, es[..i + 1]) == Next(Run(b, es[..i]), es[i])
  {
    assert es[..i + 1][..i] == es[..i];
  }

  predicate AlwaysGuarded(b: Breaker, es: seq<Event>) {
    forall i :: 0 <= i <= |es| ==> Guarded(Run(b, es[..i]))
  }

  predicate NeverForgets(b: Breaker, es: seq<Event>) {
    forall i :: 0 <= i < |es| ==> !ForgetsErrors(Run(b, es[..i]), es[i])
  }

  lemma {:induction false} GuardedUpTo(b: Breaker, es: seq<Event>, i: nat)
    requires Guarded(b) && b.maxErrors >= 1 && NeverForgets(b, es) && i <= |es|
    ensures Guarded(Run(b, es[..i]))
  {
    if i == 0 {
      assert es[..0] == [];
    } else {
      GuardedUpTo(b, es, i - 1);
      LimitsStay(b, es[..i - 1]);
      UnfoldRun(b, es, i - 1);
      GuardedStepIff(Run(b, es[..i - 1]), es[i - 1]);
    }
  }

  /** Over a run the error limit holds throughout exactly when no mark of a new day
      lifts a drawdown trip while the errors are at their limit. */
  lemma GuardedAlwaysIff(b: Breaker, es: seq<Event>)
    requires Guarded(b) && b.maxErrors >= 1
    ensures AlwaysGuarded(b, es) <==> NeverForgets(b, es)
  {
    if AlwaysGuarded(b, es) {
      forall i | 0 <= i < |es| ensures !ForgetsErrors(Run(b, es[..i]), es[i]) {
        LimitsStay(b, es[..i]);
        UnfoldRun(b, es, i);
        GuardedStepIff(Run(b, es[..i]), es[i]);
        assert Guarded(Run(b, es[..i + 1]));
      }
    } else if NeverForgets(b, es) {
      forall i | 0 <= i <= |es| ensures Guarded(Run(b, es[..i])) { GuardedUpTo(b, es, i); }
    }
  }

  /** It can happen: errors after a drawdown trip leave no reason of their own, the next
      day lifts both, and orders pass with the error limit still exceeded. */
  lemma ErrorsAfterDrawdownAreForgotten()
    ensures var es := [Ready, Mark(1, 90.0), Error, Error, Error, Mark(2, 90.0)];
      var b := Run(Start(100.0, 0.02, 100, 3), es);
      b.errors >= b.maxErrors && Judge(b, Order(Buy, 1), true).Approved?
  {
    var b0 := Start(100.0, 0.02, 100, 3);
    var es := [Ready, Mark(1, 90.0), Error, Error, Error, Mark(2, 90.0)];
    var b1 := Next(b0, es[0]);
    var b2 := Next(b1, es[1]);
    var b3 := Next(b2, es[2]);
    var b4 := Next(b3, es[3]);
    var b5 := Next(b4, es[4]);
    UnfoldRun(b0, es, 0);
    UnfoldRun(b0, es, 1);
    UnfoldRun(b0, es, 2);
    UnfoldRun(b0, es, 3);
    UnfoldRun(b0, es, 4);
    UnfoldRun(b0, es, 5);
    assert Run(b0, es[..5]) == b5;
    assert es[..6] == es;
  }

  predicate ArmedIsReady(b: Breaker) { b.state.Armed? ==> b.ready }

  predicate ArmsEarly(b: Breaker, e: Event) { Lifts(b, e) && !b.ready }

  lemma ArmedIsReadyStepIff(b: Breaker, e: Event)
    requires ArmedIsReady(b)
    ensures ArmedIsReady(Next(b, e)) <==> !ArmsEarly(b, e)
  {}

  predicate AlwaysArmedIsReady(b: Breaker, es: seq<Event>) {
    forall i :: 0 <= i <= |es| ==> ArmedIsReady(Run(b, es[..i]))
  }

  predicate NeverArmsEarly(b: Breaker, es: seq<Event>) {
    forall i :: 0 <= i < |es| ==> !ArmsEarly(Run(b, es[..i]), es[i])
  }

  lemma {:induction false} ArmedIsReadyUpTo(b: Breaker, es: seq<Event>, i: nat)
    requires ArmedIsReady(b) && NeverArmsEarly(b, es) && i <= |es|
    ensures ArmedIsReady(Run(b, es[..i]))
  {
    if i == 0 {
      assert es[..0] == [];
    } else {
      ArmedIsReadyUpTo(b, es, i - 1);
      UnfoldRun(b, es, i - 1);
      ArmedIsReadyStepIff(Run(b, es[..i - 1]), es[i - 1]);
    }
  }

  /** Over a run, armed means ready throughout exactly when no mark of a new day lifts
      a drawdown trip before the buffer has filled. */
  lemma ArmedIsReadyAlwaysIff(b: Breaker, es: seq<Event>)
    requires ArmedIsReady(b)
    ensures AlwaysArmedIsReady(b, es) <==> NeverArmsEarly(b, es)
  {
    if AlwaysArmedIsReady(b, es) {
      forall i | 0 <= i < |es| ensures !ArmsEarly(Run(b, es[..i]), es[i]) {
        UnfoldRun(b, es, i);
        ArmedIsReadyStepIff(Run(b, es[..i]), es[i]);
        assert ArmedIsReady(Run(b, es[..i + 1]));
      }
    } else if NeverArmsEarly(b, es) {
      forall i | 0 <= i <= |es| ensures ArmedIsReady(Run(b, es[..i])) { ArmedIsReadyUpTo(b, es, i); }
    }
  }

  /** It can happen, and the warm-up guard still refuses the order. */
  lemma ArmedBeforeReady()
    ensures var es := [Mark(1, 90.0), Mark(2, 90.0)];
      var b := Run(Start(100.0, 0.02, 100, 3), es);
      b.state.Armed? && !b.ready && Judge(b, Order(Buy, 1), true).NotReady?
  {
    var es := [Mark(1, 90.0), Mark(2, 90.0)];
    UnfoldRun(Start(100.0, 0.02, 100, 3), es, 0);
    UnfoldRun(Start(100.0, 0.02, 100, 3), es, 1);
    assert es[..2] == es;
  }

  // ---- The ledger beside the breaker ---------------------------------------------------------

  predicate Days(es: seq<Event>, i: int, d: int)
    requires 0 <= i < |es|
  {
    (es[i].Mark? || es[i].Fill?) && es[i].today == d
  }

  /** The calendar does not run backwards. */
  predicate DaysAscend(es: seq<Event>) {
    forall i, j :: 0 <= i < j < |es| && (es[i].Mark? || es[i].Fill?) && (es[j].Mark? || es[j].Fill?) ==>
      es[i].today <= es[j].today
  }

  /** A fill may have moved the ledger on to a day the breaker has not seen yet; then
      the ledger's opening equity is the mark the breaker will reset to. */
  predicate SideBySide(b: Breaker, l: Ledger) {
    && l.cur == b.cur
    && (if l.date == b.day then l.daily == b.daily
        else l.date.Some? && l.daily == l.cur && (b.day.Some? ==> b.day.value < l.date.value))
  }

  predicate NotBefore(l: Ledger, es: seq<Event>) {
    l.date.Some? ==> exists i :: 0 <= i < |es| && Days(es, i, l.date.value)
  }

  lemma {:induction false} StaySideBySide(equity: real, b: Breaker, es: seq<Event>)
    requires b.cur == equity == b.daily && b.day == None && DaysAscend(es)
    ensures SideBySide(Run(b, es), RunLedger(Opened(equity), es))
    ensures NotBefore(RunLedger(Opened(equity), es), es)
  {
    if |es| > 0 {
      var init, last := es[..|es| - 1], es[|es| - 1];
      StaySideBySide(equity, b, init);
      var l := RunLedger(Opened(equity), init);
      if l.date.Some? {
        var i :| 0 <= i < |init| && Days(init, i, l.date.value);
        assert Days(es, i, l.date.value);
      }
      if last.Mark? || last.Fill? { assert Days(es, |es| - 1, last.today); }
    }
  }

  /** Both measure the day from the same opening equity, or will from the next mark on. */
  predicate Aligned(b: Breaker, l: Ledger) {
    l.cur == b.cur && if l.date == b.day then l.daily == b.daily else l.daily == l.cur
  }

  /** The calendar comes back to the breaker's day after a fill took the ledger to
      another, and the last mark is not that day's opening equity. */
  predicate ComesBack(b: Breaker, l: Ledger, e: Event) {
    && (e.Mark? || e.Fill?)
    && b.day == Some(e.today) && l.date != Some(e.today) && b.daily != b.cur
  }

  lemma AlignedStepIff(b: Breaker, l: Ledger, e: Event)
    requires Aligned(b, l)
    ensures Aligned(Next(b, e), NextLedger(l, e)) <==> !ComesBack(b, l, e)
  {}

  predicate AlwaysAligned(b: Breaker, l: Ledger, es: seq<Event>) {
    forall i :: 0 <= i <= |es| ==> Aligned(Run(b, es[..i]), RunLedger(l, es[..i]))
  }

  predicate NeverComesBack(b: Breaker, l: Ledger, es: seq<Event>) {
    forall i :: 0 <= i < |es| ==> !ComesBack(Run(b, es[..i]), RunLedger(l, es[..i]), es[i])
  }

  lemma {:induction false} AlignedUpTo(b: Breaker, l: Ledger, es: seq<Event>, i: nat)
    requires Aligned(b, l) && NeverComesBack(b, l, es) && i <= |es|
    ensures Aligned(Run(b, es[..i]), RunLedger(l, es[..i]))
  {
    if i == 0 {
      assert es[..0] == [];
    } else {
      AlignedUpTo(b, l, es, i - 1);
      UnfoldRun(b, es, i - 1);
      UnfoldLedger(l, es, i - 1);
      AlignedStepIff(Run(b, es[..i - 1]), RunLedger(l, es[..i - 1]), es[i - 1]);
    }
  }

  /** Ledger and breaker measure from one opening equity throughout a run exactly when
      the calendar never comes back like that. */
  lemma AlignedAlwaysIff(b: Breaker, l: Ledger, es: seq<Event>)
    requires Aligned(b, l)
    ensures AlwaysAligned(b, l, es) <==> NeverComesBack(b, l, es)
  {
    if AlwaysAligned(b, l, es) {
      forall i | 0 <= i < |es| ensures !ComesBack(Run(b, es[..i]), RunLedger(l, es[..i]), es[i]) {
        UnfoldRun(b, es, i);
        UnfoldLedger(l, es, i);
        AlignedStepIff(Run(b, es[..i]), RunLedger(l, es[..i]), es[i]);
        assert Aligned(Run(b, es[..i + 1]), RunLedger(l, es[..i + 1]));
      }
    } else if NeverComesBack(b, l, es) {
      forall i | 0 <= i <= |es| ensures Aligned(Run(b, es[..i]), RunLedger(l, es[..i])) { AlignedUpTo(b, l, es, i); }
    }
  }

  /** A calendar that does not run backwards never does. */
  lemma AscendingDaysNeverComeBack(equity: real, limit: real, maxQty: int, maxErrors: int, es: seq<Event>)
    requires DaysAscend(es)
    ensures NeverComesBack(Start(equity, limit, maxQty, maxErrors), Opened(equity), es)
  {
    var b, l := Start(equity, limit, maxQty, maxErrors), Opened(equity);
    forall i | 0 <= i < |es| ensures !ComesBack(Run(b, es[..i]), RunLedger(l, es[..i]), es[i]) {
      assert DaysAscend(es[..i]);
      StaySideBySide(equity, b, es[..i]);
      var before := RunLedger(l, es[..i]);
      if before.date.Some? {
        var j :| 0 <= j < |es[..i]| && Days(es[..i], j, before.date.value);
        assert Days(es, j, before.date.value);
      }
    }
  }

  /** Fed the same marks on the same days, with fills in between, the ledger's daily
      drawdown after a mark is the very figure the breaker compares to its limit. */
  lemma LedgerHoldsBreakersDrawdown(equity: real, limit: real, maxQty: int, maxErrors: int, es: seq<Event>)
    requires |es| > 0 && es[|es| - 1].Mark?
    requires NeverComesBack(Start(equity, limit, maxQty, maxErrors), Opened(equity), es)
    ensures var b, l := Run(Start(equity, limit, maxQty, maxErrors), es), RunLedger(Opened(equity), es);
      l.dailyDd == Drop(b.daily, b.cur) && l.cur == b.cur
  {
    var b := Start(equity, limit, maxQty, maxErrors);
    AlignedUpTo(b, Opened(equity), es, |es|);
    assert es[..|es|] == es;
    SameDayAfterMark(equity, b, es);
  }

  lemma SameDayAfterMark(equity: real, b: Breaker, es: seq<Event>)
    requires |es| > 0 && es[|es| - 1].Mark?
    ensures var l := RunLedger(Opened(equity), es);
      l.date == Run(b, es).day && l.dailyDd == Drop(l.daily, l.cur)
  {}

  lemma MarkOnDay(b: Breaker, today: int, equity: real)
    ensures var c := Marked(b, today, equity);
      c.day == Some(today) && c.cur == equity && c.daily == if b.day == Some(today) then b.daily else b.cur
  {}

  lemma BookOnDay(l: Ledger, today: int, equity: real)
    ensures var c := Booked(l, today, equity);
      c.date == Some(today) && c.cur == equity && c.daily == if l.date == Some(today) then l.daily else l.cur
  {}

  lemma RunSnoc(b: Breaker, l: Ledger, es: seq<Event>, e: Event)
    ensures Run(b, es + [e]) == Next(Run(b, es), e) && RunLedger(l, es + [e]) == NextLedger(RunLedger(l, es), e)
  {
    assert (es + [e])[..|es|] == es;
  }

  /** It can come back when the calendar runs backwards: the breaker still measures
      from the day's opening s, the ledger from the last mark y. */
  lemma BackwardDaysDisagree(b: Breaker, s: real, y: real)
    requires b.day == None && b.cur == s
    ensures var es := [] + [Mark(1, s)] + [Mark(1, y)] + [Fill(2)] + [Mark(1, y)];
      Run(b, es).daily == s && RunLedger(Opened(s), es).daily == y
  {
    var l, e1 := Opened(s), [] + [Mark(1, s)];
    var e2 := e1 + [Mark(1, y)];
    var e3 := e2 + [Fill(2)];
    RunSnoc(b, l, [], Mark(1, s));
    RunSnoc(b, l, e1, Mark(1, y));
    RunSnoc(b, l, e2, Fill(2));
    RunSnoc(b, l, e3, Mark(1, y));
    MarkOnDay(b, 1, s);
    MarkOnDay(Run(b, e1), 1, y);
    MarkOnDay(Run(b, e3), 1, y);
    BookOnDay(l, 1, s);
    BookOnDay(RunLedger(l, e1), 1, y);
    BookOnDay(RunLedger(l, e3), 1, y);
  }

  lemma UnfoldLedger(l: Ledger, es: seq<Event>, i: nat)
    requires i < |es|
    ensures RunLedger(l, es[..0]) == l && RunLedger(l, es[..i + 1]) == NextLedger(RunLedger(l, es[..i]), es[i])
  {
    assert es[..i + 1][..i] == es[..i];
  }

  /** The equity curve: the start and every mark. */
  function Curve(start: real, es: seq<Event>): (c: seq<real>)
    ensures |c| >= 1
  {
    if |es| == 0 then [start]
    else
      var init, last := Curve(start, es[..|es| - 1]), es[|es| - 1];
      if last.Mark? then init + [last.equity] else init
  }

  /** The ledger's running maximum is the drawdown of the whole curve. */
  lemma {:induction false} LedgerMaxIsDrawdown(start: real, es: seq<Event>)
    ensures var l := RunLedger(Opened(start), es);
      l.peak == PeakOf(Curve(start, es)) && l.maxDd == Drawdown(Curve(start, es))
  {
    if |es| == 0 {
      DropFromItself(start);
    } else {
      var init, last := es[..|es| - 1], es[|es| - 1];
      LedgerMaxIsDrawdown(start, init);
      if last.Mark? {
        var c := Curve(start, init);
        assert (c + [last.equity])[..|c|] == c;
      }
    }
  }
}
